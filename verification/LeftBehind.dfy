/**
 Four ways in which a player can go on seeing one that has left, each with a run that leads to
 it: the watcher was loading chunks, the player had started the game twice, it left after it had
 failed to start the game again, or it became spawned before it had started the game at all.
 */
module LeftBehind {
  import opened Wrappers
  import opened Replicas
  import opened Replication
  import opened ReplicationInvariant
  import opened ZeroId
  import opened Departures
  import opened SightOfDeparted

  // ---------- four ways to stay in sight ----------

  /** `a` goes on seeing the ID after `c` has left, whatever the others do. */
  ghost predicate SeesForEver(s: Server, a: Conn, c: Conn, id: RuntimeId) {
    forall after :: Silent(after, c) ==> Sees(Run(Step(s, Disconnect(c)), after), a, id).Some?
  }

  lemma StaysInSight(s: Server, a: Conn, c: Conn, id: RuntimeId)
    requires Sane(s) && c in s.clients && a != c && Owned(s, c, id) && Sees(s, a, id).Some?
    requires !(Registered(s, c) && id == s.clients[c].runtimeID && Active(s, a))
    ensures SeesForEver(s, a, c, id)
  {
    forall after | Silent(after, c)
      ensures Sees(Run(Step(s, Disconnect(c)), after), a, id).Some?
    {
      GivenIdIsFinal(s, c, id, after, a);
    }
  }

  /** Two players who see each other. */
  ghost predicate Together(s: Server, a: Conn, c: Conn) {
    && Consistent(s) && a != c && Active(s, a) && Active(s, c)
    && Registered(s, a) && Registered(s, c) && s.clients[c].identity.Some?
  }

  lemma TogetherSee(s: Server, a: Conn, c: Conn)
    requires Together(s, a, c)
    ensures Owned(s, c, s.clients[c].runtimeID) && Sees(s, a, s.clients[c].runtimeID) == Some(AvatarOf(s.clients[c]))
  {
    assert Agrees(s, a, c) && GoodClient(s.clients[c], s.nextID);
  }

  /** The watcher is loading chunks again when the other leaves. */
  lemma LoadingWatcherIsNotTold(s: Server, a: Conn, c: Conn)
    requires Together(s, a, c)
    ensures var s1 := Step(s, Receive(a, RequestChunkRadius));
            Registered(s1, c) && !Active(s1, a) && SeesForEver(s1, a, c, s.clients[c].runtimeID)
  {
    var id := s.clients[c].runtimeID;
    TogetherSee(s, a, c);
    TellView(LogOf(s.logs, a), [OtherPacket, EquipmentOf(s.clients[a])], id);
    StepKeeps(s, Receive(a, RequestChunkRadius));
    StaysInSight(Step(s, Receive(a, RequestChunkRadius)), a, c, id);
  }

  /** What starting the game again needs, and keeps: the first ID, its table entry and its picture. */
  ghost predicate Owns(s: Server, a: Conn, c: Conn, id: RuntimeId) {
    && Sane(s) && Active(s, a) && a != c && c in s.clients && Owned(s, c, id)
    && id in s.table && s.table[id] == c && Sees(s, a, id).Some?
  }

  lemma LoginAgain(s: Server, a: Conn, c: Conn, client: Client, id: RuntimeId)
    requires Owns(s, a, c, id) && client.runtimeID == s.clients[c].runtimeID
             && client.inventory == s.clients[c].inventory
    ensures Owns(Update(s, c, client), a, c, id)
  {
    assert GoodClient(s.clients[c], s.nextID);
    UpdateStaysSane(s, c, client);
    ActiveAfterUpdate(s, c, client, a);
  }

  lemma EnterAgain(s: Server, a: Conn, c: Conn, id: RuntimeId, spawn: Vec, metadata: Metadata)
    requires Owns(s, a, c, id)
    ensures var after := Enter(s, c, spawn, metadata);
            && Owned(after, c, id) && id in after.table && after.table[id] == c
            && (Registered(after, c) <==> s.clients[c].identity.Some?)
  {
    assert forall k :: k in s.table ==> GoodEntry(s, k);
  }

  lemma StartAgain(s: Server, a: Conn, c: Conn, id: RuntimeId, spawn: Vec, metadata: Metadata)
    requires Owns(s, a, c, id)
    ensures var after := StartGame(s, c, spawn, metadata);
            && Owns(after, a, c, id) && after.clients[c].runtimeID == s.nextID + 1
            && (Registered(after, c) <==> s.clients[c].identity.Some?)
  {
    EnterAgain(s, a, c, id, spawn, metadata);
    StartGameState(s, c, spawn, metadata);
    StartGameKeepsSane(s, c, spawn, metadata);
    OthersStayInTable(s, c, spawn, metadata, a);
    StartGameView(s, c, spawn, metadata, a, id);
  }

  lemma StartAgainThenLeave(s: Server, a: Conn, c: Conn, id: RuntimeId, spawn: Vec, metadata: Metadata)
    requires Owns(s, a, c, id) && s.clients[c].phase.AwaitResourcePackResponse?
    ensures var after := Step(s, Receive(c, ResourcePacksCompleted(spawn, metadata)));
            && (Registered(after, c) <==> s.clients[c].identity.Some?)
            && InTable(after, c) && Active(after, a) && SeesForEver(after, a, c, id)
            && id in Step(after, Disconnect(c)).table
            && (s.clients[c].identity.None? ==> Step(after, Disconnect(c)) == after)
  {
    StartAgain(s, a, c, id, spawn, metadata);
    StaysInSight(StartGame(s, c, spawn, metadata), a, c, id);
  }

  /** The player starts the game again before it leaves: its first ID is never taken back. */
  lemma OldIdIsNotRemoved(s: Server, a: Conn, c: Conn, spawn: Vec, metadata: Metadata)
    requires Together(s, a, c)
    ensures var id := s.clients[c].runtimeID;
            var s1 := Step(s, Receive(c, ClientToServerHandshake));
            var s2 := Step(s1, Receive(c, ResourcePacksCompleted(spawn, metadata)));
            && Registered(s2, c) && Active(s2, a)
            && id in Step(s2, Disconnect(c)).table && SeesForEver(s2, a, c, id)
  {
    var id := s.clients[c].runtimeID;
    TogetherSee(s, a, c);
    var s1 := Step(s, Receive(c, ClientToServerHandshake));
    LoginAgain(s, a, c, s1.clients[c], id);
    StartAgainThenLeave(s1, a, c, id, spawn, metadata);
  }

  /** The player fails to start the game again: its leaving removes nothing and tells nobody. */
  lemma UnregisteredLeaveIsSilent(s: Server, a: Conn, c: Conn, spawn: Vec, metadata: Metadata)
    requires Together(s, a, c)
    ensures var id := s.clients[c].runtimeID;
            var s1 := Step(Step(s, Receive(c, Login(None))), Receive(c, ClientToServerHandshake));
            var s2 := Step(s1, Receive(c, ResourcePacksCompleted(spawn, metadata)));
            && !Registered(s2, c) && InTable(s2, c) && Active(s2, a)
            && Step(s2, Disconnect(c)) == s2 && SeesForEver(s2, a, c, id)
  {
    LoginWithoutIdentity(s, a, c);
    StartAgainThenLeave(Step(Step(s, Receive(c, Login(None))), Receive(c, ClientToServerHandshake)), a, c,
                        s.clients[c].runtimeID, spawn, metadata);
  }

  lemma LoginWithoutIdentity(s: Server, a: Conn, c: Conn)
    requires Together(s, a, c)
    ensures var after := Step(Step(s, Receive(c, Login(None))), Receive(c, ClientToServerHandshake));
            && Owns(after, a, c, s.clients[c].runtimeID)
            && after.clients[c].identity.None? && after.clients[c].phase.AwaitResourcePackResponse?
  {
    TogetherSee(s, a, c);
    var s0 := Step(s, Receive(c, Login(None)));
    LoginAgain(s, a, c, s0.clients[c], s.clients[c].runtimeID);
    LoginAgain(s0, a, c, s0.clients[c].(phase := AwaitResourcePackResponse), s.clients[c].runtimeID);
  }

  /**
   A client becomes spawned before it starts the game: it is shown under ID 0, its leaving has no
   effect, and nothing ever takes the picture away, not even if it starts the game after all and
   leaves like everybody else.
   */
  lemma UnstartedClientStaysInSight(s: Server, a: Conn, c: Conn)
    requires Consistent(s) && Active(s, a) && c !in s.clients
    ensures var s1 := Step(s, Connect(c));
            var s2 := Step(s1, Receive(c, SetLocalPlayerAsInitialised(0)));
            && CurrentId(s1, c) == CurrentId(s2, c) == {} && Step(s2, Disconnect(c)) == s2
            && Sees(s2, a, 0) == Some(AvatarOf(NewClient()))
            && forall events :: Sees(Run(s2, events), a, 0).Some?
  {
    ConnectKeeps(s, c);
    assert Active(Update(s, c, NewClient()), a);
    InitialisesUnstarted(Update(s, c, NewClient()), a, c);
  }

  lemma InitialisesUnstarted(s: Server, a: Conn, c: Conn)
    requires Consistent(s) && Active(s, a) && a != c && c in s.clients && s.clients[c] == NewClient()
    ensures var after := Step(s, Receive(c, SetLocalPlayerAsInitialised(0)));
            && CurrentId(after, c) == {} && Step(after, Disconnect(c)) == after
            && Sees(after, a, 0) == Some(AvatarOf(NewClient()))
            && forall events :: Sees(Run(after, events), a, 0).Some?
  {
    var after := Initialise(s, c);
    InitialiseKeeps(s, c);
    InitialiseShowsZeroIff(s, c, a);
    forall events
      ensures Sees(Run(after, events), a, 0).Some?
    {
      SeesZeroIff(after, events, a);
    }
  }

  // ---------- two players can always meet ----------

  /** Some run leads from `s` to `t`. */
  ghost predicate Reaches(s: Server, t: Server) {
    exists events :: Run(s, events) == t
  }

  lemma {:induction false} RunAppend(s: Server, events: seq<SessionEvent>, event: SessionEvent)
    ensures Run(s, events + [event]) == Step(Run(s, events), event)
    decreases |events|
  {
    if events == [] {
      assert [event][1..] == [];
      assert Run(Step(s, event), []) == Step(s, event);
    } else {
      assert (events + [event])[1..] == events[1..] + [event];
      RunAppend(Step(s, events[0]), events[1..], event);
    }
  }

  lemma ReachesStep(s: Server, t: Server, event: SessionEvent)
    requires Reaches(s, t)
    ensures Reaches(s, Step(t, event))
  {
    var events :| Run(s, events) == t;
    RunAppend(s, events, event);
  }

  lemma ReachesSelf(s: Server)
    ensures Reaches(s, s)
  {
    assert Run(s, []) == s;
  }

  lemma ReachableIsConsistent(s: Server, t: Server)
    requires Consistent(s) && Reaches(s, t)
    ensures Consistent(t)
  {
    var events :| Run(s, events) == t;
    RunKeeps(s, events);
  }

  /** A packet that changes nothing but the client itself. */
  lemma ReachesChange(origin: Server, s: Server, c: Conn, client: Client, packet: Incoming, client': Client)
    requires Reaches(origin, Update(s, c, client))
    requires Handle(Update(s, c, client), c, packet) == Update(Update(s, c, client), c, client')
    ensures Reaches(origin, Update(s, c, client'))
  {
    assert Update(Update(s, c, client), c, client').clients == s.clients[c := client'];
    ReachesStep(origin, Update(s, c, client), Receive(c, packet));
  }

  lemma LoginReaches(origin: Server, s: Server, c: Conn, uuid: Uuid)
    requires Reaches(origin, s) && c !in s.clients
    ensures Reaches(origin, Update(s, c, NewClient().(identity := Some(uuid), phase := AwaitResourcePackResponse)))
  {
    var client := NewClient();
    var greeted := client.(phase := AwaitLogin);
    var known := client.(identity := Some(uuid), phase := AwaitClientHandshake);
    ReachesStep(origin, s, Connect(c));
    ReachesChange(origin, s, c, client, RequestNetworkSettings, greeted);
    ReachesChange(origin, s, c, greeted, Login(Some(uuid)), known);
    ReachesChange(origin, s, c, known, ClientToServerHandshake, known.(phase := AwaitResourcePackResponse));
  }

  /** `after` has one more player than `s`: `c`, under the next ID. */
  ghost predicate HasEntered(s: Server, after: Server, c: Conn) {
    && after.nextID == s.nextID + 1
    && after.table == s.table[after.nextID := c]
    && c in after.clients && after.clients[c].runtimeID == after.nextID
    && after.clients[c].identity.Some? && !after.clients[c].phase.Disconnected?
    && after.clients.Keys == s.clients.Keys + {c}
    && forall a :: a in s.clients && a != c ==> after.clients[a] == s.clients[a]
  }

  ghost predicate HasJoined(s: Server, after: Server, c: Conn) {
    HasEntered(s, after, c) && after.clients[c].phase.Spawned?
  }

  lemma StartingEnters(origin: Server, s: Server, c: Conn, uuid: Uuid, spawn: Vec, metadata: Metadata)
    returns (after: Server)
    requires Reaches(origin, s) && c !in s.clients
    ensures Reaches(origin, after) && HasEntered(s, after, c)
  {
    LoginReaches(origin, s, c, uuid);
    var loggedIn := Update(s, c, NewClient().(identity := Some(uuid), phase := AwaitResourcePackResponse));
    after := Step(loggedIn, Receive(c, ResourcePacksCompleted(spawn, metadata)));
    ReachesStep(origin, loggedIn, Receive(c, ResourcePacksCompleted(spawn, metadata)));
  }

  lemma RadiusStaysEntered(s: Server, entered: Server, c: Conn)
    requires HasEntered(s, entered, c)
    ensures HasEntered(s, Step(entered, Receive(c, RequestChunkRadius)), c)
  {
  }

  /** A new client that follows the protocol ends up spawned and in the table, whoever else is there. */
  lemma JoiningSpawns(origin: Server, s: Server, c: Conn, uuid: Uuid, spawn: Vec, metadata: Metadata)
    returns (after: Server)
    requires Reaches(origin, s) && c !in s.clients
    ensures Reaches(origin, after) && HasJoined(s, after, c)
  {
    var entered := StartingEnters(origin, s, c, uuid, spawn, metadata);
    ReachesStep(origin, entered, Receive(c, RequestChunkRadius));
    RadiusStaysEntered(s, entered, c);
    var waiting := Step(entered, Receive(c, RequestChunkRadius));
    after := Initialise(waiting, c);
    ReachesStep(origin, waiting, Receive(c, SetLocalPlayerAsInitialised(s.nextID + 1)));
  }

  lemma TwoHaveJoined(s: Server, s1: Server, s2: Server, a: Conn, c: Conn)
    requires a != c && a !in s.clients && HasJoined(s, s1, a) && HasJoined(s1, s2, c) && Consistent(s2)
    ensures Together(s2, a, c)
  {
    assert s2.table[s1.nextID] == a && s2.table[s2.nextID] == c;
  }

  /** From every consistent server two new clients can join, so the four ways are open to them. */
  lemma TwoPlayersCanMeet(s: Server, a: Conn, c: Conn, uuid: Uuid, uuid': Uuid, spawn: Vec, metadata: Metadata)
    returns (events: seq<SessionEvent>)
    requires Consistent(s) && a !in s.clients && c !in s.clients && a != c
    ensures Together(Run(s, events), a, c)
  {
    ReachesSelf(s);
    var s1 := JoiningSpawns(s, s, a, uuid, spawn, metadata);
    var s2 := JoiningSpawns(s, s1, c, uuid', spawn, metadata);
    ReachableIsConsistent(s, s2);
    TwoHaveJoined(s, s1, s2, a, c);
    events :| Run(s, events) == s2;
  }
}
