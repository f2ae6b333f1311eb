/**
 When a client is rid of a departed one: the exact condition, at the moment of the departure, for
 never seeing it again under any of the IDs that it ever had.
 */
module SightOfDeparted {
  import opened Wrappers
  import opened ItemStacks
  import opened Replicas
  import opened Replication
  import opened ReplicationInvariant
  import opened ZeroId
  import opened Departures

  // ---------- when a client is rid of the departed ----------

  /** The condition, at the moment of the departure, for the ID to be and stay out of sight. */
  predicate IsRidOf(s: Server, a: Conn, c: Conn, id: RuntimeId)
    requires c in s.clients
  {
    if Registered(s, c) && id == s.clients[c].runtimeID then Active(s, a) || Sees(s, a, id).None?
    else Sees(s, a, id).None? && !ShownAs(s, c, id)
  }

  /** `a` can still be shown players. */
  predicate CanBeSpawned(s: Server, a: Conn) {
    a in s.clients ==> !s.clients[a].phase.Disconnected?
  }

  /** Becoming spawned shows every active player. */
  lemma InitialiseShows(s: Server, a: Conn, c: Conn)
    requires Sane(s) && a != c && a in s.clients && Active(s, c)
    ensures Sees(Initialise(s, a), a, s.clients[c].runtimeID) == Some(AvatarOf(s.clients[c]))
  {
    var me := s.clients[a].(phase := Spawned);
    var spawned := Update(s, a, me);
    UpdateStaysSane(s, a, me);
    ActiveAfterUpdate(s, a, me, c);
    InSpawnedPeers(spawned, a, c);
    InSpawnedPeers(spawned, a, a);
    var k :| k in s.table && s.table[k] == c;
    assert GoodEntry(s, k);
    var peers := SpawnedPeers(spawned, a);
    ShowPlayersView(spawned, spawned.logs, a, peers, c, a);
    WriteSpawnView(ShowPlayers(spawned, spawned.logs, a, peers), peers, me, a);
  }

  lemma RunOne(s: Server, event: SessionEvent, rest: seq<SessionEvent>)
    ensures Run(s, [event] + rest) == Run(Step(s, event), rest)
  {
    assert ([event] + rest)[1..] == rest;
  }

  lemma ConnectedCanBeShown(s: Server, a: Conn, c: Conn) returns (events: seq<SessionEvent>)
    requires Sane(s) && a != c && a in s.clients && CanBeSpawned(s, a) && Active(s, c)
    ensures Silent(events, c)
    ensures Sees(Run(s, events), a, s.clients[c].runtimeID) == Some(AvatarOf(s.clients[c]))
  {
    events := [Receive(a, SetLocalPlayerAsInitialised(s.clients[a].runtimeID))] + [];
    RunOne(s, Receive(a, SetLocalPlayerAsInitialised(s.clients[a].runtimeID)), []);
    InitialiseShows(s, a, c);
  }

  /** Whoever is still in the table and spawned can be shown to anybody who is connected, or connects. */
  lemma CanBeShown(s: Server, a: Conn, c: Conn) returns (events: seq<SessionEvent>)
    requires Consistent(s) && a != c && CanBeSpawned(s, a) && Active(s, c)
    ensures Silent(events, c)
    ensures Sees(Run(s, events), a, s.clients[c].runtimeID) == Some(AvatarOf(s.clients[c]))
  {
    if a in s.clients {
      events := ConnectedCanBeShown(s, a, c);
    } else {
      StepKeeps(s, Connect(a));
      var connected := Update(s, a, NewClient());
      assert connected.clients[c] == s.clients[c] && Active(connected, c);
      events := ConnectedCanBeShown(connected, a, c);
      RunOne(s, Connect(a), events);
      events := [Connect(a)] + events;
    }
  }

  /** Nobody sees the ID again, whatever the others do from now on. */
  ghost predicate NeverSees(s: Server, a: Conn, c: Conn, id: RuntimeId) {
    forall after :: Silent(after, c) ==> Sees(Run(s, after), a, id).None?
  }

  /** A client is rid of an ID of the departed, for ever, exactly under the condition. */
  lemma RidIff(s: Server, a: Conn, c: Conn, id: RuntimeId)
    requires Consistent(s) && c in s.clients && a != c && Owned(s, c, id) && CanBeSpawned(s, a)
    ensures NeverSees(Step(s, Disconnect(c)), a, c, id) <==> IsRidOf(s, a, c, id)
  {
    var left := Step(s, Disconnect(c));
    if IsRidOf(s, a, c, id) {
      forall after | Silent(after, c)
        ensures Sees(Run(left, after), a, id).None?
      {
        GivenIdIsFinal(s, c, id, after, a);
      }
    } else {
      RemovalIsSeenBySpawned(s, c, a, id);
      assert Silent([], c) && Run(left, []) == left;
      if !Registered(s, c) && ShownAs(s, c, id) {
        var events := CanBeShown(s, a, c);
        assert Sees(Run(left, events), a, id).Some?;
      }
    }
  }

  // ---------- every ID that a client ever had ----------

  ghost function CurrentId(s: Server, c: Conn): set<RuntimeId> {
    if c in s.clients && s.clients[c].runtimeID != 0 then {s.clients[c].runtimeID} else {}
  }

  /** The IDs that a client has had at any time of a run. */
  ghost function IdsOf(s: Server, events: seq<SessionEvent>, c: Conn): set<RuntimeId>
    decreases |events|
  {
    CurrentId(s, c) + if events == [] then {} else IdsOf(Step(s, events[0]), events[1..], c)
  }

  /** Clients keep their IDs, lose them or get new ones; none takes over an ID that was handed out. */
  ghost predicate IdsGrow(s: Server, s': Server) {
    && s.nextID <= s'.nextID
    && forall x :: x in s'.clients ==>
         var id := s'.clients[x].runtimeID;
         id == 0 || id > s.nextID || (x in s.clients && s.clients[x].runtimeID == id)
  }

  /** What a handler leaves alone: everything but its own client, whose ID stays. */
  ghost predicate KeepsIds(s: Server, s': Server, x: Conn)
    requires x in s.clients
  {
    && s'.nextID == s.nextID && x in s'.clients
    && s'.clients == s.clients[x := s'.clients[x]] && s'.clients[x].runtimeID == s.clients[x].runtimeID
  }

  lemma MoveKeepsIds(s: Server, x: Conn, pose: Pose, velocity: Vec, onGround: bool, input: Input)
    requires x in s.clients
    ensures KeepsIds(s, Move(s, x, pose, velocity, onGround, input), x)
  {
  }

  lemma RequestsKeepIds(s: Server, x: Conn, requests: seq<Request>)
    requires x in s.clients
    ensures KeepsIds(s, ProcessRequests(s, x, requests), x)
  {
  }

  lemma InputKeepsIds(s: Server, x: Conn, request: Option<Request>, pose: Pose, velocity: Vec,
                      onGround: bool, input: Input)
    requires x in s.clients
    ensures KeepsIds(s, AuthInput(s, x, request, pose, velocity, onGround, input), x)
  {
    assert s.clients == s.clients[x := s.clients[x]];
    if s.clients[x].phase.Spawned? {
      if request.Some? {
        RequestsKeepIds(s, x, [request.value]);
        MoveKeepsIds(ProcessRequests(s, x, [request.value]), x, pose, velocity, onGround, input);
      } else {
        MoveKeepsIds(s, x, pose, velocity, onGround, input);
      }
    }
  }

  lemma LoginIdsGrow(s: Server, x: Conn, packet: Incoming)
    requires x in s.clients && IsLoginPacket(packet)
    ensures IdsGrow(s, Handle(s, x, packet))
  {
    if packet.ResourcePacksCompleted? {
      StartGameState(s, x, packet.spawn, packet.metadata);
    }
  }

  lemma HandleIdsGrow(s: Server, x: Conn, packet: Incoming)
    requires x in s.clients
    ensures IdsGrow(s, Handle(s, x, packet))
  {
    if IsLoginPacket(packet) {
      LoginIdsGrow(s, x, packet);
    } else if packet.PlayerAuthInput? {
      InputKeepsIds(s, x, packet.request, packet.pose, packet.velocity, packet.onGround, packet.input);
    } else if packet.ItemStackRequests? {
      RequestsKeepIds(s, x, packet.requests);
    }
  }

  lemma {:induction false} OwnedStays(s: Server, events: seq<SessionEvent>, c: Conn, id: RuntimeId)
    requires Owned(s, c, id)
    ensures Owned(Run(s, events), c, id)
    decreases |events|
  {
    if events != [] {
      if events[0].Receive? && events[0].c in s.clients {
        HandleIdsGrow(s, events[0].c, events[0].packet);
      }
      assert IdsGrow(s, Step(s, events[0]));
      OwnedStays(Step(s, events[0]), events[1..], c, id);
    }
  }

  lemma {:induction false} IdsAreOwned(s: Server, events: seq<SessionEvent>, c: Conn, id: RuntimeId)
    requires Consistent(s) && id in IdsOf(s, events, c)
    ensures Owned(Run(s, events), c, id)
    decreases |events|
  {
    if id in CurrentId(s, c) {
      assert GoodClient(s.clients[c], s.nextID);
      OwnedStays(s, events, c, id);
    } else {
      StepKeeps(s, events[0]);
      IdsAreOwned(Step(s, events[0]), events[1..], c, id);
    }
  }

  /** The IDs under which `c` may be in the sight of `a`: its own ones, and 0 if it was shown under that. */
  ghost function IdsFor(s: Server, events: seq<SessionEvent>, a: Conn, c: Conn): set<RuntimeId> {
    IdsOf(s, events, c) + if c in ShownUnderZero(s, events, a) then {0} else {}
  }

  /**
   In every run: after `c` has left, `a` sees nothing of it for ever, under whatever ID, exactly
   if `c` was not shown to it under ID 0, and for each ID that `c` was given the condition holds at
   the moment of the departure.
   */
  lemma RidOfAllIff(origin: Server, before: seq<SessionEvent>, a: Conn, c: Conn)
    requires Consistent(origin) && a != c
    requires c in Run(origin, before).clients && CanBeSpawned(Run(origin, before), a)
    ensures var s := Run(origin, before);
            (forall id :: id in IdsFor(origin, before, a, c) ==> NeverSees(Step(s, Disconnect(c)), a, c, id))
            <==> && c !in ShownUnderZero(origin, before, a)
                 && forall id :: id in IdsOf(origin, before, c) ==> IsRidOf(s, a, c, id)
  {
    var s := Run(origin, before);
    RunKeeps(origin, before);
    forall id | id in IdsOf(origin, before, c)
      ensures NeverSees(Step(s, Disconnect(c)), a, c, id) <==> IsRidOf(s, a, c, id)
    {
      IdsAreOwned(origin, before, c, id);
      RidIff(s, a, c, id);
    }
    if c in ShownUnderZero(origin, before, a) {
      SeesZeroIff(origin, before, a);
      ZeroIsNeverRid(s, a, c);
    }
  }

  lemma ZeroIsNeverRid(s: Server, a: Conn, c: Conn)
    requires Consistent(s) && Sees(s, a, 0).Some?
    ensures !NeverSees(Step(s, Disconnect(c)), a, c, 0)
  {
    StepShowsZeroIff(s, Disconnect(c), a);
    assert Silent([], c) && Run(Step(s, Disconnect(c)), []) == Step(s, Disconnect(c));
  }
}
