/**
 What remains of a player after it has left. A client can go through several runtime IDs, because
 it may start the game again, and only the departure of the ID it has at the end is announced, only
 to players who are spawned at that moment, and only if that ID is in the table. Before it starts the
 game a client has ID 0, shared with others, which is never taken back once it was shown. For
 every ID that a client ever had this module says what each other client sees of it for ever after.
 */
module Departures {
  import opened Numbers
  import opened Wrappers
  import opened ItemStacks
  import opened Replicas
  import opened Replication
  import opened ReplicationInvariant
  import opened ZeroId

  predicate Registered(s: Server, c: Conn) {
    && c in s.clients && s.clients[c].runtimeID != 0
    && s.clients[c].runtimeID in s.table && s.table[s.clients[c].runtimeID] == c
  }

  /** The ID was handed out, and if anybody still has it, it is `c`. */
  ghost predicate Owned(s: Server, c: Conn, id: RuntimeId) {
    1 <= id <= s.nextID && forall x :: x in s.clients && x != c ==> s.clients[x].runtimeID != id
  }

  /** Whoever becomes spawned is shown `c` under this ID. */
  predicate ShownAs(s: Server, c: Conn, id: RuntimeId) {
    Active(s, c) && s.clients[c].runtimeID == id
  }

  /** Once a connection has ended, nothing more comes from it. */
  ghost predicate Silent(events: seq<SessionEvent>, c: Conn) {
    forall i :: 0 <= i < |events| ==> events[i].c != c
  }

  /** What others do between `s` and `s'`: it shows `c` to some, if at all, and changes nothing else about it. */
  ghost predicate Follows(s: Server, s': Server, c: Conn, id: RuntimeId)
    requires c in s.clients
  {
    && Owned(s', c, id) && (InTable(s', c) ==> InTable(s, c))
    && c in s'.clients && s'.clients[c] == s.clients[c]
    && forall a :: Sees(s', a, id) == Sees(s, a, id)
                   || (ShownAs(s, c, id) && Sees(s', a, id) == Some(AvatarOf(s.clients[c])))
  }

  lemma FollowsOn(s: Server, s': Server, t: Server, c: Conn, id: RuntimeId)
    requires c in s.clients && Follows(s, s', c, id) && Follows(s', t, c, id)
    ensures Follows(s, t, c, id)
  {
  }

  // ---------- the moment of leaving ----------

  lemma OthersStayActive(s: Server, c: Conn, a: Conn)
    requires Registered(s, c) && a != c
    ensures InTable(s, a) <==> InTable(s.(table := s.table - {s.clients[c].runtimeID}), a)
  {
    var removed := s.(table := s.table - {s.clients[c].runtimeID});
    if InTable(s, a) {
      var k :| k in s.table && s.table[k] == a;
      assert k in removed.table && removed.table[k] == a;
    }
  }

  /** What a departure writes. */
  lemma RemovalView(s: Server, c: Conn, a: Conn, id: RuntimeId)
    requires Sane(s) && Registered(s, c) && a != c
    ensures Sees(RemovePlayer(s, c), a, id)
         == if Active(s, a) then Look(Sees(s, a, id), RemoveActor(s.clients[c].runtimeID), id) else Sees(s, a, id)
  {
    var client := s.clients[c];
    var removed := s.(table := s.table - {client.runtimeID});
    var others := Players(removed, None, true);
    assert a in others <==> Active(s, a) by {
      InPlayers(removed, None, true, a);
      OthersStayActive(s, c, a);
    }
    var logs := WriteToClients(removed.logs, others, [PlayerListRemove(client.uuid)]);
    WriteToClientsView(removed.logs, others, PlayerListRemove(client.uuid), a, id);
    WriteToClientsView(logs, others, RemoveActor(client.runtimeID), a, id);
  }

  /**
   Of all IDs that a leaving client ever had, exactly the current one disappears, if it is in the
   table, and exactly for those who are spawned; every other picture stays.
   */
  lemma RemovalIsSeenBySpawned(s: Server, c: Conn, a: Conn, id: RuntimeId)
    requires Sane(s) && c in s.clients && a != c
    ensures var announced := Registered(s, c) && id == s.clients[c].runtimeID && Active(s, a);
            Sees(Step(s, Disconnect(c)), a, id) == if announced then None else Sees(s, a, id)
  {
    if Registered(s, c) {
      RemovalView(s, c, a, id);
    }
  }

  // ---------- afterwards ----------

  lemma BroadcastFollows(s: Server, x: Conn, packet: Packet, c: Conn, id: RuntimeId)
    requires Owned(s, c, id) && c in s.clients && !About(packet, id)
    ensures Follows(s, Broadcast(s, x, packet), c, id)
  {
    forall a
      ensures Sees(Broadcast(s, x, packet), a, id) == Sees(s, a, id)
    {
      WriteToClientsView(s.logs, SpawnedPeers(s, x), packet, a, id);
    }
  }

  lemma TellFollows(s: Server, x: Conn, packets: seq<Packet>, c: Conn, id: RuntimeId)
    requires Owned(s, c, id) && c in s.clients && forall i :: 0 <= i < |packets| ==> !About(packets[i], id)
    ensures Follows(s, Tell(s, x, packets), c, id)
  {
    TellView(LogOf(s.logs, x), packets, id);
  }

  lemma UpdateFollows(s: Server, x: Conn, client: Client, c: Conn, id: RuntimeId)
    requires Owned(s, c, id) && c in s.clients && x != c && client.runtimeID != id
    ensures Follows(s, Update(s, x, client), c, id)
  {
  }

  /** What a handler does when it changes its own client and then broadcasts. */
  lemma ChangeFollows(s: Server, x: Conn, client: Client, packet: Packet, c: Conn, id: RuntimeId)
    requires Owned(s, c, id) && c in s.clients && x != c && client.runtimeID != id && !About(packet, id)
    ensures Follows(s, Broadcast(Update(s, x, client), x, packet), c, id)
  {
    UpdateFollows(s, x, client, c, id);
    BroadcastFollows(Update(s, x, client), x, packet, c, id);
  }

  /** The other clients of the list do not have the ID. */
  lemma {:induction false} ShowPlayersFollows(s: Server, logs: Logs, to: Conn, list: seq<Conn>, a: Conn, c: Conn,
                                              id: RuntimeId)
    requires Owned(s, c, id)
    ensures var view := View(LogOf(ShowPlayers(s, logs, to, list), a), id);
            || view == View(LogOf(logs, a), id)
            || (c in list && c in s.clients && s.clients[c].runtimeID == id && view == Some(AvatarOf(s.clients[c])))
    decreases |list|
  {
    if list != [] {
      var next := logs;
      if list[0] in s.clients {
        var client := s.clients[list[0]];
        next := WriteOne(logs, to, SpawnPackets(client));
        if client.runtimeID == id {
          SpawnPacketsShow(LogOf(logs, to), client);
        } else {
          SpawnPacketsAbout(client, id);
          TellView(LogOf(logs, to), SpawnPackets(client), id);
        }
      }
      ShowPlayersFollows(s, next, to, list[1..], a, c, id);
    }
  }

  lemma InitialiseFollows(s: Server, x: Conn, c: Conn, id: RuntimeId)
    requires Owned(s, c, id) && c in s.clients && x in s.clients && x != c
    ensures Follows(s, Initialise(s, x), c, id)
  {
    var spawned := Update(s, x, s.clients[x].(phase := Spawned));
    var peers := SpawnedPeers(spawned, x);
    var logs := ShowPlayers(spawned, spawned.logs, x, peers);
    InPlayersUpTo(spawned, Some(x), true, spawned.nextID, c);
    SpawnPacketsAbout(spawned.clients[x], id);
    forall a
      ensures Sees(Initialise(s, x), a, id) == Sees(s, a, id)
              || (ShownAs(s, c, id) && Sees(Initialise(s, x), a, id) == Some(AvatarOf(s.clients[c])))
    {
      ShowPlayersFollows(spawned, spawned.logs, x, peers, a, c, id);
      WriteSeveralView(logs, peers, SpawnPackets(spawned.clients[x]), a, id);
    }
  }

  lemma StartGameFollows(s: Server, x: Conn, spawn: Vec, metadata: Metadata, c: Conn, id: RuntimeId)
    requires Owned(s, c, id) && c in s.clients && x in s.clients && x != c
    ensures Follows(s, StartGame(s, x, spawn, metadata), c, id)
  {
    var after := StartGame(s, x, spawn, metadata);
    StartGameState(s, x, spawn, metadata);
    forall a
      ensures Sees(after, a, id) == Sees(s, a, id)
    {
      StartGameView(s, x, spawn, metadata, a, id);
    }
  }

  lemma BroadcastIfFollows(condition: bool, s: Server, x: Conn, packet: Packet, c: Conn, id: RuntimeId)
    requires Owned(s, c, id) && c in s.clients && !About(packet, id)
    ensures Follows(s, BroadcastIf(condition, s, x, packet), c, id)
  {
    BroadcastFollows(s, x, packet, c, id);
  }

  lemma MoveFollows(s: Server, x: Conn, pose: Pose, velocity: Vec, onGround: bool, input: Input, c: Conn, id: RuntimeId)
    requires Owned(s, c, id) && c in s.clients && x in s.clients && x != c
    ensures Follows(s, Move(s, x, pose, velocity, onGround, input), c, id)
  {
    var before := s.clients[x];
    var moved := Moved(before, pose, velocity, onGround, input);
    var s0 := Update(s, x, moved);
    var s1 := BroadcastIf(UpdateMetadata(before.metadata, input).1, s0, x, ActorDataOf(moved));
    var s2 := BroadcastIf(before.pose != pose, s1, x, MovePlayerOf(moved));
    var s3 := BroadcastIf(before.velocity != velocity, s2, x, ActorMotionOf(moved));
    UpdateFollows(s, x, moved, c, id);
    BroadcastIfFollows(UpdateMetadata(before.metadata, input).1, s0, x, ActorDataOf(moved), c, id);
    FollowsOn(s, s0, s1, c, id);
    BroadcastIfFollows(before.pose != pose, s1, x, MovePlayerOf(moved), c, id);
    FollowsOn(s, s1, s2, c, id);
    BroadcastIfFollows(before.velocity != velocity, s2, x, ActorMotionOf(moved), c, id);
    FollowsOn(s, s2, s3, c, id);
  }

  lemma ApplyingFollows(s: Server, x: Conn, requests: seq<Request>, c: Conn, id: RuntimeId)
    requires Owned(s, c, id) && c in s.clients && x in s.clients && x != c
    ensures Follows(s, ApplyRequests(s, x, requests), c, id)
  {
    var client := s.clients[x].(inventory := AfterBatch(s.creative, s.clients[x].inventory, requests));
    UpdateFollows(s, x, client, c, id);
    ChangeFollows(s, x, client, EquipmentOf(client), c, id);
  }

  lemma RequestsFollow(s: Server, x: Conn, requests: seq<Request>, c: Conn, id: RuntimeId)
    requires Owned(s, c, id) && c in s.clients && x in s.clients && x != c
    ensures Follows(s, ProcessRequests(s, x, requests), c, id) && x in ProcessRequests(s, x, requests).clients
  {
    ApplyingFollows(s, x, requests, c, id);
    var after := ApplyRequests(s, x, requests);
    assert after.clients[x].runtimeID != id;
    TellFollows(after, x, [OtherPacket, OtherPacket, EquipmentOf(after.clients[x])], c, id);
  }

  lemma InputFollows(s: Server, x: Conn, request: Option<Request>, pose: Pose, velocity: Vec, onGround: bool,
                     input: Input, c: Conn, id: RuntimeId)
    requires Owned(s, c, id) && c in s.clients && x in s.clients && x != c
    ensures Follows(s, AuthInput(s, x, request, pose, velocity, onGround, input), c, id)
  {
    if !s.clients[x].phase.Spawned? {
      TellFollows(s, x, [MovePlayerOf(s.clients[x])], c, id);
    } else if request.Some? {
      RequestsFollow(s, x, [request.value], c, id);
      MoveFollows(ProcessRequests(s, x, [request.value]), x, pose, velocity, onGround, input, c, id);
    } else {
      MoveFollows(s, x, pose, velocity, onGround, input, c, id);
    }
  }

  lemma LegacyMoveFollows(s: Server, x: Conn, pose: Pose, onGround: bool, c: Conn, id: RuntimeId)
    requires Owned(s, c, id) && c in s.clients && x in s.clients && x != c
    ensures Follows(s, LegacyMove(s, x, pose, onGround), c, id)
  {
    TellFollows(s, x, [MovePlayerOf(s.clients[x])], c, id);
    var moved := MovedTo(s.clients[x], pose, onGround);
    ChangeFollows(s, x, moved, MovePlayerOf(moved), c, id);
  }

  lemma LeaveVehicleFollows(s: Server, x: Conn, position: Option<Vec>, c: Conn, id: RuntimeId)
    requires Owned(s, c, id) && c in s.clients && x in s.clients && x != c
    ensures Follows(s, LeaveVehicle(s, x, position), c, id)
  {
    var moved := LeaveVehicle(s, x, position).clients[x];
    ChangeFollows(s, x, moved, MovePlayerOf(moved), c, id);
  }

  lemma SelectFollows(s: Server, x: Conn, slot: Byte, hotbarSlot: Byte, c: Conn, id: RuntimeId)
    requires Owned(s, c, id) && c in s.clients && x in s.clients && x != c
    ensures Follows(s, SelectSlot(s, x, slot, hotbarSlot), c, id)
  {
    var client := s.clients[x];
    var after := client.(inventory := AfterSelect(client.inventory, slot, hotbarSlot));
    TellFollows(s, x, [EquipmentOf(client)], c, id);
    ChangeFollows(s, x, after, EquipmentOf(after), c, id);
  }

  lemma RadiusFollows(s: Server, x: Conn, c: Conn, id: RuntimeId)
    requires Owned(s, c, id) && c in s.clients && x in s.clients && x != c
    ensures Follows(s, Update(Tell(s, x, [OtherPacket, EquipmentOf(s.clients[x])]), x,
                              s.clients[x].(phase := AwaitInitialised)), c, id)
  {
    var told := Tell(s, x, [OtherPacket, EquipmentOf(s.clients[x])]);
    TellFollows(s, x, [OtherPacket, EquipmentOf(s.clients[x])], c, id);
    UpdateFollows(told, x, s.clients[x].(phase := AwaitInitialised), c, id);
  }

  lemma RemoveFollows(s: Server, x: Conn, c: Conn, id: RuntimeId)
    requires Owned(s, c, id) && c in s.clients && x in s.clients && x != c
    ensures Follows(s, RemovePlayer(s, x), c, id)
  {
    if Registered(s, x) {
      var client := s.clients[x];
      var removed := s.(table := s.table - {client.runtimeID});
      var others := Players(removed, None, true);
      var logs := WriteToClients(removed.logs, others, [PlayerListRemove(client.uuid)]);
      forall a
        ensures Sees(RemovePlayer(s, x), a, id) == Sees(s, a, id)
      {
        WriteToClientsView(removed.logs, others, PlayerListRemove(client.uuid), a, id);
        WriteToClientsView(logs, others, RemoveActor(client.runtimeID), a, id);
      }
    }
  }

  lemma LoginFollows(s: Server, x: Conn, packet: Incoming, c: Conn, id: RuntimeId)
    requires Owned(s, c, id) && c in s.clients && x in s.clients && x != c && IsLoginPacket(packet)
    ensures Follows(s, Handle(s, x, packet), c, id)
  {
    if packet.ResourcePacksCompleted? {
      StartGameFollows(s, x, packet.spawn, packet.metadata, c, id);
    }
  }

  lemma HandleFollows(s: Server, x: Conn, packet: Incoming, c: Conn, id: RuntimeId)
    requires Owned(s, c, id) && c in s.clients && x in s.clients && x != c
    ensures Follows(s, Handle(s, x, packet), c, id)
  {
    if IsLoginPacket(packet) {
      LoginFollows(s, x, packet, c, id);
    } else if !s.clients[x].phase.Disconnected? {
      match packet
      case RequestChunkRadius => RadiusFollows(s, x, c, id);
      case SetLocalPlayerAsInitialised(_) => InitialiseFollows(s, x, c, id);
      case MobEquipmentRequest(_, slot, hotbarSlot) => SelectFollows(s, x, slot, hotbarSlot, c, id);
      case ItemStackRequests(requests) => RequestsFollow(s, x, requests, c, id);
      case PlayerAuthInput(request, pose, velocity, onGround, input) =>
        InputFollows(s, x, request, pose, velocity, onGround, input, c, id);
      case MovePlayerRequest(_, pose, onGround) => LegacyMoveFollows(s, x, pose, onGround, c, id);
      case InteractLeaveVehicle(position) => LeaveVehicleFollows(s, x, position, c, id);
      case _ =>
    }
  }

  /** Nothing that the others do, in any order, concerns a silent client, except that it may still be shown. */
  lemma {:induction false} RunFollows(s: Server, events: seq<SessionEvent>, c: Conn, id: RuntimeId)
    requires Owned(s, c, id) && c in s.clients && Silent(events, c)
    ensures Follows(s, Run(s, events), c, id)
    decreases |events|
  {
    if events != [] {
      var x := events[0].c;
      match events[0] {
        case Connect(_) =>
          if x !in s.clients {
            UpdateFollows(s, x, NewClient(), c, id);
          }
        case Receive(_, packet) =>
          if x in s.clients {
            HandleFollows(s, x, packet, c, id);
          }
        case Disconnect(_) =>
          if x in s.clients {
            RemoveFollows(s, x, c, id);
          }
      }
      RunFollows(Step(s, events[0]), events[1..], c, id);
    }
  }

  /** The view, at any time after the departure, of an ID that was given to the departed client. */
  ghost predicate SeesAfterwards(s: Server, a: Conn, c: Conn, id: RuntimeId, seen: Option<Avatar>)
    requires c in s.clients
  {
    if Registered(s, c) && id == s.clients[c].runtimeID && Active(s, a) then seen == None
    else seen == Sees(s, a, id)
         || (!Registered(s, c) && ShownAs(s, c, id) && seen == Some(AvatarOf(s.clients[c])))
  }

  lemma GivenIdIsFinal(s: Server, c: Conn, id: RuntimeId, after: seq<SessionEvent>, a: Conn)
    requires Sane(s) && c in s.clients && a != c && Owned(s, c, id) && Silent(after, c)
    ensures SeesAfterwards(s, a, c, id, Sees(Run(Step(s, Disconnect(c)), after), a, id))
  {
    RemovalIsSeenBySpawned(s, c, a, id);
    RunFollows(Step(s, Disconnect(c)), after, c, id);
  }

  /**
   What a client sees, at any time after the departure, of an ID that the departed client had: the
   announced ID is gone for those who were spawned, and every other picture stays as it was. Only a
   client that leaves without being removed, although it is spawned, may still be shown to others.
   ID 0 stays in sight, and comes into sight only when somebody else is shown under it.
   */
  lemma DepartureIsFinal(s: Server, c: Conn, id: RuntimeId, after: seq<SessionEvent>, a: Conn)
    requires Consistent(s) && c in s.clients && a != c && (Owned(s, c, id) || id == 0) && Silent(after, c)
    ensures var left := Step(s, Disconnect(c));
            var seen := Sees(Run(left, after), a, id);
            if id == 0 then seen.Some? <==> Sees(s, a, 0).Some? || ShownUnderZero(left, after, a) != {}
            else SeesAfterwards(s, a, c, id, seen)
  {
    if id == 0 {
      StepKeeps(s, Disconnect(c));
      StepShowsZeroIff(s, Disconnect(c), a);
      SeesZeroIff(Step(s, Disconnect(c)), after, a);
    } else {
      GivenIdIsFinal(s, c, id, after, a);
    }
  }
}
