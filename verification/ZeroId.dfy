/**
 Runtime ID 0: the one that clients have before they start the game. The server lets such a client
 become spawned, shows it to everybody under that ID, and has no way to take the ID back. So a
 client sees ID 0 exactly if somebody was shown to it in this way, and from then on for ever.
 */
module ZeroId {
  import opened Numbers
  import opened Wrappers
  import opened ItemStacks
  import opened Replicas
  import opened Replication
  import opened ReplicationInvariant

  // ---------- packets that bring nobody into sight ----------

  /** The packet brings a player into sight or takes it away. */
  predicate MovesSight(packet: Packet) {
    packet.AddPlayer? || packet.RemoveActor?
  }

  /** Between the two states nobody came into anybody's sight under the ID, and nobody left it. */
  ghost predicate SameSight(s: Server, s': Server, id: RuntimeId) {
    forall a :: Sees(s', a, id).Some? <==> Sees(s, a, id).Some?
  }

  lemma LookKeepsSight(view: Option<Avatar>, packet: Packet, id: RuntimeId)
    requires !MovesSight(packet) || !About(packet, id)
    ensures Look(view, packet, id).Some? <==> view.Some?
  {
  }

  lemma {:induction false} LookAllKeepsSight(view: Option<Avatar>, packets: seq<Packet>, id: RuntimeId)
    requires forall i :: 0 <= i < |packets| ==> !MovesSight(packets[i])
    ensures LookAll(view, packets, id).Some? <==> view.Some?
    decreases |packets|
  {
    if packets != [] {
      LookKeepsSight(view, packets[0], id);
      LookAllKeepsSight(Look(view, packets[0], id), packets[1..], id);
    }
  }

  lemma WriteKeepsSight(logs: Logs, list: seq<Conn>, packet: Packet, a: Conn, id: RuntimeId)
    requires !MovesSight(packet) || !About(packet, id)
    ensures View(LogOf(WriteToClients(logs, list, [packet]), a), id).Some? <==> View(LogOf(logs, a), id).Some?
  {
    WriteToClientsView(logs, list, packet, a, id);
    LookKeepsSight(View(LogOf(logs, a), id), packet, id);
  }

  lemma BroadcastKeepsSight(s: Server, x: Conn, packet: Packet, id: RuntimeId)
    requires !MovesSight(packet)
    ensures SameSight(s, Broadcast(s, x, packet), id)
  {
    forall a
      ensures Sees(Broadcast(s, x, packet), a, id).Some? <==> Sees(s, a, id).Some?
    {
      WriteKeepsSight(s.logs, SpawnedPeers(s, x), packet, a, id);
    }
  }

  lemma TellKeepsSight(s: Server, x: Conn, packets: seq<Packet>, id: RuntimeId)
    requires forall i :: 0 <= i < |packets| ==> !MovesSight(packets[i])
    ensures SameSight(s, Tell(s, x, packets), id)
  {
    LookAllConcat(None, LogOf(s.logs, x), packets, id);
    LookAllKeepsSight(View(LogOf(s.logs, x), id), packets, id);
  }

  // ---------- handlers ----------

  lemma StartGameKeepsSight(s: Server, x: Conn, spawn: Vec, metadata: Metadata, id: RuntimeId)
    requires x in s.clients
    ensures SameSight(s, StartGame(s, x, spawn, metadata), id)
  {
    var entered := Enter(s, x, spawn, metadata);
    var existing, entry := Players(s, Some(x), false), PlayerListAdd([entered.clients[x].uuid]);
    var told := entered.(logs := WriteToClients(entered.logs, existing, [entry]));
    assert SameSight(s, told, id) by {
      forall a
        ensures Sees(told, a, id).Some? <==> Sees(s, a, id).Some?
      {
        WriteKeepsSight(s.logs, existing, entry, a, id);
      }
    }
    TellKeepsSight(told, x, OwnPackets(told, x), id);
  }

  lemma BroadcastIfKeepsSight(condition: bool, s: Server, x: Conn, packet: Packet, id: RuntimeId)
    requires !MovesSight(packet)
    ensures SameSight(s, BroadcastIf(condition, s, x, packet), id)
  {
    BroadcastKeepsSight(s, x, packet, id);
  }

  lemma MoveKeepsSight(s: Server, x: Conn, pose: Pose, velocity: Vec, onGround: bool, input: Input, id: RuntimeId)
    requires x in s.clients
    ensures SameSight(s, Move(s, x, pose, velocity, onGround, input), id)
  {
    var before := s.clients[x];
    var moved := Moved(before, pose, velocity, onGround, input);
    var s0 := Update(s, x, moved);
    var s1 := BroadcastIf(UpdateMetadata(before.metadata, input).1, s0, x, ActorDataOf(moved));
    var s2 := BroadcastIf(before.pose != pose, s1, x, MovePlayerOf(moved));
    BroadcastIfKeepsSight(UpdateMetadata(before.metadata, input).1, s0, x, ActorDataOf(moved), id);
    BroadcastIfKeepsSight(before.pose != pose, s1, x, MovePlayerOf(moved), id);
    BroadcastIfKeepsSight(before.velocity != velocity, s2, x, ActorMotionOf(moved), id);
  }

  lemma RequestsKeepSight(s: Server, x: Conn, requests: seq<Request>, id: RuntimeId)
    requires x in s.clients
    ensures SameSight(s, ProcessRequests(s, x, requests), id) && x in ProcessRequests(s, x, requests).clients
  {
    var client := s.clients[x].(inventory := AfterBatch(s.creative, s.clients[x].inventory, requests));
    BroadcastKeepsSight(Update(s, x, client), x, EquipmentOf(client), id);
    var after := ApplyRequests(s, x, requests);
    TellKeepsSight(after, x, [OtherPacket, OtherPacket, EquipmentOf(after.clients[x])], id);
  }

  lemma InputKeepsSight(s: Server, x: Conn, request: Option<Request>, pose: Pose, velocity: Vec, onGround: bool,
                        input: Input, id: RuntimeId)
    requires x in s.clients
    ensures SameSight(s, AuthInput(s, x, request, pose, velocity, onGround, input), id)
  {
    if !s.clients[x].phase.Spawned? {
      TellKeepsSight(s, x, [MovePlayerOf(s.clients[x])], id);
    } else if request.Some? {
      RequestsKeepSight(s, x, [request.value], id);
      MoveKeepsSight(ProcessRequests(s, x, [request.value]), x, pose, velocity, onGround, input, id);
    } else {
      MoveKeepsSight(s, x, pose, velocity, onGround, input, id);
    }
  }

  lemma SelectKeepsSight(s: Server, x: Conn, slot: Byte, hotbarSlot: Byte, id: RuntimeId)
    requires x in s.clients
    ensures SameSight(s, SelectSlot(s, x, slot, hotbarSlot), id)
  {
    var client := s.clients[x];
    var after := client.(inventory := AfterSelect(client.inventory, slot, hotbarSlot));
    TellKeepsSight(s, x, [EquipmentOf(client)], id);
    BroadcastKeepsSight(Update(s, x, after), x, EquipmentOf(after), id);
  }

  lemma LegacyMoveKeepsSight(s: Server, x: Conn, pose: Pose, onGround: bool, id: RuntimeId)
    requires x in s.clients
    ensures SameSight(s, LegacyMove(s, x, pose, onGround), id)
  {
    TellKeepsSight(s, x, [MovePlayerOf(s.clients[x])], id);
    var moved := MovedTo(s.clients[x], pose, onGround);
    BroadcastKeepsSight(Update(s, x, moved), x, MovePlayerOf(moved), id);
  }

  lemma LeaveVehicleKeepsSight(s: Server, x: Conn, position: Option<Vec>, id: RuntimeId)
    requires x in s.clients
    ensures SameSight(s, LeaveVehicle(s, x, position), id)
  {
    var moved := LeaveVehicle(s, x, position).clients[x];
    BroadcastKeepsSight(Update(s, x, moved), x, MovePlayerOf(moved), id);
  }

  /** Apart from becoming spawned, nothing that a client does brings anybody into sight. */
  lemma HandleKeepsSight(s: Server, x: Conn, packet: Incoming, id: RuntimeId)
    requires x in s.clients && !packet.SetLocalPlayerAsInitialised?
    ensures SameSight(s, Handle(s, x, packet), id)
  {
    match packet
    case ResourcePacksCompleted(spawn, metadata) => StartGameKeepsSight(s, x, spawn, metadata, id);
    case RequestChunkRadius => TellKeepsSight(s, x, [OtherPacket, EquipmentOf(s.clients[x])], id);
    case MobEquipmentRequest(_, slot, hotbarSlot) => SelectKeepsSight(s, x, slot, hotbarSlot, id);
    case ItemStackRequests(requests) => RequestsKeepSight(s, x, requests, id);
    case PlayerAuthInput(request, pose, velocity, onGround, input) =>
      InputKeepsSight(s, x, request, pose, velocity, onGround, input, id);
    case MovePlayerRequest(_, pose, onGround) => LegacyMoveKeepsSight(s, x, pose, onGround, id);
    case InteractLeaveVehicle(position) => LeaveVehicleKeepsSight(s, x, position, id);
    case _ =>
  }

  // ---------- becoming spawned under ID 0 ----------

  lemma {:induction false} ShowPlayersWithoutId(s: Server, logs: Logs, to: Conn, list: seq<Conn>, a: Conn,
                                                id: RuntimeId)
    requires forall c :: c in list && c in s.clients ==> s.clients[c].runtimeID != id
    ensures View(LogOf(ShowPlayers(s, logs, to, list), a), id) == View(LogOf(logs, a), id)
    decreases |list|
  {
    if list != [] {
      var next := logs;
      if list[0] in s.clients {
        var client := s.clients[list[0]];
        SpawnPacketsAbout(client, id);
        TellView(LogOf(logs, to), SpawnPackets(client), id);
        next := WriteOne(logs, to, SpawnPackets(client));
      }
      ShowPlayersWithoutId(s, next, to, list[1..], a, id);
    }
  }

  /** Table clients have started the game, so a client that becomes spawned is shown nobody under ID 0. */
  lemma PeersHaveIds(s: Server, x: Conn, c: Conn)
    requires c in SpawnedPeers(s, x) && c in s.clients
    ensures s.clients[c].runtimeID != 0
  {
    InPlayersUpTo(s, Some(x), true, s.nextID, c);
  }

  lemma InitialiseShowsZeroIff(s: Server, x: Conn, a: Conn)
    requires Sane(s) && x in s.clients
    ensures var shown := s.clients[x].runtimeID == 0 && a != x && Active(s, a);
            Sees(Initialise(s, x), a, 0) == if shown then Some(AvatarOf(s.clients[x])) else Sees(s, a, 0)
  {
    var me := s.clients[x].(phase := Spawned);
    var spawned := Update(s, x, me);
    var peers := SpawnedPeers(spawned, x);
    var logs := ShowPlayers(spawned, spawned.logs, x, peers);
    assert View(LogOf(logs, a), 0) == Sees(s, a, 0) by {
      forall c | c in peers && c in spawned.clients
        ensures spawned.clients[c].runtimeID != 0
      {
        PeersHaveIds(spawned, x, c);
      }
      ShowPlayersWithoutId(spawned, spawned.logs, x, peers, a, 0);
    }
    if me.runtimeID != 0 {
      SpawnPacketsAbout(me, 0);
      WriteSeveralView(logs, peers, SpawnPackets(me), a, 0);
    } else {
      assert GoodClient(s.clients[x], s.nextID);
      UpdateStaysSane(s, x, me);
      InSpawnedPeers(spawned, x, a);
      ActiveAfterUpdate(s, x, me, a);
      WriteSpawnView(logs, peers, me, a);
    }
  }

  /** The step makes somebody who has not started the game spawned while `a` is in the game. */
  predicate ShowsZero(s: Server, event: SessionEvent, a: Conn) {
    && event.Receive? && event.packet == SetLocalPlayerAsInitialised(0)
    && event.c != a && event.c in s.clients
    && s.clients[event.c].runtimeID == 0 && !s.clients[event.c].phase.Disconnected?
    && Active(s, a)
  }

  lemma RemoveKeepsZero(s: Server, x: Conn)
    requires x in s.clients
    ensures SameSight(s, RemovePlayer(s, x), 0)
  {
    var client := s.clients[x];
    if RemovePlayer(s, x) != s {
      var removed := s.(table := s.table - {client.runtimeID});
      var others := Players(removed, None, true);
      var logs := WriteToClients(s.logs, others, [PlayerListRemove(client.uuid)]);
      forall a
        ensures Sees(RemovePlayer(s, x), a, 0).Some? <==> Sees(s, a, 0).Some?
      {
        WriteKeepsSight(s.logs, others, PlayerListRemove(client.uuid), a, 0);
        WriteKeepsSight(logs, others, RemoveActor(client.runtimeID), a, 0);
      }
    }
  }

  /** A step brings ID 0 into sight exactly in that case, and no step takes it away. */
  lemma StepShowsZeroIff(s: Server, event: SessionEvent, a: Conn)
    requires Sane(s)
    ensures Sees(Step(s, event), a, 0).Some? <==> Sees(s, a, 0).Some? || ShowsZero(s, event, a)
  {
    var x := event.c;
    if x in s.clients {
      match event
      case Connect(_) =>
      case Receive(_, packet) =>
        if !packet.SetLocalPlayerAsInitialised? {
          HandleKeepsSight(s, x, packet, 0);
        } else {
          InitialiseShowsZeroIff(s, x, a);
        }
      case Disconnect(_) => RemoveKeepsZero(s, x);
    }
  }

  /** Everybody who was shown to `a` under ID 0 in a run. */
  ghost function ShownUnderZero(s: Server, events: seq<SessionEvent>, a: Conn): set<Conn>
    decreases |events|
  {
    if events == [] then {}
    else
      (if ShowsZero(s, events[0], a) then {events[0].c} else {})
      + ShownUnderZero(Step(s, events[0]), events[1..], a)
  }

  /** In every run a client sees ID 0 at the end if it did at the start, or was shown somebody under it. */
  lemma {:induction false} SeesZeroIff(s: Server, events: seq<SessionEvent>, a: Conn)
    requires Consistent(s)
    ensures Sees(Run(s, events), a, 0).Some? <==> Sees(s, a, 0).Some? || ShownUnderZero(s, events, a) != {}
    decreases |events|
  {
    if events != [] {
      StepKeeps(s, events[0]);
      StepShowsZeroIff(s, events[0], a);
      SeesZeroIff(Step(s, events[0]), events[1..], a);
    }
  }
}
