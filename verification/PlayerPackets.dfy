/**
 What each packet of a client makes of its player, and what exactly the others are sent about it:
 positions, angles, velocity, metadata, held items, player lists and departures.
 */
module PlayerPackets {
  import opened Numbers
  import opened Wrappers
  import opened ItemStacks
  import opened ItemStackIdentity
  import opened ItemActions
  import opened Replicas
  import opened Replication
  import opened ReplicationInvariant

  // ---------- what was added to a log ----------

  /** The log has only grown, and exactly these packets were added, each at least once. */
  ghost predicate Added(before: seq<Packet>, after: seq<Packet>, packets: set<Packet>) {
    && before <= after
    && forall p :: p in after[|before|..] <==> p in packets
  }

  ghost predicate Adds(s: Server, s': Server, a: Conn, packets: set<Packet>) {
    Added(LogOf(s.logs, a), LogOf(s'.logs, a), packets)
  }

  lemma AddedTwice(x: seq<Packet>, y: seq<Packet>, z: seq<Packet>, p: set<Packet>, q: set<Packet>)
    requires Added(x, y, p) && Added(y, z, q)
    ensures Added(x, z, p + q)
  {
    assert z[|x|..] == y[|x|..] + z[|y|..];
  }

  lemma AddedAtOnce(log: seq<Packet>, packets: seq<Packet>, p: set<Packet>)
    requires forall x :: x in packets <==> x in p
    ensures Added(log, log + packets, p)
  {
    assert (log + packets)[|log|..] == packets;
  }

  lemma AddedNothing(log: seq<Packet>)
    ensures Added(log, log, {})
  {
  }

  lemma {:induction false} WriteAdds(logs: Logs, list: seq<Conn>, packets: seq<Packet>, a: Conn, p: set<Packet>)
    requires forall x :: x in packets <==> x in p
    ensures Added(LogOf(logs, a), LogOf(WriteToClients(logs, list, packets), a), if a in list then p else {})
    decreases |list|
  {
    if list != [] {
      var next := WriteOne(logs, list[0], packets);
      WriteAdds(next, list[1..], packets, a, p);
      var later := if a in list[1..] then p else {};
      if list[0] == a {
        AddedAtOnce(LogOf(logs, a), packets, p);
        AddedTwice(LogOf(logs, a), LogOf(next, a), LogOf(WriteToClients(logs, list, packets), a), p, later);
        assert p + later == p;
      }
    }
  }

  /** A broadcast goes to the other spawned players of the table, and to nobody else. */
  lemma BroadcastAdds(s: Server, c: Conn, packet: Packet, a: Conn)
    requires Sane(s)
    ensures Adds(s, Broadcast(s, c, packet), a, if a != c && Active(s, a) then {packet} else {})
  {
    InSpawnedPeers(s, c, a);
    WriteAdds(s.logs, SpawnedPeers(s, c), [packet], a, {packet});
  }

  function Only(condition: bool, packet: Packet): set<Packet> {
    if condition then {packet} else {}
  }

  lemma BroadcastIfAdds(condition: bool, s: Server, c: Conn, packet: Packet, a: Conn)
    requires Sane(s) && a != c
    ensures Adds(s, BroadcastIf(condition, s, c, packet), a, Only(condition && Active(s, a), packet))
  {
    if condition {
      BroadcastAdds(s, c, packet, a);
    }
  }

  /** Nothing but one client and the logs is different. */
  ghost predicate OnlyClient(s: Server, s': Server, c: Conn) {
    && s'.table == s.table && s'.nextID == s.nextID && s'.creative == s.creative
    && s'.clients.Keys == s.clients.Keys
    && forall x :: x in s.clients && x != c ==> s'.clients[x] == s.clients[x]
  }

  /** A client that has started the game, and whose packets are looked at. */
  predicate IsActing(s: Server, c: Conn) {
    c in s.clients && !s.clients[c].phase.Disconnected? && s.clients[c].runtimeID != 0
  }

  lemma OnlyClientTwice(s: Server, s': Server, s'': Server, c: Conn)
    requires OnlyClient(s, s', c) && OnlyClient(s', s'', c)
    ensures OnlyClient(s, s'', c)
  {
  }

  /** After every packet of a player, each other player in the game sees it as the server now has it. */
  lemma PlayerIsSeen(s: Server, c: Conn, packet: Incoming, a: Conn)
    requires Consistent(s) && c in s.clients && a != c
    requires Active(Handle(s, c, packet), a) && Active(Handle(s, c, packet), c)
    ensures var after := Handle(s, c, packet);
            var client := after.clients[c];
            Sees(after, a, client.runtimeID) == Some(Avatar(client.pose, client.metadata, HeldItem(client.inventory)))
  {
    HandleKeeps(s, c, packet);
    assert Agrees(Handle(s, c, packet), a, c);
  }

  lemma StaysActive(s: Server, s': Server, c: Conn, a: Conn)
    requires OnlyClient(s, s', c) && c in s.clients && s'.clients[c].phase == s.clients[c].phase
    ensures Active(s', a) <==> Active(s, a)
  {
  }

  // ---------- movement ----------

  lemma RequestsState(s: Server, c: Conn, requests: seq<Request>)
    requires c in s.clients
    ensures var inventory := AfterBatch(s.creative, s.clients[c].inventory, requests);
            var after := ProcessRequests(s, c, requests);
            OnlyClient(s, after, c) && after.clients[c] == s.clients[c].(inventory := inventory)
  {
  }

  lemma MoveState(s: Server, c: Conn, pose: Pose, velocity: Vec, onGround: bool, input: Input)
    requires c in s.clients
    ensures var after := Move(s, c, pose, velocity, onGround, input);
            OnlyClient(s, after, c) && after.clients[c] == Moved(s.clients[c], pose, velocity, onGround, input)
  {
  }

  lemma InputState(s: Server, c: Conn, request: Option<Request>, pose: Pose, velocity: Vec, onGround: bool,
                   input: Input)
    requires c in s.clients && s.clients[c].phase.Spawned?
    ensures var after := AuthInput(s, c, request, pose, velocity, onGround, input);
            var inventory := if request.Some? then AfterBatch(s.creative, s.clients[c].inventory, [request.value])
                             else s.clients[c].inventory;
            && OnlyClient(s, after, c)
            && after.clients[c] == Moved(s.clients[c].(inventory := inventory), pose, velocity, onGround, input)
  {
    if request.Some? {
      var requested := ProcessRequests(s, c, [request.value]);
      RequestsState(s, c, [request.value]);
      MoveState(requested, c, pose, velocity, onGround, input);
      OnlyClientTwice(s, requested, Move(requested, c, pose, velocity, onGround, input), c);
    } else {
      MoveState(s, c, pose, velocity, onGround, input);
    }
  }

  /** An input packet of a spawned player: the player is where the packet says, and has the flags it says. */
  lemma InputMoves(s: Server, c: Conn, request: Option<Request>, pose: Pose, velocity: Vec, onGround: bool,
                   input: Input, flag: Flag)
    requires IsActing(s, c) && s.clients[c].phase.Spawned?
    ensures var before := s.clients[c];
            var after := Handle(s, c, PlayerAuthInput(request, pose, velocity, onGround, input));
            && OnlyClient(s, after, c)
            && var client := after.clients[c];
               && client.pose == pose && client.velocity == velocity && client.onGround == onGround
               && client == before.(pose := pose, velocity := velocity, onGround := onGround,
                                    metadata := client.metadata, inventory := client.inventory)
               && client.inventory == (if request.Some? then AfterBatch(s.creative, before.inventory, [request.value])
                                       else before.inventory)
               && SameButFlags(before.metadata, client.metadata)
               && HasFlag(client.metadata, flag)
                  == Toggled(input.toggles, flag,
                             if flag == input.sneakingFlag then input.sneaking else HasFlag(before.metadata, flag))
  {
    InputState(s, c, request, pose, velocity, onGround, input);
    UpdateIs(s.clients[c].metadata, input, flag);
  }

  /** Every other player in the game then sees it there, with the flags and the held item it has. */
  lemma InputIsSeen(s: Server, c: Conn, request: Option<Request>, pose: Pose, velocity: Vec, onGround: bool,
                    input: Input, a: Conn)
    requires Consistent(s) && IsActing(s, c) && a != c && Active(s, a) && Active(s, c)
    ensures var after := Handle(s, c, PlayerAuthInput(request, pose, velocity, onGround, input));
            && c in after.clients
            && Sees(after, a, s.clients[c].runtimeID)
               == Some(Avatar(pose, after.clients[c].metadata, HeldItem(after.clients[c].inventory)))
  {
    var packet := PlayerAuthInput(request, pose, velocity, onGround, input);
    InputMoves(s, c, request, pose, velocity, onGround, input, 0);
    StaysActive(s, Handle(s, c, packet), c, a);
    StaysActive(s, Handle(s, c, packet), c, c);
    PlayerIsSeen(s, c, packet, a);
  }

  /** What the others are told of a movement: pose and velocity if they changed, and metadata if those changed. */
  lemma InputTells(s: Server, c: Conn, pose: Pose, velocity: Vec, onGround: bool, input: Input, a: Conn)
    returns (toldMetadata: bool)
    requires Sane(s) && IsActing(s, c) && s.clients[c].phase.Spawned? && a != c
    ensures var before := s.clients[c];
            var after := Handle(s, c, PlayerAuthInput(None, pose, velocity, onGround, input));
            && c in after.clients
            && (after.clients[c].metadata != before.metadata ==> toldMetadata)
            && Adds(s, after, a,
                    Only(toldMetadata && Active(s, a), SetActorData(before.runtimeID, after.clients[c].metadata))
                    + Only(pose != before.pose && Active(s, a), MovePlayer(before.runtimeID, pose, onGround))
                    + Only(velocity != before.velocity && Active(s, a), SetActorMotion(before.runtimeID, velocity)))
  {
    var before := s.clients[c];
    var moved := Moved(before, pose, velocity, onGround, input);
    toldMetadata := UpdateMetadata(before.metadata, input).1;
    UpdateReportsChanges(before.metadata, input);
    MoveTells(s, c, moved, toldMetadata, pose != before.pose, velocity != before.velocity, a);
  }

  lemma MoveTells(s: Server, c: Conn, moved: Client, p: bool, q: bool, r: bool, a: Conn)
    requires Sane(s) && c in s.clients && a != c
    requires moved.runtimeID == s.clients[c].runtimeID && moved.inventory == s.clients[c].inventory
    requires moved.phase == s.clients[c].phase
    ensures var s1 := BroadcastIf(p, Update(s, c, moved), c, ActorDataOf(moved));
            var s2 := BroadcastIf(q, s1, c, MovePlayerOf(moved));
            var s3 := BroadcastIf(r, s2, c, ActorMotionOf(moved));
            Adds(s, s3, a,
                 Only(p && Active(s, a), ActorDataOf(moved)) + Only(q && Active(s, a), MovePlayerOf(moved))
                 + Only(r && Active(s, a), ActorMotionOf(moved)))
  {
    var s0 := Update(s, c, moved);
    assert GoodClient(s.clients[c], s.nextID);
    UpdateStaysSane(s, c, moved);
    ActiveAfterUpdate(s, c, moved, a);
    ThreeBroadcasts(s0, c, ActorDataOf(moved), MovePlayerOf(moved), ActorMotionOf(moved), p, q, r, a);
  }

  lemma BroadcastIfKeeps(condition: bool, s: Server, c: Conn, packet: Packet, a: Conn)
    requires Sane(s)
    ensures var after := BroadcastIf(condition, s, c, packet);
            Sane(after) && (Active(after, a) <==> Active(s, a))
  {
    SaneIgnoresLogs(s, BroadcastIf(condition, s, c, packet).logs);
  }

  lemma ThreeBroadcasts(s: Server, c: Conn, x: Packet, y: Packet, z: Packet, p: bool, q: bool, r: bool, a: Conn)
    requires Sane(s) && a != c
    ensures var s1 := BroadcastIf(p, s, c, x);
            var s2 := BroadcastIf(q, s1, c, y);
            var s3 := BroadcastIf(r, s2, c, z);
            Adds(s, s3, a, Only(p && Active(s, a), x) + Only(q && Active(s, a), y) + Only(r && Active(s, a), z))
  {
    var s1 := BroadcastIf(p, s, c, x);
    var s2 := BroadcastIf(q, s1, c, y);
    var s3 := BroadcastIf(r, s2, c, z);
    BroadcastIfAdds(p, s, c, x, a);
    BroadcastIfKeeps(p, s, c, x, a);
    BroadcastIfAdds(q, s1, c, y, a);
    BroadcastIfKeeps(q, s1, c, y, a);
    BroadcastIfAdds(r, s2, c, z, a);
    var first, second := Only(p && Active(s, a), x), Only(q && Active(s, a), y);
    AddedTwice(LogOf(s.logs, a), LogOf(s1.logs, a), LogOf(s2.logs, a), first, second);
    AddedTwice(LogOf(s.logs, a), LogOf(s2.logs, a), LogOf(s3.logs, a), first + second, Only(r && Active(s, a), z));
  }

  /** What a handler does that changes its own client and then broadcasts. */
  lemma ChangeTells(s: Server, c: Conn, client: Client, packet: Packet, a: Conn)
    requires Sane(s) && c in s.clients && a != c && Normal(client.inventory)
    requires client.runtimeID == s.clients[c].runtimeID && client.phase == s.clients[c].phase
    ensures var after := Broadcast(Update(s, c, client), c, packet);
            && OnlyClient(s, after, c) && after.clients[c] == client
            && Adds(s, after, a, Only(Active(s, a), packet))
  {
    UpdateStaysSane(s, c, client);
    ActiveAfterUpdate(s, c, client, a);
    BroadcastAdds(Update(s, c, client), c, packet, a);
  }

  /** A legacy movement packet: the new pose, and as velocity the way the player went; the others are told. */
  lemma LegacyMoves(s: Server, c: Conn, id: RuntimeId, pose: Pose, onGround: bool, a: Conn)
    requires Sane(s) && IsActing(s, c) && s.clients[c].phase.Spawned? && a != c
    requires id == 0 || id == s.clients[c].runtimeID
    ensures var before := s.clients[c];
            var went := Vec(pose.position.x - before.pose.position.x, pose.position.y - before.pose.position.y,
                            pose.position.z - before.pose.position.z);
            var after := Handle(s, c, MovePlayerRequest(id, pose, onGround));
            && OnlyClient(s, after, c)
            && after.clients[c] == before.(pose := pose, velocity := went, onGround := onGround)
            && Adds(s, after, a, Only(Active(s, a), MovePlayer(before.runtimeID, pose, onGround)))
  {
    var moved := MovedTo(s.clients[c], pose, onGround);
    assert GoodClient(s.clients[c], s.nextID);
    ChangeTells(s, c, moved, MovePlayerOf(moved), a);
  }

  lemma LegacyMoveIsSeen(s: Server, c: Conn, id: RuntimeId, pose: Pose, onGround: bool, a: Conn)
    requires Consistent(s) && IsActing(s, c) && a != c && Active(s, a) && Active(s, c)
    requires id == 0 || id == s.clients[c].runtimeID
    ensures Sees(Handle(s, c, MovePlayerRequest(id, pose, onGround)), a, s.clients[c].runtimeID)
         == Some(Avatar(pose, s.clients[c].metadata, HeldItem(s.clients[c].inventory)))
  {
    var packet := MovePlayerRequest(id, pose, onGround);
    LegacyMoves(s, c, id, pose, onGround, a);
    StaysActive(s, Handle(s, c, packet), c, a);
    StaysActive(s, Handle(s, c, packet), c, c);
    PlayerIsSeen(s, c, packet, a);
  }

  /** The new position, if there is one, and the old angles. */
  function AtPosition(pose: Pose, position: Option<Vec>): Pose {
    Pose(if position.Some? then position.value else pose.position, pose.pitch, pose.yaw, pose.headYaw)
  }

  /** Leaving a vehicle moves the player, and leaves its angles; the others are told. */
  lemma LeavesVehicle(s: Server, c: Conn, position: Option<Vec>, a: Conn)
    requires Sane(s) && IsActing(s, c) && a != c
    ensures var before := s.clients[c];
            var pose := AtPosition(before.pose, position);
            var after := Handle(s, c, InteractLeaveVehicle(position));
            && OnlyClient(s, after, c) && after.clients[c] == before.(pose := pose)
            && Adds(s, after, a, Only(Active(s, a), MovePlayer(before.runtimeID, pose, before.onGround)))
  {
    var moved := s.clients[c].(pose := AtPosition(s.clients[c].pose, position));
    assert GoodClient(s.clients[c], s.nextID);
    ChangeTells(s, c, moved, MovePlayerOf(moved), a);
    LeaveVehicleIs(s, c, position);
  }

  lemma LeaveVehicleIs(s: Server, c: Conn, position: Option<Vec>)
    requires IsActing(s, c)
    ensures var moved := s.clients[c].(pose := AtPosition(s.clients[c].pose, position));
            Handle(s, c, InteractLeaveVehicle(position)) == Broadcast(Update(s, c, moved), c, MovePlayerOf(moved))
  {
  }

  lemma LeavingVehicleIsSeen(s: Server, c: Conn, position: Option<Vec>, a: Conn)
    requires Consistent(s) && IsActing(s, c) && a != c && Active(s, a) && Active(s, c)
    ensures Sees(Handle(s, c, InteractLeaveVehicle(position)), a, s.clients[c].runtimeID)
         == Some(Avatar(AtPosition(s.clients[c].pose, position), s.clients[c].metadata,
                        HeldItem(s.clients[c].inventory)))
  {
    var packet := InteractLeaveVehicle(position);
    LeavesVehicle(s, c, position, a);
    StaysActive(s, Handle(s, c, packet), c, a);
    StaysActive(s, Handle(s, c, packet), c, c);
    PlayerIsSeen(s, c, packet, a);
  }

  /** A player that is not spawned does not move: it is told where it is. */
  lemma NotSpawnedIsReset(s: Server, c: Conn, packet: Incoming)
    requires IsActing(s, c) && !s.clients[c].phase.Spawned?
    requires packet.PlayerAuthInput? || (packet.MovePlayerRequest? && packet.id in {0, s.clients[c].runtimeID})
    ensures var client := s.clients[c];
            Handle(s, c, packet)
            == s.(logs := s.logs[c := LogOf(s.logs, c) + [MovePlayer(client.runtimeID, client.pose, client.onGround)]])
  {
  }

  // ---------- held items ----------

  /** Selecting a hotbar slot: its item is held, and all others in the game are told. */
  lemma SelectTells(s: Server, c: Conn, id: RuntimeId, slot: Byte, a: Conn)
    requires Sane(s) && IsActing(s, c) && a != c && (id == 0 || id == s.clients[c].runtimeID) && slot < 9
    ensures var before := s.clients[c];
            var after := Handle(s, c, MobEquipmentRequest(id, slot, slot));
            && OnlyClient(s, after, c)
            && after.clients[c] == before.(inventory := before.inventory.(selected := slot))
            && Adds(s, after, a, Only(Active(s, a), MobEquipment(before.runtimeID, before.inventory.cells[slot])))
  {
    SelectHolds(s.clients[c].inventory, slot, slot);
    var client := s.clients[c].(inventory := AfterSelect(s.clients[c].inventory, slot, slot));
    assert GoodClient(s.clients[c], s.nextID);
    ChangeTells(s, c, client, EquipmentOf(client), a);
  }

  lemma SelectIsSeen(s: Server, c: Conn, id: RuntimeId, slot: Byte, a: Conn)
    requires Consistent(s) && IsActing(s, c) && a != c && Active(s, a) && Active(s, c)
    requires (id == 0 || id == s.clients[c].runtimeID) && slot < 9
    ensures Sees(Handle(s, c, MobEquipmentRequest(id, slot, slot)), a, s.clients[c].runtimeID)
         == Some(Avatar(s.clients[c].pose, s.clients[c].metadata, s.clients[c].inventory.cells[slot]))
  {
    var packet := MobEquipmentRequest(id, slot, slot);
    SelectTells(s, c, id, slot, a);
    SelectHolds(s.clients[c].inventory, slot, slot);
    StaysActive(s, Handle(s, c, packet), c, a);
    StaysActive(s, Handle(s, c, packet), c, c);
    PlayerIsSeen(s, c, packet, a);
  }

  /** A slot that is none, or not the one it claims to be, changes nothing; the client is told what it holds. */
  lemma WrongSlotIsReset(s: Server, c: Conn, id: RuntimeId, slot: Byte, hotbarSlot: Byte)
    requires IsActing(s, c) && (id == 0 || id == s.clients[c].runtimeID) && (slot != hotbarSlot || slot >= 9)
    ensures var held := MobEquipment(s.clients[c].runtimeID, HeldItem(s.clients[c].inventory));
            Handle(s, c, MobEquipmentRequest(id, slot, hotbarSlot))
            == s.(logs := s.logs[c := LogOf(s.logs, c) + [held]])
  {
  }

  /** Item requests: the inventory after them, and equipment for the others exactly if the held item changed. */
  lemma RequestsTell(s: Server, c: Conn, requests: seq<Request>, a: Conn)
    requires Sane(s) && IsActing(s, c) && a != c
    ensures var before := s.clients[c];
            var inventory := AfterBatch(s.creative, before.inventory, requests);
            var told := Active(s, a) && HeldItem(inventory) != HeldItem(before.inventory);
            var after := Handle(s, c, ItemStackRequests(requests));
            && OnlyClient(s, after, c) && after.clients[c] == before.(inventory := inventory)
            && Adds(s, after, a, Only(told, MobEquipment(before.runtimeID, HeldItem(inventory))))
  {
    RequestsState(s, c, requests);
    ApplyingTells(s, c, requests, a);
  }

  lemma ApplyingTells(s: Server, c: Conn, requests: seq<Request>, a: Conn)
    requires Sane(s) && c in s.clients && a != c
    ensures var before := s.clients[c];
            var inventory := AfterBatch(s.creative, before.inventory, requests);
            var told := Active(s, a) && HeldItem(inventory) != HeldItem(before.inventory);
            Adds(s, ApplyRequests(s, c, requests), a, Only(told, MobEquipment(before.runtimeID, HeldItem(inventory))))
  {
    var before := s.clients[c];
    var client := before.(inventory := AfterBatch(s.creative, before.inventory, requests));
    assert GoodClient(before, s.nextID);
    BatchStaysNormal(s.creative, before.inventory, requests);
    if SameItem(HeldItem(before.inventory), HeldItem(client.inventory)) {
      SameHeldIsEqual(before.inventory, client.inventory);
      AddedNothing(LogOf(s.logs, a));
    } else {
      ChangeTells(s, c, client, EquipmentOf(client), a);
    }
  }

  lemma RequestsAreSeen(s: Server, c: Conn, requests: seq<Request>, a: Conn)
    requires Consistent(s) && IsActing(s, c) && a != c && Active(s, a) && Active(s, c)
    ensures Sees(Handle(s, c, ItemStackRequests(requests)), a, s.clients[c].runtimeID)
         == Some(Avatar(s.clients[c].pose, s.clients[c].metadata,
                        HeldItem(AfterBatch(s.creative, s.clients[c].inventory, requests))))
  {
    var packet := ItemStackRequests(requests);
    RequestsState(s, c, requests);
    StaysActive(s, Handle(s, c, packet), c, a);
    StaysActive(s, Handle(s, c, packet), c, c);
    PlayerIsSeen(s, c, packet, a);
  }

  // ---------- joining and leaving ----------

  /** The packets that show a player. */
  function SpawnSet(client: Client): set<Packet> {
    {AddPlayer(client.runtimeID, client.uuid, client.pose, client.velocity, HeldItem(client.inventory),
               client.metadata),
     SetActorData(client.runtimeID, client.metadata), SetActorMotion(client.runtimeID, client.velocity)}
  }

  /** Becoming spawned: all others in the game are sent exactly the packets that show the player. */
  lemma InitialiseTellsOthers(s: Server, c: Conn, a: Conn)
    requires Sane(s) && c in s.clients && !s.clients[c].phase.Disconnected? && a != c
    ensures var after := Handle(s, c, SetLocalPlayerAsInitialised(s.clients[c].runtimeID));
            && OnlyClient(s, after, c) && after.clients[c] == s.clients[c].(phase := Spawned)
            && Adds(s, after, a, if Active(s, a) then SpawnSet(s.clients[c]) else {})
  {
    var me := s.clients[c].(phase := Spawned);
    var spawned := Update(s, c, me);
    assert GoodClient(s.clients[c], s.nextID);
    UpdateStaysSane(s, c, me);
    ActiveAfterUpdate(s, c, me, a);
    InSpawnedPeers(spawned, c, a);
    var peers := SpawnedPeers(spawned, c);
    ShowPlayersToOne(spawned, s.logs, c, peers, a);
    WriteAdds(ShowPlayers(spawned, s.logs, c, peers), peers, SpawnPackets(me), a, SpawnSet(me));
  }

  lemma {:induction false} ShowPlayersToOne(s: Server, logs: Logs, to: Conn, list: seq<Conn>, a: Conn)
    requires a != to
    ensures LogOf(ShowPlayers(s, logs, to, list), a) == LogOf(logs, a)
    decreases |list|
  {
    if list != [] {
      var next := if list[0] in s.clients then WriteOne(logs, to, SpawnPackets(s.clients[list[0]])) else logs;
      ShowPlayersToOne(s, next, to, list[1..], a);
    }
  }

  /** The new player is sent the packets that show each of the others in the game. */
  lemma InitialiseTellsPlayer(s: Server, c: Conn, b: Conn)
    requires Sane(s) && c in s.clients && !s.clients[c].phase.Disconnected? && b != c && Active(s, b)
    ensures var after := Handle(s, c, SetLocalPlayerAsInitialised(s.clients[c].runtimeID));
            && LogOf(s.logs, c) <= LogOf(after.logs, c)
            && forall p :: p in SpawnSet(s.clients[b]) ==> p in LogOf(after.logs, c)[|LogOf(s.logs, c)|..]
  {
    var me := s.clients[c].(phase := Spawned);
    var spawned := Update(s, c, me);
    var peers := SpawnedPeers(spawned, c);
    PeersOfNewPlayer(s, c, b);
    ShowsEach(spawned, s.logs, c, peers, b);
    WriteToOthers(ShowPlayers(spawned, s.logs, c, peers), peers, SpawnPackets(me), c);
  }

  /** The peers of a client that becomes spawned are the others in the game. */
  lemma PeersOfNewPlayer(s: Server, c: Conn, b: Conn)
    requires Sane(s) && c in s.clients && b != c && Active(s, b)
    ensures var peers := SpawnedPeers(Update(s, c, s.clients[c].(phase := Spawned)), c); b in peers && c !in peers
  {
    var me := s.clients[c].(phase := Spawned);
    assert GoodClient(s.clients[c], s.nextID);
    UpdateStaysSane(s, c, me);
    ActiveAfterUpdate(s, c, me, b);
    InSpawnedPeers(Update(s, c, me), c, b);
    InSpawnedPeers(Update(s, c, me), c, c);
  }

  lemma {:induction false} ShowsEach(s: Server, logs: Logs, to: Conn, list: seq<Conn>, b: Conn)
    requires b in s.clients
    ensures var after := LogOf(ShowPlayers(s, logs, to, list), to);
            && LogOf(logs, to) <= after
            && (b in list ==> forall p :: p in SpawnSet(s.clients[b]) ==> p in after[|LogOf(logs, to)|..])
    decreases |list|
  {
    if list != [] {
      var log := LogOf(logs, to);
      if list[0] in s.clients {
        var packets := SpawnPackets(s.clients[list[0]]);
        ShowsEach(s, WriteOne(logs, to, packets), to, list[1..], b);
        var after := LogOf(ShowPlayers(s, logs, to, list), to);
        assert after[|log|..] == packets + after[|log + packets|..];
      } else {
        ShowsEach(s, logs, to, list[1..], b);
      }
    }
  }

  /** Starting the game: a new player at the spawn, registered under the next ID, that loads chunks next. */
  lemma StartsGame(s: Server, c: Conn, spawn: Vec, metadata: Metadata)
    requires c in s.clients && s.clients[c].phase.AwaitResourcePackResponse? && s.clients[c].identity.Some?
    ensures var before := s.clients[c];
            var after := Handle(s, c, ResourcePacksCompleted(spawn, metadata));
            && after.nextID == s.nextID + 1 && after.table == s.table[s.nextID + 1 := c]
            && after.clients
               == s.clients[c := before.(phase := AwaitChunkRadius, runtimeID := s.nextID + 1,
                                         uuid := before.identity.value, pose := Pose(spawn, 0, 0, 0),
                                         velocity := Vec(0, 0, 0), onGround := false, metadata := metadata)]
  {
    StartGameState(s, c, spawn, metadata);
  }

  /** Everybody in the table gets the new player's list entry. */
  lemma StartTellsOthers(s: Server, c: Conn, spawn: Vec, metadata: Metadata, a: Conn)
    requires Sane(s) && c in s.clients && s.clients[c].phase.AwaitResourcePackResponse? && s.clients[c].identity.Some?
    requires a != c
    ensures Adds(s, Handle(s, c, ResourcePacksCompleted(spawn, metadata)), a,
                 if InTable(s, a) then {PlayerListAdd([s.clients[c].identity.value])} else {})
  {
    var entry := PlayerListAdd([s.clients[c].identity.value]);
    InPlayers(s, Some(c), false, a);
    if InTable(s, a) {
      var k :| k in s.table && s.table[k] == a;
      assert GoodEntry(s, k);
    }
    WriteAdds(s.logs, Players(s, Some(c), false), [entry], a, {entry});
  }

  /** The new player gets the entries of exactly the clients in the table, itself included, and its own data. */
  lemma StartTellsPlayer(s: Server, c: Conn, spawn: Vec, metadata: Metadata) returns (entries: seq<Uuid>)
    requires Sane(s) && c in s.clients && s.clients[c].phase.AwaitResourcePackResponse? && s.clients[c].identity.Some?
    ensures var after := Handle(s, c, ResourcePacksCompleted(spawn, metadata));
            && LogOf(after.logs, c)
               == LogOf(s.logs, c) + [PlayerListAdd(entries), SetActorData(s.nextID + 1, metadata),
                                      SetActorMotion(s.nextID + 1, Vec(0, 0, 0))]
            && forall u :: u in entries <==>
                 exists x :: InTable(after, x) && x in after.clients && after.clients[x].uuid == u
  {
    var entered := Enter(s, c, spawn, metadata);
    var existing := Players(s, Some(c), false);
    var told := entered.(logs := WriteToClients(s.logs, existing, [PlayerListAdd([entered.clients[c].uuid])]));
    assert LogOf(told.logs, c) == LogOf(s.logs, c) by {
      InPlayers(s, Some(c), false, c);
      WriteToOthers(s.logs, existing, [PlayerListAdd([entered.clients[c].uuid])], c);
    }
    assert Sane(told) by {
      StartGameKeepsSane(s, c, spawn, metadata);
      StartGameState(s, c, spawn, metadata);
      SaneIgnoresLogs(StartGame(s, c, spawn, metadata), told.logs);
    }
    entries := Uuids(told, Players(told, None, false));
    forall u
      ensures u in entries <==> exists x :: InTable(told, x) && x in told.clients && told.clients[x].uuid == u
    {
      UuidsOfTable(told, u);
    }
  }

  lemma UuidsOfTable(s: Server, u: Uuid)
    requires Sane(s)
    ensures u in Uuids(s, Players(s, None, false))
            <==> exists x :: InTable(s, x) && x in s.clients && s.clients[x].uuid == u
  {
    UuidsAre(s, Players(s, None, false), u);
    forall x
      ensures x in Players(s, None, false) <==> InTable(s, x) && x in s.clients
    {
      InPlayers(s, None, false, x);
    }
  }

  lemma {:induction false} WriteToOthers(logs: Logs, list: seq<Conn>, packets: seq<Packet>, c: Conn)
    requires c !in list
    ensures LogOf(WriteToClients(logs, list, packets), c) == LogOf(logs, c)
    decreases |list|
  {
    if list != [] {
      WriteToOthers(WriteOne(logs, list[0], packets), list[1..], packets, c);
    }
  }

  lemma {:induction false} UuidsAre(s: Server, list: seq<Conn>, u: Uuid)
    ensures u in Uuids(s, list) <==> exists x :: x in list && x in s.clients && s.clients[x].uuid == u
    decreases |list|
  {
    if list != [] {
      UuidsAre(s, list[1..], u);
    }
  }

  /** A player that leaves is taken off the list and out of sight of all others in the game. */
  lemma DepartureTells(s: Server, c: Conn, a: Conn)
    requires Sane(s) && c in s.clients && a != c
    requires s.clients[c].runtimeID != 0 && s.clients[c].runtimeID in s.table && s.table[s.clients[c].runtimeID] == c
    ensures var client := s.clients[c];
            var after := Step(s, Disconnect(c));
            && after.table == s.table - {client.runtimeID} && after.nextID == s.nextID
            && after.clients == s.clients[c := client.(phase := Disconnected)]
            && Adds(s, after, a,
                    Only(Active(s, a), PlayerListRemove(client.uuid))
                    + Only(Active(s, a), RemoveActor(client.runtimeID)))
  {
    var client := s.clients[c];
    var removed := s.(table := s.table - {client.runtimeID});
    var others := Players(removed, None, true);
    assert a in others <==> Active(s, a) by {
      LeftInTable(s, c, a);
      InPlayers(removed, None, true, a);
    }
    TwoWrites(s.logs, others, PlayerListRemove(client.uuid), RemoveActor(client.runtimeID), a);
  }

  lemma LeftInTable(s: Server, c: Conn, a: Conn)
    requires Sane(s) && c in s.clients && a != c
    requires s.clients[c].runtimeID in s.table && s.table[s.clients[c].runtimeID] == c
    ensures var removed := s.(table := s.table - {s.clients[c].runtimeID});
            Sane(removed) && (InTable(removed, a) <==> InTable(s, a))
  {
    var removed := s.(table := s.table - {s.clients[c].runtimeID});
    forall k | k in removed.table
      ensures GoodEntry(removed, k)
    {
      assert GoodEntry(s, k);
    }
    if InTable(s, a) {
      var k :| k in s.table && s.table[k] == a;
      assert k in removed.table && removed.table[k] == a;
    }
  }

  lemma TwoWrites(logs: Logs, list: seq<Conn>, x: Packet, y: Packet, a: Conn)
    ensures Added(LogOf(logs, a), LogOf(WriteToClients(WriteToClients(logs, list, [x]), list, [y]), a),
                  Only(a in list, x) + Only(a in list, y))
  {
    var next := WriteToClients(logs, list, [x]);
    WriteAdds(logs, list, [x], a, {x});
    WriteAdds(next, list, [y], a, {y});
    AddedTwice(LogOf(logs, a), LogOf(next, a), LogOf(WriteToClients(next, list, [y]), a),
               Only(a in list, x), Only(a in list, y));
  }

  /** A chunk-radius request: the client is told what it holds, and loads until it says that it is done. */
  lemma RadiusLoads(s: Server, c: Conn)
    requires c in s.clients && !s.clients[c].phase.Disconnected?
    ensures var client := s.clients[c];
            var held := MobEquipment(client.runtimeID, HeldItem(client.inventory));
            Handle(s, c, RequestChunkRadius)
            == s.(clients := s.clients[c := client.(phase := AwaitInitialised)],
                  logs := s.logs[c := LogOf(s.logs, c) + [OtherPacket, held]])
  {
  }

  /** Packets that name another player's ID, or come from a client that has left, change nothing. */
  lemma ForeignPacketsAreIgnored(s: Server, c: Conn, packet: Incoming)
    requires c in s.clients
    requires || s.clients[c].phase.Disconnected?
             || (packet.SetLocalPlayerAsInitialised? && packet.id != s.clients[c].runtimeID)
             || (packet.MobEquipmentRequest? && packet.id !in {0, s.clients[c].runtimeID})
             || (packet.MovePlayerRequest? && packet.id !in {0, s.clients[c].runtimeID})
             || (packet.ResourcePacksCompleted? && !s.clients[c].phase.AwaitResourcePackResponse?)
             || (s.clients[c].runtimeID == 0
                 && (packet.MobEquipmentRequest? || packet.ItemStackRequests? || packet.PlayerAuthInput?
                     || packet.MovePlayerRequest? || packet.InteractLeaveVehicle?))
    ensures Handle(s, c, packet) == s
  {
  }

  /** The packets of the login change the client's state as the protocol says, and nothing else. */
  lemma LoginAdvances(s: Server, c: Conn, identity: Option<Uuid>)
    requires c in s.clients && !s.clients[c].phase.Disconnected?
    ensures Handle(s, c, RequestNetworkSettings) == s.(clients := s.clients[c := s.clients[c].(phase := AwaitLogin)])
    ensures Handle(s, c, Login(identity))
         == s.(clients := s.clients[c := s.clients[c].(identity := identity, phase := AwaitClientHandshake)])
    ensures Handle(s, c, ClientToServerHandshake)
         == s.(clients := s.clients[c := s.clients[c].(phase := AwaitResourcePackResponse)])
  {
  }

  /** A client that connects has no name, no ID and no items, and waits for the first packet of the login. */
  lemma ConnectsFresh(s: Server, c: Conn)
    requires c !in s.clients
    ensures var after := Step(s, Connect(c));
            && after == s.(clients := after.clients)
            && after.clients.Keys == s.clients.Keys + {c}
            && (forall x :: x in s.clients ==> after.clients[x] == s.clients[x])
            && var client := after.clients[c];
               && client.phase.AwaitNetworkSettings? && client.identity.None? && client.runtimeID == 0
               && HoldsNothing(client.inventory) && client.inventory.table == map[] && client.inventory.selected == 0
  {
  }
}
