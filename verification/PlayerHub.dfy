/**
 The handler object shared by all clients, with its player table and its clients' states, updated
 in place while a packet is handled. Every handler is proved to be the step of the same name on
 values, so it keeps the replica invariant.
 */
module PlayerHub {
  import opened Numbers
  import opened Wrappers
  import opened ItemStacks
  import opened Replicas
  import opened Replication
  import opened ReplicationInvariant
  import PlayerInventory

  class PlayerHub {
    const creative: bool
    var clients: map<Conn, Client>
    var players: map<RuntimeId, Conn>
    var nextID: nat
    var logs: Logs

    ghost function Model(): Server
      reads this
    {
      Server(creative, clients, players, nextID, logs)
    }

    ghost predicate Valid()
      reads this
    {
      Consistent(Model())
    }

    constructor (creative: bool)
      ensures Valid() && Model() == InitialServer(creative)
    {
      this.creative := creative;
      clients, players, nextID, logs := map[], map[], 0, map[];
    }

    /** The entries of the listed client that has the runtime ID. */
    method ListEntries(except: Option<Conn>, spawnedOnly: bool, id: RuntimeId) returns (list: seq<Conn>)
      ensures list == EntriesOf(Model(), except, spawnedOnly, id, nextID)
    {
      list := [];
      for k := 1 to nextID + 1
        invariant list == EntriesOf(Model(), except, spawnedOnly, id, k - 1)
      {
        if k in players && players[k] in clients && except != Some(players[k]) {
          var other := clients[players[k]];
          if other.runtimeID == id && (!spawnedOnly || other.phase.Spawned?) {
            list := list + [players[k]];
          }
        }
      }
    }

    /** The players sorted by runtime ID, without one of them and optionally only the spawned ones. */
    method ListPlayers(except: Option<Conn>, spawnedOnly: bool) returns (list: seq<Conn>)
      ensures list == Players(Model(), except, spawnedOnly)
    {
      list := [];
      for id := 1 to nextID + 1
        invariant list == PlayersUpTo(Model(), except, spawnedOnly, id - 1)
      {
        var entries := ListEntries(except, spawnedOnly, id);
        list := list + entries;
      }
    }

    /** A new client, before its first packet. */
    method Connect(c: Conn)
      requires Valid() && c !in clients
      modifies this`clients
      ensures Valid() && Model() == Step(old(Model()), SessionEvent.Connect(c))
    {
      ConnectKeeps(Model(), c);
      clients := clients[c := NewClient()];
    }

    method WritePackets(to: Conn, packets: seq<Packet>)
      modifies this`logs
      ensures logs == WriteOne(old(logs), to, packets)
    {
      logs := logs[to := LogOf(logs, to) + packets];
    }

    method WritePacketToClients(list: seq<Conn>, packets: seq<Packet>)
      modifies this`logs
      ensures logs == WriteToClients(old(logs), list, packets)
    {
      for i := 0 to |list|
        invariant WriteToClients(old(logs), list, packets) == WriteToClients(logs, list[i..], packets)
      {
        assert list[i..][1..] == list[i + 1..];
        WritePackets(list[i], packets);
      }
    }

    method BroadcastToSpawnedPeers(c: Conn, packet: Packet)
      modifies this`logs
      ensures Model() == Broadcast(old(Model()), c, packet)
    {
      var peers := ListPlayers(Some(c), true);
      WritePacketToClients(peers, [packet]);
    }

    method SpawnToInitialisedPlayers(c: Conn)
      requires c in clients
      modifies this`logs
      ensures var s := old(Model());
              var peers := SpawnedPeers(s, c);
              Model() == s.(logs := WriteToClients(ShowPlayers(s, s.logs, c, peers), peers, SpawnPackets(s.clients[c])))
    {
      var peers := ListPlayers(Some(c), true);
      ghost var s := Model();
      for i := 0 to |peers|
        invariant ShowPlayers(s, s.logs, c, peers) == ShowPlayers(s, logs, c, peers[i..])
      {
        assert peers[i..][1..] == peers[i + 1..];
        if peers[i] in clients {
          WritePackets(c, SpawnPackets(clients[peers[i]]));
        }
      }
      WritePacketToClients(peers, SpawnPackets(clients[c]));
    }

    method HandleSetLocalPlayerAsInitialised(c: Conn, id: RuntimeId)
      requires c in clients
      modifies this
      ensures Model() == if id != old(clients)[c].runtimeID then old(Model()) else Initialise(old(Model()), c)
    {
      if id != clients[c].runtimeID {
        return;
      }
      clients := clients[c := clients[c].(phase := Spawned)];
      SpawnToInitialisedPlayers(c);
    }

    method ProcessItemStackRequests(c: Conn, requests: seq<Request>)
      requires c in clients
      modifies this
      ensures Model() == ProcessRequests(old(Model()), c, requests)
    {
      var inventory := new PlayerInventory.PlayerInventory.Holding(creative, clients[c].inventory);
      var responses, rejected, heldChanged := inventory.ProcessItemStackRequests(requests);
      var contents := inventory.Value();
      clients := clients[c := clients[c].(inventory := contents)];
      if heldChanged {
        BroadcastToSpawnedPeers(c, EquipmentOf(clients[c]));
      }
      if rejected {
        WritePackets(c, [OtherPacket, OtherPacket, EquipmentOf(clients[c])]);
      }
    }

    method HandleMobEquipment(c: Conn, slot: Byte, hotbarSlot: Byte)
      requires c in clients
      modifies this
      ensures Model() == SelectSlot(old(Model()), c, slot, hotbarSlot)
    {
      if hotbarSlot != slot || slot >= HOTBAR_SLOTS {
        WritePackets(c, [EquipmentOf(clients[c])]);
        return;
      }
      clients := clients[c := clients[c].(inventory := AfterSelect(clients[c].inventory, slot, hotbarSlot))];
      BroadcastToSpawnedPeers(c, EquipmentOf(clients[c]));
    }

    method HandlePlayerAuthInput(c: Conn, request: Option<Request>, pose: Pose, velocity: Vec, onGround: bool,
                                 input: Input)
      requires c in clients
      modifies this
      ensures Model() == AuthInput(old(Model()), c, request, pose, velocity, onGround, input)
    {
      if !clients[c].phase.Spawned? {
        WritePackets(c, [MovePlayerOf(clients[c])]);
        return;
      }
      if request.Some? {
        ProcessItemStackRequests(c, [request.value]);
      }
      MoveAndBroadcast(c, pose, velocity, onGround, input);
    }

    method MoveAndBroadcast(c: Conn, pose: Pose, velocity: Vec, onGround: bool, input: Input)
      requires c in clients
      modifies this
      ensures Model() == Move(old(Model()), c, pose, velocity, onGround, input)
    {
      var before := clients[c];
      var update := UpdateMetadata(before.metadata, input);
      var moved := before.(pose := pose, velocity := velocity, onGround := onGround, metadata := update.0);
      clients := clients[c := moved];
      if update.1 {
        BroadcastToSpawnedPeers(c, ActorDataOf(moved));
      }
      if before.pose != pose {
        BroadcastToSpawnedPeers(c, MovePlayerOf(moved));
      }
      if before.velocity != velocity {
        BroadcastToSpawnedPeers(c, ActorMotionOf(moved));
      }
    }

    method HandleMovePlayer(c: Conn, pose: Pose, onGround: bool)
      requires c in clients
      modifies this
      ensures Model() == LegacyMove(old(Model()), c, pose, onGround)
    {
      if !clients[c].phase.Spawned? {
        WritePackets(c, [MovePlayerOf(clients[c])]);
        return;
      }
      var client := clients[c];
      clients := clients[c := client.(pose := pose, velocity := Minus(pose.position, client.pose.position),
                                      onGround := onGround)];
      BroadcastToSpawnedPeers(c, MovePlayerOf(clients[c]));
    }

    method HandleLeaveVehicle(c: Conn, position: Option<Vec>)
      requires c in clients
      modifies this
      ensures Model() == LeaveVehicle(old(Model()), c, position)
    {
      if position.Some? {
        clients := clients[c := clients[c].(pose := clients[c].pose.(position := position.value))];
      } else {
        clients := clients[c := clients[c]];
      }
      BroadcastToSpawnedPeers(c, MovePlayerOf(clients[c]));
    }

    method StartGame(c: Conn, spawn: Vec, metadata: Metadata)
      requires c in clients
      modifies this
      ensures Model() == Replication.StartGame(old(Model()), c, spawn, metadata)
    {
      var existing := ListPlayers(Some(c), false);
      nextID := nextID + 1;
      var client := clients[c].(runtimeID := nextID);
      if client.identity.None? {
        clients := clients[c := client];
        return;
      }
      client := client.(uuid := client.identity.value, pose := Pose(spawn, 0, 0, 0), velocity := ZERO_VEC,
                        onGround := false, metadata := metadata);
      players := players[nextID := c];
      clients := clients[c := client.(phase := AwaitChunkRadius)];
      assert Model() == Enter(old(Model()), c, spawn, metadata);
      WritePacketToClients(existing, [PlayerListAdd([client.uuid])]);
      var all := ListPlayers(None, false);
      var entries := Uuids(Server(creative, clients, players, nextID, logs), all);
      WritePackets(c, [PlayerListAdd(entries), ActorDataOf(client), ActorMotionOf(client)]);
    }

    method RemovePlayer(c: Conn)
      requires Valid() && c in clients
      modifies this
      ensures Valid() && Model() == Replication.RemovePlayer(old(Model()), c)
    {
      RemoveKeeps(Model(), c);
      var client := clients[c];
      if client.runtimeID == 0 {
        return;
      }
      if client.runtimeID !in players || players[client.runtimeID] != c {
        return;
      }
      players := players - {client.runtimeID};
      AnnounceRemoval(client);
      clients := clients[c := client.(phase := Disconnected)];
    }

    method AnnounceRemoval(client: Client)
      modifies this`logs
      ensures var others := Players(old(Model()), None, true);
              logs == WriteToClients(WriteToClients(old(logs), others, [PlayerListRemove(client.uuid)]),
                                     others, [RemoveActor(client.runtimeID)])
    {
      var others := ListPlayers(None, true);
      WritePacketToClients(others, [PlayerListRemove(client.uuid)]);
      WritePacketToClients(others, [RemoveActor(client.runtimeID)]);
    }

    method HandlePacket(c: Conn, packet: Incoming)
      requires Valid() && c in clients
      modifies this
      ensures Valid() && Model() == Handle(old(Model()), c, packet)
    {
      HandleKeeps(Model(), c, packet);
      Dispatch(c, packet);
    }

    method Dispatch(c: Conn, packet: Incoming)
      requires c in clients
      modifies this
      ensures Model() == Handle(old(Model()), c, packet)
    {
      var client := clients[c];
      if client.phase.Disconnected? {
        return;
      }
      match packet {
        case RequestNetworkSettings => clients := clients[c := client.(phase := AwaitLogin)];
        case Login(identity) => clients := clients[c := client.(identity := identity, phase := AwaitClientHandshake)];
        case ClientToServerHandshake => clients := clients[c := client.(phase := AwaitResourcePackResponse)];
        case ResourcePacksCompleted(spawn, metadata) =>
          if client.phase.AwaitResourcePackResponse? {
            StartGame(c, spawn, metadata);
          }
        case RequestChunkRadius =>
          WritePackets(c, [OtherPacket, EquipmentOf(client)]);
          clients := clients[c := client.(phase := AwaitInitialised)];
        case SetLocalPlayerAsInitialised(id) => HandleSetLocalPlayerAsInitialised(c, id);
        case MobEquipmentRequest(id, slot, hotbarSlot) =>
          if client.runtimeID != 0 && (id == 0 || id == client.runtimeID) {
            HandleMobEquipment(c, slot, hotbarSlot);
          }
        case ItemStackRequests(requests) =>
          if client.runtimeID != 0 {
            ProcessItemStackRequests(c, requests);
          }
        case PlayerAuthInput(request, pose, velocity, onGround, input) =>
          if client.runtimeID != 0 {
            HandlePlayerAuthInput(c, request, pose, velocity, onGround, input);
          }
        case MovePlayerRequest(id, pose, onGround) =>
          if client.runtimeID != 0 && (id == 0 || id == client.runtimeID) {
            HandleMovePlayer(c, pose, onGround);
          }
        case InteractLeaveVehicle(position) =>
          if client.runtimeID != 0 {
            HandleLeaveVehicle(c, position);
          }
        case Ignored =>
      }
    }
  }
}
