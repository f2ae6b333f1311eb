/**
 Many clients and the server between them, one handled packet per step: connecting, joining,
 moving, changing equipment and leaving, in any order. Writes succeed.
 */
module Replication {
  import opened Numbers
  import opened Wrappers
  import opened ItemStacks
  import opened Replicas

  type Conn = nat
  type Logs = map<Conn, seq<Packet>>

  datatype Phase =
    | AwaitNetworkSettings
    | AwaitLogin
    | AwaitClientHandshake
    | AwaitResourcePackResponse
    | AwaitChunkRadius
    | AwaitInitialised
    | Spawned
    | Disconnected

  datatype Client = Client(
    phase: Phase,
    identity: Option<Uuid>,
    runtimeID: RuntimeId,
    uuid: Uuid,
    pose: Pose,
    velocity: Vec,
    onGround: bool,
    metadata: Metadata,
    inventory: Inv)

  const ZERO_VEC := Vec(0, 0, 0)
  function NewClient(): Client {
    Client(AwaitNetworkSettings, None, 0, 0, Pose(ZERO_VEC, 0, 0, 0), ZERO_VEC, false, map[], EmptyInventory())
  }

  /** The clients by connection, the player table by runtime ID, and everything sent so far. */
  datatype Server = Server(
    creative: bool,
    clients: map<Conn, Client>,
    table: map<RuntimeId, Conn>,
    nextID: nat,
    logs: Logs)

  function InitialServer(creative: bool): Server {
    Server(creative, map[], map[], 0, map[])
  }

  // ---------- packets about a client ----------

  function AvatarOf(client: Client): Avatar {
    Avatar(client.pose, client.metadata, HeldItem(client.inventory))
  }

  function AddPlayerOf(client: Client): Packet {
    AddPlayer(client.runtimeID, client.uuid, client.pose, client.velocity, HeldItem(client.inventory), client.metadata)
  }

  function MovePlayerOf(client: Client): Packet {
    MovePlayer(client.runtimeID, client.pose, client.onGround)
  }

  function ActorDataOf(client: Client): Packet {
    SetActorData(client.runtimeID, client.metadata)
  }

  function ActorMotionOf(client: Client): Packet {
    SetActorMotion(client.runtimeID, client.velocity)
  }

  function EquipmentOf(client: Client): Packet {
    MobEquipment(client.runtimeID, HeldItem(client.inventory))
  }

  function SpawnPackets(client: Client): seq<Packet> {
    [AddPlayerOf(client), ActorDataOf(client), ActorMotionOf(client)]
  }

  // ---------- writing ----------

  function LogOf(logs: Logs, c: Conn): seq<Packet> {
    if c in logs then logs[c] else []
  }

  function WriteOne(logs: Logs, to: Conn, packets: seq<Packet>): Logs {
    logs[to := LogOf(logs, to) + packets]
  }

  /** Every listed client is sent the packets, once per entry. */
  function WriteToClients(logs: Logs, list: seq<Conn>, packets: seq<Packet>): Logs
    decreases |list|
  {
    if list == [] then logs else WriteToClients(WriteOne(logs, list[0], packets), list[1..], packets)
  }

  /** The client is sent the spawn packets of every listed client. */
  function ShowPlayers(s: Server, logs: Logs, to: Conn, list: seq<Conn>): Logs
    decreases |list|
  {
    if list == [] then logs
    else if list[0] !in s.clients then ShowPlayers(s, logs, to, list[1..])
    else ShowPlayers(s, WriteOne(logs, to, SpawnPackets(s.clients[list[0]])), to, list[1..])
  }

  predicate IsSpawned(s: Server, c: Conn) {
    c in s.clients && s.clients[c].phase.Spawned?
  }

  /** A client that a recipient list is to hold. */
  predicate IsListed(s: Server, except: Option<Conn>, spawnedOnly: bool, c: Conn) {
    c in s.clients && except != Some(c) && (spawnedOnly ==> s.clients[c].phase.Spawned?)
  }

  /** The listed client with runtime ID `id`, once for each of the first `k` table entries that are its own. */
  function EntriesOf(s: Server, except: Option<Conn>, spawnedOnly: bool, id: RuntimeId, k: nat): seq<Conn> {
    if k == 0 then []
    else
      EntriesOf(s, except, spawnedOnly, id, k - 1)
      + if k in s.table && IsListed(s, except, spawnedOnly, s.table[k]) && s.clients[s.table[k]].runtimeID == id
        then [s.table[k]] else []
  }

  /** The clients in the player table in the order of their runtime IDs, up to the ID `k`. */
  function PlayersUpTo(s: Server, except: Option<Conn>, spawnedOnly: bool, k: nat): seq<Conn> {
    if k == 0 then []
    else PlayersUpTo(s, except, spawnedOnly, k - 1) + EntriesOf(s, except, spawnedOnly, k, s.nextID)
  }

  function Players(s: Server, except: Option<Conn>, spawnedOnly: bool): seq<Conn> {
    PlayersUpTo(s, except, spawnedOnly, s.nextID)
  }

  function SpawnedPeers(s: Server, c: Conn): seq<Conn> {
    Players(s, Some(c), true)
  }

  function Broadcast(s: Server, c: Conn, packet: Packet): Server {
    s.(logs := WriteToClients(s.logs, SpawnedPeers(s, c), [packet]))
  }

  function Update(s: Server, c: Conn, client: Client): Server {
    s.(clients := s.clients[c := client])
  }

  function Tell(s: Server, c: Conn, packets: seq<Packet>): Server {
    s.(logs := WriteOne(s.logs, c, packets))
  }

  // ---------- handlers ----------

  /** The state once the game has started: a new ID, and with a valid identity a new player in the table. */
  function Enter(s: Server, c: Conn, spawn: Vec, metadata: Metadata): (after: Server)
    requires c in s.clients
    ensures c in after.clients && after.clients[c].runtimeID == after.nextID == s.nextID + 1 && after.logs == s.logs
  {
    var id := s.nextID + 1;
    var client := s.clients[c].(runtimeID := id);
    if client.identity.None? then Update(s.(nextID := id), c, client)
    else
      Update(s.(nextID := id, table := s.table[id := c]), c,
             client.(uuid := client.identity.value, pose := Pose(spawn, 0, 0, 0), velocity := ZERO_VEC,
                     onGround := false, metadata := metadata, phase := AwaitChunkRadius))
  }

  /** The whole player list, and the player's own metadata and motion. */
  function OwnPackets(s: Server, c: Conn): seq<Packet>
    requires c in s.clients
  {
    [PlayerListAdd(Uuids(s, Players(s, None, false))), ActorDataOf(s.clients[c]), ActorMotionOf(s.clients[c])]
  }

  /** The player's list entry goes to those who were there before, the whole list to the player. */
  function Announce(s: Server, c: Conn, existing: seq<Conn>): Server
    requires c in s.clients
  {
    var told := s.(logs := WriteToClients(s.logs, existing, [PlayerListAdd([s.clients[c].uuid])]));
    Tell(told, c, OwnPackets(told, c))
  }

  function StartGame(s: Server, c: Conn, spawn: Vec, metadata: Metadata): Server
    requires c in s.clients
  {
    if s.clients[c].identity.None? then Enter(s, c, spawn, metadata)
    else Announce(Enter(s, c, spawn, metadata), c, Players(s, Some(c), false))
  }

  function Uuids(s: Server, list: seq<Conn>): seq<Uuid> {
    if list == [] then []
    else (if list[0] in s.clients then [s.clients[list[0]].uuid] else []) + Uuids(s, list[1..])
  }

  function Initialise(s: Server, c: Conn): Server
    requires c in s.clients
  {
    var spawned := Update(s, c, s.clients[c].(phase := Spawned));
    var peers := SpawnedPeers(spawned, c);
    var logs := ShowPlayers(spawned, spawned.logs, c, peers);
    spawned.(logs := WriteToClients(logs, peers, SpawnPackets(spawned.clients[c])))
  }

  /** Applies the requests and tells the peers when the held item changed. */
  function ApplyRequests(s: Server, c: Conn, requests: seq<Request>): (after: Server)
    requires c in s.clients
    ensures c in after.clients
  {
    var client := s.clients[c];
    var after := Update(s, c, client.(inventory := AfterBatch(s.creative, client.inventory, requests)));
    if SameItem(HeldItem(client.inventory), HeldItem(after.clients[c].inventory)) then after
    else Broadcast(after, c, EquipmentOf(after.clients[c]))
  }

  /** A client whose request was refused is sent its inventory again, the held item last. */
  function ProcessRequests(s: Server, c: Conn, requests: seq<Request>): Server
    requires c in s.clients
  {
    var after := ApplyRequests(s, c, requests);
    if AllOk(Answers(s.creative, s.clients[c].inventory, requests)) then after
    else Tell(after, c, [OtherPacket, OtherPacket, EquipmentOf(after.clients[c])])
  }

  /** A held-slot packet for the inventory window. */
  function SelectSlot(s: Server, c: Conn, slot: Byte, hotbarSlot: Byte): Server
    requires c in s.clients
  {
    var client := s.clients[c];
    if hotbarSlot != slot || slot >= HOTBAR_SLOTS then Tell(s, c, [EquipmentOf(client)])
    else
      var after := Update(s, c, client.(inventory := AfterSelect(client.inventory, slot, hotbarSlot)));
      Broadcast(after, c, EquipmentOf(after.clients[c]))
  }

  function BroadcastIf(condition: bool, s: Server, c: Conn, packet: Packet): Server {
    if condition then Broadcast(s, c, packet) else s
  }

  function Moved(before: Client, pose: Pose, velocity: Vec, onGround: bool, input: Input): Client {
    before.(pose := pose, velocity := velocity, onGround := onGround,
            metadata := UpdateMetadata(before.metadata, input).0)
  }

  /** The movement part of an input: broadcasts what changed, and only that. */
  function Move(s: Server, c: Conn, pose: Pose, velocity: Vec, onGround: bool, input: Input): Server
    requires c in s.clients
  {
    var before := s.clients[c];
    var moved := Moved(before, pose, velocity, onGround, input);
    var s1 := BroadcastIf(UpdateMetadata(before.metadata, input).1, Update(s, c, moved), c, ActorDataOf(moved));
    var s2 := BroadcastIf(before.pose != pose, s1, c, MovePlayerOf(moved));
    BroadcastIf(before.velocity != velocity, s2, c, ActorMotionOf(moved))
  }

  function AuthInput(s: Server, c: Conn, request: Option<Request>, pose: Pose, velocity: Vec, onGround: bool,
                     input: Input): Server
    requires c in s.clients
  {
    if !s.clients[c].phase.Spawned? then Tell(s, c, [MovePlayerOf(s.clients[c])])
    else
      var after := if request.Some? then ProcessRequests(s, c, [request.value]) else s;
      Move(after, c, pose, velocity, onGround, input)
  }

  /** Legacy movement packets carry no velocity: it is the way that the player went. */
  function MovedTo(client: Client, pose: Pose, onGround: bool): Client {
    client.(pose := pose, velocity := Minus(pose.position, client.pose.position), onGround := onGround)
  }

  function LegacyMove(s: Server, c: Conn, pose: Pose, onGround: bool): Server
    requires c in s.clients
  {
    if !s.clients[c].phase.Spawned? then Tell(s, c, [MovePlayerOf(s.clients[c])])
    else
      var moved := MovedTo(s.clients[c], pose, onGround);
      Broadcast(Update(s, c, moved), c, MovePlayerOf(moved))
  }

  function LeaveVehicle(s: Server, c: Conn, position: Option<Vec>): Server
    requires c in s.clients
  {
    var client := s.clients[c];
    var moved := if position.Some? then client.(pose := client.pose.(position := position.value)) else client;
    Broadcast(Update(s, c, moved), c, MovePlayerOf(moved))
  }

  function RemovePlayer(s: Server, c: Conn): Server
    requires c in s.clients
  {
    var client := s.clients[c];
    if client.runtimeID == 0 || client.runtimeID !in s.table || s.table[client.runtimeID] != c then s
    else
      var removed := s.(table := s.table - {client.runtimeID});
      var others := Players(removed, None, true);
      var logs := WriteToClients(removed.logs, others, [PlayerListRemove(client.uuid)]);
      var logs' := WriteToClients(logs, others, [RemoveActor(client.runtimeID)]);
      Update(removed.(logs := logs'), c, client.(phase := Disconnected))
  }

  // ---------- steps ----------

  /** A packet that a client sends; angles are already normalised and malformed packets are `Ignored`. */
  datatype Incoming =
    | RequestNetworkSettings
    | Login(identity: Option<Uuid>)
    | ClientToServerHandshake
    | ResourcePacksCompleted(spawn: Vec, metadata: Metadata)
    | RequestChunkRadius
    | SetLocalPlayerAsInitialised(id: RuntimeId)
    | MobEquipmentRequest(id: RuntimeId, slot: Byte, hotbarSlot: Byte)
    | ItemStackRequests(requests: seq<Request>)
    | PlayerAuthInput(request: Option<Request>, pose: Pose, velocity: Vec, onGround: bool, input: Input)
    | MovePlayerRequest(id: RuntimeId, pose: Pose, onGround: bool)
    | InteractLeaveVehicle(position: Option<Vec>)
    | Ignored

  function Handle(s: Server, c: Conn, packet: Incoming): Server
    requires c in s.clients
  {
    var client := s.clients[c];
    if client.phase.Disconnected? then s
    else
      match packet
      case RequestNetworkSettings => Update(s, c, client.(phase := AwaitLogin))
      case Login(identity) => Update(s, c, client.(identity := identity, phase := AwaitClientHandshake))
      case ClientToServerHandshake => Update(s, c, client.(phase := AwaitResourcePackResponse))
      case ResourcePacksCompleted(spawn, metadata) =>
        if client.phase.AwaitResourcePackResponse? then StartGame(s, c, spawn, metadata) else s
      case RequestChunkRadius =>
        Update(Tell(s, c, [OtherPacket, EquipmentOf(client)]), c, client.(phase := AwaitInitialised))
      case SetLocalPlayerAsInitialised(id) => if id != client.runtimeID then s else Initialise(s, c)
      case MobEquipmentRequest(id, slot, hotbarSlot) =>
        if client.runtimeID == 0 || (id != 0 && id != client.runtimeID) then s else SelectSlot(s, c, slot, hotbarSlot)
      case ItemStackRequests(requests) => if client.runtimeID == 0 then s else ProcessRequests(s, c, requests)
      case PlayerAuthInput(request, pose, velocity, onGround, input) =>
        if client.runtimeID == 0 then s else AuthInput(s, c, request, pose, velocity, onGround, input)
      case MovePlayerRequest(id, pose, onGround) =>
        if client.runtimeID == 0 || (id != 0 && id != client.runtimeID) then s
        else LegacyMove(s, c, pose, onGround)
      case InteractLeaveVehicle(position) => if client.runtimeID == 0 then s else LeaveVehicle(s, c, position)
      case Ignored => s
  }

  datatype SessionEvent =
    | Connect(c: Conn)
    | Receive(c: Conn, packet: Incoming)
    | Disconnect(c: Conn)

  function Step(s: Server, event: SessionEvent): Server {
    match event
    case Connect(c) => if c in s.clients then s else Update(s, c, NewClient())
    case Receive(c, packet) => if c in s.clients then Handle(s, c, packet) else s
    case Disconnect(c) => if c in s.clients then RemovePlayer(s, c) else s
  }

  function Run(s: Server, events: seq<SessionEvent>): Server
    decreases |events|
  {
    if events == [] then s else Run(Step(s, events[0]), events[1..])
  }
}
