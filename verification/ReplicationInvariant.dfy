/**
 The replica invariant: in every run, any two distinct players in the table that are both
 spawned agree, that is, what one was sent about the other adds up to the other's pose,
 metadata and held item on the server.
 */
module ReplicationInvariant {
  import opened Numbers
  import opened Wrappers
  import opened ItemStacks
  import opened ItemStackIdentity
  import opened Replicas
  import opened Replication

  // ---------- the invariant ----------

  predicate InTable(s: Server, c: Conn) {
    exists k :: k in s.table && s.table[k] == c
  }

  /** A player that others may be watching. */
  predicate Active(s: Server, c: Conn) {
    InTable(s, c) && IsSpawned(s, c)
  }

  ghost predicate GoodClient(client: Client, nextID: nat) {
    client.runtimeID <= nextID && Normal(client.inventory)
  }

  ghost predicate GoodEntry(s: Server, k: RuntimeId)
    requires k in s.table
  {
    1 <= k <= s.nextID && s.table[k] in s.clients && s.clients[s.table[k]].runtimeID != 0
  }

  /** Runtime IDs identify players, and inventories are normal. */
  ghost predicate Sane(s: Server) {
    && (forall k :: k in s.table ==> GoodEntry(s, k))
    && (forall c :: c in s.clients ==> GoodClient(s.clients[c], s.nextID))
    && (forall a, b :: a in s.clients && b in s.clients && a != b && s.clients[a].runtimeID == s.clients[b].runtimeID
          ==> s.clients[a].runtimeID == 0)
  }

  function Sees(s: Server, a: Conn, id: RuntimeId): Option<Avatar> {
    View(LogOf(s.logs, a), id)
  }

  /** `a` has the picture of `b`. */
  ghost predicate Agrees(s: Server, a: Conn, b: Conn) {
    a != b && Active(s, a) && Active(s, b) ==> Sees(s, a, s.clients[b].runtimeID) == Some(AvatarOf(s.clients[b]))
  }

  ghost predicate Consistent(s: Server) {
    Sane(s) && forall a, b :: Agrees(s, a, b)
  }

  /** In the middle of a handler of `c`: its watchers have `avatar`, everybody else agrees. */
  ghost predicate Halfway(s: Server, c: Conn, avatar: Avatar) {
    && Sane(s) && c in s.clients
    && (forall a, b :: b != c ==> Agrees(s, a, b))
    && (forall a :: a != c && Active(s, a) && Active(s, c) ==> Sees(s, a, s.clients[c].runtimeID) == Some(avatar))
  }

  lemma HalfwayDone(s: Server, c: Conn)
    requires c in s.clients && Halfway(s, c, AvatarOf(s.clients[c]))
    ensures Consistent(s)
  {
  }

  // ---------- who is written to ----------

  lemma {:induction false} InEntriesOf(s: Server, except: Option<Conn>, spawnedOnly: bool, id: RuntimeId, k: nat,
                                       a: Conn)
    ensures a in EntriesOf(s, except, spawnedOnly, id, k)
            <==> && IsListed(s, except, spawnedOnly, a) && s.clients[a].runtimeID == id
                 && exists j :: 1 <= j <= k && j in s.table && s.table[j] == a
  {
    if k > 0 {
      InEntriesOf(s, except, spawnedOnly, id, k - 1, a);
    }
  }

  lemma {:induction false} InPlayersUpTo(s: Server, except: Option<Conn>, spawnedOnly: bool, k: nat, a: Conn)
    ensures a in PlayersUpTo(s, except, spawnedOnly, k)
            <==> && IsListed(s, except, spawnedOnly, a) && 1 <= s.clients[a].runtimeID <= k
                 && exists j :: 1 <= j <= s.nextID && j in s.table && s.table[j] == a
  {
    if k > 0 {
      InPlayersUpTo(s, except, spawnedOnly, k - 1, a);
      InEntriesOf(s, except, spawnedOnly, k, s.nextID, a);
    }
  }

  /** A list holds exactly the clients of the table that it is meant for. */
  lemma InPlayers(s: Server, except: Option<Conn>, spawnedOnly: bool, a: Conn)
    requires Sane(s)
    ensures a in Players(s, except, spawnedOnly) <==> IsListed(s, except, spawnedOnly, a) && InTable(s, a)
  {
    InPlayersUpTo(s, except, spawnedOnly, s.nextID, a);
    if InTable(s, a) {
      var k :| k in s.table && s.table[k] == a;
      assert GoodEntry(s, k);
    }
  }

  /** The list is sorted by the runtime IDs that its clients have now, all of them in `lo..k`. */
  ghost predicate SortedById(s: Server, list: seq<Conn>, lo: nat, k: nat) {
    && (forall i :: 0 <= i < |list| ==> list[i] in s.clients && lo <= s.clients[list[i]].runtimeID <= k)
    && forall i, j :: 0 <= i < j < |list| ==> s.clients[list[i]].runtimeID <= s.clients[list[j]].runtimeID
  }

  lemma SortedConcat(s: Server, a: seq<Conn>, b: seq<Conn>, k: nat)
    requires k > 0 && SortedById(s, a, 0, k - 1) && SortedById(s, b, k, k)
    ensures SortedById(s, a + b, 0, k)
  {
  }

  lemma {:induction false} EntriesAreSorted(s: Server, except: Option<Conn>, spawnedOnly: bool, id: RuntimeId, k: nat)
    ensures SortedById(s, EntriesOf(s, except, spawnedOnly, id, k), id, id)
  {
    if k > 0 {
      EntriesAreSorted(s, except, spawnedOnly, id, k - 1);
    }
  }

  lemma {:induction false} PlayersAreSorted(s: Server, except: Option<Conn>, spawnedOnly: bool, k: nat)
    ensures SortedById(s, PlayersUpTo(s, except, spawnedOnly, k), 0, k)
  {
    if k > 0 {
      PlayersAreSorted(s, except, spawnedOnly, k - 1);
      EntriesAreSorted(s, except, spawnedOnly, k, s.nextID);
      SortedConcat(s, PlayersUpTo(s, except, spawnedOnly, k - 1), EntriesOf(s, except, spawnedOnly, k, s.nextID), k);
    }
  }

  lemma InSpawnedPeers(s: Server, c: Conn, a: Conn)
    requires Sane(s)
    ensures a in SpawnedPeers(s, c) <==> a != c && Active(s, a)
  {
    InPlayers(s, Some(c), true, a);
  }

  lemma {:induction false} WriteToClientsView(logs: Logs, list: seq<Conn>, packet: Packet, a: Conn, id: RuntimeId)
    ensures View(LogOf(WriteToClients(logs, list, [packet]), a), id)
            == if a in list then Look(View(LogOf(logs, a), id), packet, id) else View(LogOf(logs, a), id)
    decreases |list|
  {
    if list != [] {
      var first := WriteOne(logs, list[0], [packet]);
      WriteToClientsView(first, list[1..], packet, a, id);
      ViewAppend(LogOf(logs, list[0]), packet, id);
      LookTwice(View(LogOf(logs, a), id), packet, id);
    }
  }

  // ---------- broadcasts ----------

  lemma BroadcastView(s: Server, c: Conn, packet: Packet, a: Conn, id: RuntimeId)
    requires Sane(s)
    ensures Sees(Broadcast(s, c, packet), a, id)
            == if a != c && Active(s, a) then Look(Sees(s, a, id), packet, id) else Sees(s, a, id)
  {
    InSpawnedPeers(s, c, a);
    WriteToClientsView(s.logs, SpawnedPeers(s, c), packet, a, id);
  }

  /** A packet about `c` changes what its watchers see of `c`, and nothing else. */
  lemma BroadcastMoves(s: Server, c: Conn, packet: Packet, avatar: Avatar, avatar': Avatar)
    requires Halfway(s, c, avatar) && About(packet, s.clients[c].runtimeID)
    requires Look(Some(avatar), packet, s.clients[c].runtimeID) == Some(avatar')
    ensures Halfway(Broadcast(s, c, packet), c, avatar')
  {
    var after := Broadcast(s, c, packet);
    forall a, b | b != c
      ensures Agrees(after, a, b)
    {
      assert Agrees(s, a, b);
      if a != b && Active(s, a) && Active(s, b) {
        BroadcastView(s, c, packet, a, s.clients[b].runtimeID);
        NotAbout(s, c, packet, b);
      }
    }
    forall a | a != c && Active(after, a) && Active(after, c)
      ensures Sees(after, a, after.clients[c].runtimeID) == Some(avatar')
    {
      assert Active(s, a) && Active(s, c);
      BroadcastView(s, c, packet, a, s.clients[c].runtimeID);
    }
  }

  /** A packet about one client says nothing about another that is in the table. */
  lemma NotAbout(s: Server, c: Conn, packet: Packet, b: Conn)
    requires Sane(s) && c in s.clients && InTable(s, b) && b != c && About(packet, s.clients[c].runtimeID)
    ensures b in s.clients && !About(packet, s.clients[b].runtimeID)
  {
  }

  lemma UpdateStaysSane(s: Server, c: Conn, client: Client)
    requires Sane(s) && c in s.clients && Normal(client.inventory) && client.runtimeID == s.clients[c].runtimeID
    ensures Sane(Update(s, c, client))
  {
  }

  lemma ActiveAfterUpdate(s: Server, c: Conn, client: Client, a: Conn)
    requires c in s.clients
    ensures Active(Update(s, c, client), a)
            <==> InTable(s, a) && if a == c then client.phase.Spawned? else IsSpawned(s, a)
  {
  }

  /** A change of `c` alone leaves its watchers with the old picture. */
  lemma UpdateHalfway(s: Server, c: Conn, client: Client)
    requires Consistent(s) && c in s.clients && Normal(client.inventory)
    requires client.runtimeID == s.clients[c].runtimeID && client.phase == s.clients[c].phase
    ensures Halfway(Update(s, c, client), c, AvatarOf(s.clients[c]))
  {
    var after := Update(s, c, client);
    UpdateStaysSane(s, c, client);
    forall a, b | b != c
      ensures Agrees(after, a, b)
    {
      assert Agrees(s, a, b);
      ActiveAfterUpdate(s, c, client, a);
      ActiveAfterUpdate(s, c, client, b);
    }
    forall a | a != c && Active(after, a) && Active(after, c)
      ensures Sees(after, a, after.clients[c].runtimeID) == Some(AvatarOf(s.clients[c]))
    {
      assert Agrees(s, a, c);
      ActiveAfterUpdate(s, c, client, a);
      ActiveAfterUpdate(s, c, client, c);
    }
  }

  /** A client that is not spawned afterwards owes nobody a picture. */
  lemma LeaveSpawned(s: Server, c: Conn, client: Client)
    requires Consistent(s) && c in s.clients && Normal(client.inventory)
    requires client.runtimeID == s.clients[c].runtimeID && !client.phase.Spawned?
    ensures Consistent(Update(s, c, client))
  {
    var after := Update(s, c, client);
    UpdateStaysSane(s, c, client);
    forall a, b
      ensures Agrees(after, a, b)
    {
      assert Agrees(s, a, b);
      ActiveAfterUpdate(s, c, client, a);
      ActiveAfterUpdate(s, c, client, b);
    }
  }

  lemma {:induction false} TellView(log: seq<Packet>, packets: seq<Packet>, id: RuntimeId)
    requires forall i :: 0 <= i < |packets| ==> !About(packets[i], id)
    ensures View(log + packets, id) == View(log, id)
    decreases |packets|
  {
    if packets == [] {
      assert log + packets == log;
    } else {
      ViewAppend(log, packets[0], id);
      TellView(log + [packets[0]], packets[1..], id);
      assert log + packets == (log + [packets[0]]) + packets[1..];
    }
  }

  /** What a client is told about itself changes no picture of others. */
  lemma TellKeeps(s: Server, c: Conn, packets: seq<Packet>)
    requires Consistent(s) && c in s.clients
    requires forall i, id :: 0 <= i < |packets| && About(packets[i], id) ==> id == s.clients[c].runtimeID
    ensures Consistent(Tell(s, c, packets))
  {
    var after := Tell(s, c, packets);
    forall a, b
      ensures Agrees(after, a, b)
    {
      assert Agrees(s, a, b);
      if a == c && a != b && Active(s, a) && Active(s, b) {
        assert forall i :: 0 <= i < |packets| ==> !About(packets[i], s.clients[b].runtimeID);
        TellView(LogOf(s.logs, c), packets, s.clients[b].runtimeID);
      }
    }
  }

  // ---------- movement and equipment ----------

  lemma EquipmentKeeps(s: Server, c: Conn, client: Client)
    requires Consistent(s) && c in s.clients && Normal(client.inventory)
    requires client == s.clients[c].(inventory := client.inventory)
    ensures Consistent(Broadcast(Update(s, c, client), c, EquipmentOf(client)))
    ensures HeldItem(client.inventory) == HeldItem(s.clients[c].inventory) ==> Consistent(Update(s, c, client))
  {
    var after := Update(s, c, client);
    UpdateHalfway(s, c, client);
    BroadcastMoves(after, c, EquipmentOf(client), AvatarOf(s.clients[c]), AvatarOf(client));
    HalfwayDone(Broadcast(after, c, EquipmentOf(client)), c);
    if HeldItem(client.inventory) == HeldItem(s.clients[c].inventory) {
      assert AvatarOf(client) == AvatarOf(s.clients[c]);
      HalfwayDone(after, c);
    }
  }

  lemma RequestsKeep(s: Server, c: Conn, requests: seq<Request>)
    requires Consistent(s) && c in s.clients
    ensures Consistent(ProcessRequests(s, c, requests))
    ensures c in ProcessRequests(s, c, requests).clients
    ensures ProcessRequests(s, c, requests).clients[c].phase == s.clients[c].phase
  {
    ApplyingKeeps(s, c, requests);
    var after := ApplyRequests(s, c, requests);
    TellKeeps(after, c, [OtherPacket, OtherPacket, EquipmentOf(after.clients[c])]);
  }

  lemma ApplyingKeeps(s: Server, c: Conn, requests: seq<Request>)
    requires Consistent(s) && c in s.clients
    ensures Consistent(ApplyRequests(s, c, requests))
    ensures ApplyRequests(s, c, requests).clients[c].phase == s.clients[c].phase
  {
    var before := s.clients[c];
    var client := before.(inventory := AfterBatch(s.creative, before.inventory, requests));
    BatchStaysNormal(s.creative, before.inventory, requests);
    EquipmentKeeps(s, c, client);
    if SameItem(HeldItem(before.inventory), HeldItem(client.inventory)) {
      SameHeldIsEqual(before.inventory, client.inventory);
    }
  }

  /** Two empty held items are the same item, because inventories are normal. */
  lemma SameHeldIsEqual(a: Inv, b: Inv)
    requires Normal(a) && Normal(b) && SameItem(HeldItem(a), HeldItem(b))
    ensures HeldItem(a) == HeldItem(b)
  {
  }

  lemma SelectKeeps(s: Server, c: Conn, slot: Byte, hotbarSlot: Byte)
    requires Consistent(s) && c in s.clients
    ensures Consistent(SelectSlot(s, c, slot, hotbarSlot))
  {
    var before := s.clients[c];
    if hotbarSlot != slot || slot >= HOTBAR_SLOTS {
      TellKeeps(s, c, [EquipmentOf(before)]);
    } else {
      EquipmentKeeps(s, c, before.(inventory := AfterSelect(before.inventory, slot, hotbarSlot)));
    }
  }

  lemma BroadcastIfMoves(condition: bool, s: Server, c: Conn, packet: Packet, avatar: Avatar, avatar': Avatar)
    requires Halfway(s, c, avatar) && About(packet, s.clients[c].runtimeID)
    requires condition ==> Look(Some(avatar), packet, s.clients[c].runtimeID) == Some(avatar')
    requires !condition ==> avatar' == avatar
    ensures Halfway(BroadcastIf(condition, s, c, packet), c, avatar')
    ensures BroadcastIf(condition, s, c, packet).clients == s.clients
  {
    if condition {
      BroadcastMoves(s, c, packet, avatar, avatar');
    }
  }

  lemma MoveKeeps(s: Server, c: Conn, pose: Pose, velocity: Vec, onGround: bool, input: Input)
    requires Consistent(s) && c in s.clients
    ensures Consistent(Move(s, c, pose, velocity, onGround, input))
  {
    var before := s.clients[c];
    var moved := Moved(before, pose, velocity, onGround, input);
    var changed := UpdateMetadata(before.metadata, input).1;
    UpdateReportsChanges(before.metadata, input);
    var s0 := Update(s, c, moved);
    UpdateHalfway(s, c, moved);
    var avatar0 := AvatarOf(before);
    var avatar1 := avatar0.(metadata := moved.metadata);
    assert before.metadata + moved.metadata == moved.metadata;
    BroadcastIfMoves(changed, s0, c, ActorDataOf(moved), avatar0, avatar1);
    var s1 := BroadcastIf(changed, s0, c, ActorDataOf(moved));
    BroadcastIfMoves(before.pose != pose, s1, c, MovePlayerOf(moved), avatar1, AvatarOf(moved));
    var s2 := BroadcastIf(before.pose != pose, s1, c, MovePlayerOf(moved));
    BroadcastIfMoves(before.velocity != velocity, s2, c, ActorMotionOf(moved), AvatarOf(moved), AvatarOf(moved));
    HalfwayDone(BroadcastIf(before.velocity != velocity, s2, c, ActorMotionOf(moved)), c);
  }

  lemma RepositionKeeps(s: Server, c: Conn, moved: Client)
    requires Consistent(s) && c in s.clients
    requires moved == s.clients[c].(pose := moved.pose, velocity := moved.velocity, onGround := moved.onGround)
    ensures Consistent(Broadcast(Update(s, c, moved), c, MovePlayerOf(moved)))
  {
    var after := Update(s, c, moved);
    UpdateHalfway(s, c, moved);
    BroadcastMoves(after, c, MovePlayerOf(moved), AvatarOf(s.clients[c]), AvatarOf(moved));
    HalfwayDone(Broadcast(after, c, MovePlayerOf(moved)), c);
  }

  lemma LegacyMoveKeeps(s: Server, c: Conn, pose: Pose, onGround: bool)
    requires Consistent(s) && c in s.clients
    ensures Consistent(LegacyMove(s, c, pose, onGround))
  {
    if s.clients[c].phase.Spawned? {
      RepositionKeeps(s, c, MovedTo(s.clients[c], pose, onGround));
    } else {
      TellKeeps(s, c, [MovePlayerOf(s.clients[c])]);
    }
  }

  lemma LeaveVehicleKeeps(s: Server, c: Conn, position: Option<Vec>)
    requires Consistent(s) && c in s.clients
    ensures Consistent(LeaveVehicle(s, c, position))
  {
    var client := s.clients[c];
    RepositionKeeps(s, c, if position.Some? then client.(pose := client.pose.(position := position.value)) else client);
  }

  lemma InputKeeps(s: Server, c: Conn, request: Option<Request>, pose: Pose, velocity: Vec, onGround: bool,
                   input: Input)
    requires Consistent(s) && c in s.clients
    ensures Consistent(AuthInput(s, c, request, pose, velocity, onGround, input))
  {
    if !s.clients[c].phase.Spawned? {
      TellKeeps(s, c, [MovePlayerOf(s.clients[c])]);
    } else if request.Some? {
      RequestsKeep(s, c, [request.value]);
      MoveKeeps(ProcessRequests(s, c, [request.value]), c, pose, velocity, onGround, input);
    } else {
      MoveKeeps(s, c, pose, velocity, onGround, input);
    }
  }

  // ---------- joining ----------

  /** Packets about none of the table's players are harmless, whoever gets them. */
  lemma {:induction false} WriteSeveralView(logs: Logs, list: seq<Conn>, packets: seq<Packet>, a: Conn, id: RuntimeId)
    requires forall i :: 0 <= i < |packets| ==> !About(packets[i], id)
    ensures View(LogOf(WriteToClients(logs, list, packets), a), id) == View(LogOf(logs, a), id)
    decreases |list|
  {
    if list != [] {
      TellView(LogOf(logs, list[0]), packets, id);
      WriteSeveralView(WriteOne(logs, list[0], packets), list[1..], packets, a, id);
    }
  }

  lemma SpawnPacketsShow(log: seq<Packet>, client: Client)
    ensures View(log + SpawnPackets(client), client.runtimeID) == Some(AvatarOf(client))
  {
    var id := client.runtimeID;
    var log1 := log + [AddPlayerOf(client)];
    var log2 := log1 + [ActorDataOf(client)];
    ViewAppend(log, AddPlayerOf(client), id);
    ViewAppend(log1, ActorDataOf(client), id);
    ViewAppend(log2, ActorMotionOf(client), id);
    assert log2 + [ActorMotionOf(client)] == log + SpawnPackets(client);
    assert client.metadata + client.metadata == client.metadata;
  }

  lemma SpawnPacketsAbout(client: Client, id: RuntimeId)
    requires id != client.runtimeID
    ensures forall i :: 0 <= i < |SpawnPackets(client)| ==> !About(SpawnPackets(client)[i], id)
  {
  }

  /** Everyone listed is shown the client. */
  lemma {:induction false} WriteSpawnView(logs: Logs, list: seq<Conn>, client: Client, a: Conn)
    ensures var log := LogOf(WriteToClients(logs, list, SpawnPackets(client)), a);
            if a in list then View(log, client.runtimeID) == Some(AvatarOf(client)) else log == LogOf(logs, a)
    decreases |list|
  {
    if list != [] {
      var first := WriteOne(logs, list[0], SpawnPackets(client));
      SpawnPacketsShow(LogOf(logs, list[0]), client);
      WriteSpawnView(first, list[1..], client, a);
    }
  }

  /** The client is shown everyone listed, and nobody else's log changes. */
  lemma {:induction false} ShowPlayersView(s: Server, logs: Logs, to: Conn, list: seq<Conn>, b: Conn, a: Conn)
    requires Sane(s) && b in s.clients && s.clients[b].runtimeID != 0
    ensures var after := ShowPlayers(s, logs, to, list);
            && (a != to ==> LogOf(after, a) == LogOf(logs, a))
            && (b in list || View(LogOf(logs, to), s.clients[b].runtimeID) == Some(AvatarOf(s.clients[b]))
                ==> View(LogOf(after, to), s.clients[b].runtimeID) == Some(AvatarOf(s.clients[b])))
    decreases |list|
  {
    if list != [] {
      var head := list[0];
      if head in s.clients {
        var first := WriteOne(logs, to, SpawnPackets(s.clients[head]));
        if head == b {
          SpawnPacketsShow(LogOf(logs, to), s.clients[b]);
        } else {
          SpawnPacketsAbout(s.clients[head], s.clients[b].runtimeID);
          TellView(LogOf(logs, to), SpawnPackets(s.clients[head]), s.clients[b].runtimeID);
        }
        ShowPlayersView(s, first, to, list[1..], b, a);
      } else {
        ShowPlayersView(s, logs, to, list[1..], b, a);
      }
    }
  }

  lemma InitialisePair(s: Server, c: Conn, a: Conn, b: Conn)
    requires Consistent(s) && c in s.clients
    ensures Agrees(Initialise(s, c), a, b)
  {
    var spawned := Update(s, c, s.clients[c].(phase := Spawned));
    var me := spawned.clients[c];
    var peers := SpawnedPeers(spawned, c);
    var logs := ShowPlayers(spawned, spawned.logs, c, peers);
    var after := Initialise(s, c);
    UpdateStaysSane(s, c, me);
    assert Active(after, a) == Active(spawned, a) && Active(after, b) == Active(spawned, b);
    if a != b && Active(spawned, a) && Active(spawned, b) {
      InSpawnedPeers(spawned, c, a);
      InSpawnedPeers(spawned, c, b);
      ShowPlayersView(spawned, spawned.logs, c, peers, b, a);
      WriteSpawnView(logs, peers, me, a);
      if b != c && a != c {
        assert Agrees(s, a, b);
        ActiveAfterUpdate(s, c, me, a);
        ActiveAfterUpdate(s, c, me, b);
        SpawnPacketsAbout(me, spawned.clients[b].runtimeID);
        WriteSeveralView(logs, peers, SpawnPackets(me), a, spawned.clients[b].runtimeID);
      }
    }
  }

  lemma InitialiseKeeps(s: Server, c: Conn)
    requires Consistent(s) && c in s.clients
    ensures Consistent(Initialise(s, c))
  {
    UpdateStaysSane(s, c, s.clients[c].(phase := Spawned));
    forall a, b
      ensures Agrees(Initialise(s, c), a, b)
    {
      InitialisePair(s, c, a, b);
    }
  }

  // ---------- registering and leaving ----------

  /** Nobody has the next runtime ID yet. */
  lemma FreshIdStaysSane(s: Server, c: Conn, client: Client)
    requires Sane(s) && c in s.clients && client.runtimeID == s.nextID + 1 && Normal(client.inventory)
    ensures Sane(Update(s.(nextID := s.nextID + 1), c, client))
    ensures Sane(Update(s.(nextID := s.nextID + 1, table := s.table[s.nextID + 1 := c]), c, client))
  {
  }

  lemma SaneIgnoresLogs(s: Server, logs: Logs)
    requires Sane(s)
    ensures Sane(s.(logs := logs))
  {
  }

  /** The packets of a game start are about its new ID alone. */
  lemma AnnounceView(s: Server, c: Conn, existing: seq<Conn>, a: Conn, id: RuntimeId)
    requires c in s.clients && id != s.clients[c].runtimeID
    ensures Sees(Announce(s, c, existing), a, id) == Sees(s, a, id)
  {
    var told := s.(logs := WriteToClients(s.logs, existing, [PlayerListAdd([s.clients[c].uuid])]));
    WriteToClientsView(s.logs, existing, PlayerListAdd([s.clients[c].uuid]), a, id);
    TellView(LogOf(told.logs, c), OwnPackets(told, c), id);
  }

  /** Starting the game writes nothing about IDs that were handed out before. */
  lemma StartGameView(s: Server, c: Conn, spawn: Vec, metadata: Metadata, a: Conn, id: RuntimeId)
    requires c in s.clients && id <= s.nextID
    ensures Sees(StartGame(s, c, spawn, metadata), a, id) == Sees(s, a, id)
  {
    AnnounceView(Enter(s, c, spawn, metadata), c, Players(s, Some(c), false), a, id);
  }

  lemma StartGameState(s: Server, c: Conn, spawn: Vec, metadata: Metadata)
    requires c in s.clients
    ensures StartGame(s, c, spawn, metadata).(logs := s.logs) == Enter(s, c, spawn, metadata)
  {
  }

  lemma StartGameKeepsSane(s: Server, c: Conn, spawn: Vec, metadata: Metadata)
    requires Sane(s) && c in s.clients
    ensures Sane(StartGame(s, c, spawn, metadata))
  {
    var entered := Enter(s, c, spawn, metadata);
    FreshIdStaysSane(s, c, entered.clients[c]);
    StartGameState(s, c, spawn, metadata);
    SaneIgnoresLogs(entered, StartGame(s, c, spawn, metadata).logs);
  }

  lemma StartGamePair(s: Server, c: Conn, spawn: Vec, metadata: Metadata, a: Conn, b: Conn)
    requires Consistent(s) && c in s.clients && !s.clients[c].phase.Spawned?
    ensures Agrees(StartGame(s, c, spawn, metadata), a, b)
  {
    var after := StartGame(s, c, spawn, metadata);
    assert Agrees(s, a, b);
    StartGameState(s, c, spawn, metadata);
    if a != b && Active(after, a) && Active(after, b) {
      assert a != c && b != c;
      OthersStayInTable(s, c, spawn, metadata, a);
      OthersStayInTable(s, c, spawn, metadata, b);
      assert GoodClient(s.clients[b], s.nextID);
      StartGameView(s, c, spawn, metadata, a, s.clients[b].runtimeID);
    }
  }

  lemma OthersStayInTable(s: Server, c: Conn, spawn: Vec, metadata: Metadata, a: Conn)
    requires Sane(s) && c in s.clients && a != c
    ensures Active(StartGame(s, c, spawn, metadata), a) <==> Active(s, a)
  {
    StartGameState(s, c, spawn, metadata);
    var entered := Enter(s, c, spawn, metadata);
    if InTable(s, a) {
      var k :| k in s.table && s.table[k] == a;
      assert GoodEntry(s, k);
      assert k in entered.table && entered.table[k] == a;
    }
  }

  lemma StartGameKeeps(s: Server, c: Conn, spawn: Vec, metadata: Metadata)
    requires Consistent(s) && c in s.clients && !s.clients[c].phase.Spawned?
    ensures Consistent(StartGame(s, c, spawn, metadata))
  {
    StartGameKeepsSane(s, c, spawn, metadata);
    forall a, b
      ensures Agrees(StartGame(s, c, spawn, metadata), a, b)
    {
      StartGamePair(s, c, spawn, metadata, a, b);
    }
  }

  lemma RemovePair(s: Server, c: Conn, a: Conn, b: Conn)
    requires Consistent(s) && c in s.clients
    ensures Agrees(RemovePlayer(s, c), a, b)
  {
    var after, client := RemovePlayer(s, c), s.clients[c];
    assert Agrees(s, a, b);
    if after != s && a != b && Active(after, a) && Active(after, b) {
      assert a != c && b != c;
      assert Active(s, a) && Active(s, b);
      var removed := s.(table := s.table - {client.runtimeID});
      var others := Players(removed, None, true);
      var logs := WriteToClients(removed.logs, others, [PlayerListRemove(client.uuid)]);
      WriteToClientsView(removed.logs, others, PlayerListRemove(client.uuid), a, s.clients[b].runtimeID);
      WriteToClientsView(logs, others, RemoveActor(client.runtimeID), a, s.clients[b].runtimeID);
      NotAbout(s, c, RemoveActor(client.runtimeID), b);
    }
  }

  lemma RemoveKeeps(s: Server, c: Conn)
    requires Consistent(s) && c in s.clients
    ensures Consistent(RemovePlayer(s, c))
  {
    forall a, b
      ensures Agrees(RemovePlayer(s, c), a, b)
    {
      RemovePair(s, c, a, b);
    }
  }

  lemma ConnectKeeps(s: Server, c: Conn)
    requires Consistent(s) && c !in s.clients
    ensures Consistent(Update(s, c, NewClient()))
  {
    var after := Update(s, c, NewClient());
    assert Normal(NewClient().inventory);
    forall a, b
      ensures Agrees(after, a, b)
    {
      assert Agrees(s, a, b);
      assert Active(after, a) ==> a != c && Active(s, a);
      assert Active(after, b) ==> b != c && Active(s, b);
    }
  }

  // ---------- every run ----------

  lemma RadiusKeeps(s: Server, c: Conn)
    requires Consistent(s) && c in s.clients
    ensures Consistent(Update(Tell(s, c, [OtherPacket, EquipmentOf(s.clients[c])]), c,
                              s.clients[c].(phase := AwaitInitialised)))
  {
    TellKeeps(s, c, [OtherPacket, EquipmentOf(s.clients[c])]);
    LeaveSpawned(Tell(s, c, [OtherPacket, EquipmentOf(s.clients[c])]), c, s.clients[c].(phase := AwaitInitialised));
  }

  predicate IsLoginPacket(packet: Incoming) {
    packet.RequestNetworkSettings? || packet.Login? || packet.ClientToServerHandshake? || packet.ResourcePacksCompleted?
  }

  lemma LoginKeeps(s: Server, c: Conn, packet: Incoming)
    requires Consistent(s) && c in s.clients && IsLoginPacket(packet)
    ensures Consistent(Handle(s, c, packet))
  {
    var client := s.clients[c];
    match packet
    case RequestNetworkSettings => LeaveSpawned(s, c, client.(phase := AwaitLogin));
    case Login(identity) => LeaveSpawned(s, c, client.(identity := identity, phase := AwaitClientHandshake));
    case ClientToServerHandshake => LeaveSpawned(s, c, client.(phase := AwaitResourcePackResponse));
    case ResourcePacksCompleted(spawn, metadata) =>
      if client.phase.AwaitResourcePackResponse? {
        StartGameKeeps(s, c, spawn, metadata);
      }
  }

  lemma HandleKeeps(s: Server, c: Conn, packet: Incoming)
    requires Consistent(s) && c in s.clients
    ensures Consistent(Handle(s, c, packet))
  {
    if IsLoginPacket(packet) {
      LoginKeeps(s, c, packet);
    } else {
      match packet
      case RequestChunkRadius => RadiusKeeps(s, c);
      case SetLocalPlayerAsInitialised(_) => InitialiseKeeps(s, c);
      case MobEquipmentRequest(_, slot, hotbarSlot) => SelectKeeps(s, c, slot, hotbarSlot);
      case ItemStackRequests(requests) => RequestsKeep(s, c, requests);
      case PlayerAuthInput(request, pose, velocity, onGround, input) =>
        InputKeeps(s, c, request, pose, velocity, onGround, input);
      case MovePlayerRequest(_, pose, onGround) => LegacyMoveKeeps(s, c, pose, onGround);
      case InteractLeaveVehicle(position) => LeaveVehicleKeeps(s, c, position);
      case _ =>
    }
  }

  lemma StepKeeps(s: Server, event: SessionEvent)
    requires Consistent(s)
    ensures Consistent(Step(s, event))
  {
    match event
    case Connect(c) =>
      if c !in s.clients {
        ConnectKeeps(s, c);
      }
    case Receive(c, packet) =>
      if c in s.clients {
        HandleKeeps(s, c, packet);
      }
    case Disconnect(c) =>
      if c in s.clients {
        RemoveKeeps(s, c);
      }
  }

  lemma {:induction false} RunKeeps(s: Server, events: seq<SessionEvent>)
    requires Consistent(s)
    ensures Consistent(Run(s, events))
    decreases |events|
  {
    if events != [] {
      StepKeeps(s, events[0]);
      RunKeeps(Step(s, events[0]), events[1..]);
    }
  }

  /** A server on which nobody is spawned yet is consistent, whatever its clients hold. */
  lemma NobodySpawnedIsConsistent(s: Server)
    requires Sane(s) && forall c :: c in s.clients ==> !s.clients[c].phase.Spawned?
    ensures Consistent(s)
  {
  }

  /**
   From any consistent server and for any order of packets: if two distinct clients are both in
   the player table and both spawned, each sees the other exactly as the server has it.
   */
  lemma PlayersAgree(s: Server, events: seq<SessionEvent>, a: Conn, b: Conn)
    requires Consistent(s) && a != b && Active(Run(s, events), a) && Active(Run(s, events), b)
    ensures var after := Run(s, events);
            Sees(after, a, after.clients[b].runtimeID) == Some(AvatarOf(after.clients[b]))
  {
    RunKeeps(s, events);
    assert Agrees(Run(s, events), a, b);
  }

  // ---------- a server without items ----------

  ghost predicate NobodyHoldsAnything(s: Server) {
    forall c :: c in s.clients ==> HoldsNothing(s.clients[c].inventory)
  }

  lemma RequestsAddNothing(s: Server, c: Conn, requests: seq<Request>)
    requires NobodyHoldsAnything(s) && c in s.clients
    ensures NobodyHoldsAnything(ProcessRequests(s, c, requests)) && c in ProcessRequests(s, c, requests).clients
  {
    BatchIsRun(s.creative, s.clients[c].inventory, requests);
    SessionHoldsNothing(s.creative, s.clients[c].inventory, Submissions(requests));
  }

  lemma MoveAddsNothing(s: Server, c: Conn, pose: Pose, velocity: Vec, onGround: bool, input: Input)
    requires NobodyHoldsAnything(s) && c in s.clients
    ensures NobodyHoldsAnything(Move(s, c, pose, velocity, onGround, input))
  {
  }

  lemma InputAddsNothing(s: Server, c: Conn, request: Option<Request>, pose: Pose, velocity: Vec, onGround: bool,
                         input: Input)
    requires NobodyHoldsAnything(s) && c in s.clients
    ensures NobodyHoldsAnything(AuthInput(s, c, request, pose, velocity, onGround, input))
  {
    if request.Some? {
      RequestsAddNothing(s, c, [request.value]);
      MoveAddsNothing(ProcessRequests(s, c, [request.value]), c, pose, velocity, onGround, input);
    } else {
      MoveAddsNothing(s, c, pose, velocity, onGround, input);
    }
  }

  lemma LoginAddsNothing(s: Server, c: Conn, packet: Incoming)
    requires NobodyHoldsAnything(s) && c in s.clients && IsLoginPacket(packet)
    ensures NobodyHoldsAnything(Handle(s, c, packet))
  {
    if packet.ResourcePacksCompleted? {
      StartGameState(s, c, packet.spawn, packet.metadata);
    }
  }

  lemma HandleAddsNothing(s: Server, c: Conn, packet: Incoming)
    requires NobodyHoldsAnything(s) && c in s.clients
    ensures NobodyHoldsAnything(Handle(s, c, packet))
  {
    if IsLoginPacket(packet) {
      LoginAddsNothing(s, c, packet);
    } else {
      match packet
      case ItemStackRequests(requests) => RequestsAddNothing(s, c, requests);
      case PlayerAuthInput(request, pose, velocity, onGround, input) =>
        InputAddsNothing(s, c, request, pose, velocity, onGround, input);
      case _ =>
    }
  }

  /** Packets alone never give anybody an item: all clients of a new server hold nothing for ever. */
  lemma {:induction false} ServerHoldsNothing(s: Server, events: seq<SessionEvent>)
    requires NobodyHoldsAnything(s)
    ensures NobodyHoldsAnything(Run(s, events))
    decreases |events|
  {
    if events != [] {
      if events[0].Receive? && events[0].c in s.clients {
        HandleAddsNothing(s, events[0].c, events[0].packet);
      }
      ServerHoldsNothing(Step(s, events[0]), events[1..]);
    }
  }
}
