# A verified model of the Bedrock server's core

This project models, in Dafny, the parts of the server whose correctness is hard to see from the
code, and proves what they are for. It has two layers. The lower one describes every operation on
values (datatypes, functions) and proves properties over all inputs, all runs and all
interleavings. The upper one has the objects and loops of the server (classes with `modifies`
clauses, methods with loop invariants); each of its methods is proved to carry out the operation
on values, so what is proved of the values holds of the objects.

| part | modules |
|---|---|
| item-stack requests | `ItemStacks`, `ItemStackIdentity`, `ItemConservation`, `ItemRequests`, `ItemActions`, `PlayerInventory` |
| replication between players | `Replicas`, `Replication`, `ReplicationInvariant`, `PlayerPackets`, `ZeroId`, `Departures`, `SightOfDeparted`, `LeftBehind`, `PlayerHub`, `ConcurrentJoin`, `JoinRuns` |
| chunks and their encoding | `PalettedStorage`, `Chunks`, `ChunkSummaries`, `ChunkStore`, `SubChunks`, `HeightMaps`, `ChunkRing` |
| batches on the wire | `BatchCodec`, `CodecState` |
| resource-pack download | `DownloadQueue`, `DownloadState` |
| RakNet shutdown | `Shutdown` |
| command lines | `CommandLine` |
| shared | `Numbers`, `Wrappers`, `Bits`, `Varint`, `Sequencing` |

`dafny verify dfyconfig.toml` checks the whole project.

## Main results

- **Replicas agree** (`ReplicationInvariant.PlayersAgree`). From any consistent server, whatever its
  clients hold, and after any sequence of connections, disconnections and packets: for any two
  spawned clients in the player table, folding every packet that one was ever sent gives exactly the
  other's position, rotation, metadata and held item.
- **Packets have their effect** (`PlayerPackets`). What each packet makes of its player, what exactly every
  other client is sent about it, and that all others in the game then see it so.
- **Departures** (`SightOfDeparted.RidOfAllIff`, `Departures.DepartureIsFinal`, `ZeroId.SeesZeroIff`). A client may go
  through several runtime IDs, the shared ID 0 among them. For every ID that a departed client ever
  had, what each other client sees of it at any later time, and the exact condition for never seeing
  the client again under any of them.
- **Concurrent joins** (`ConcurrentJoin.JoinedClientsSeeEachOther`, `ListedFirstIff`). Any number of
  clients, any interleaving of single writes and critical sections: registered clients that finished
  joining have been shown to each other, and a spawn packet comes after the player-list entry exactly
  if the client whose initialisation wrote it was registered.
- **Actions** (`ItemActions`). When a transfer, swap, drop, destruction or acknowledgement is accepted, as an
  if-and-only-if over slots, stack IDs, counts, types and room; the status of every refusal; and
  which items lie where afterwards.
- **Stack identity** (`ItemStackIdentity.RunKeepsIdentity`, with the exact condition per action in
  `ActionKeepsIdentity`), **conservation** (`ItemConservation.RunConserves`, with the exact condition in
  `TransferConservesIff`), **atomicity** (`ItemRequests.BatchIsItsAcceptedRequests`) and **predicted IDs**
  (`ItemRequests.PredictionHolds`).
- **Storage round trip** (`PalettedStorage.StorageRoundTrip`), from there whole sub-chunks
  (`SubChunks.SubChunkRoundTrip`), over a sparse store that stands for a dense array
  (`Chunks.BlocksAreDense`, `Chunks.BiomesAreDense`).
- **Encrypted stream round trip** (`BatchCodec.StreamRoundTrip`, `SessionRoundTrip`), and what is on the wire
  (`WireIs`, `SealIs`, `ReplayRefusedIff`).
- **Exact downloads** (`DownloadQueue.DownloadIsExact`, `DownloadTakes`, `PackIsAssembled`).
- **Shutdown** (`Shutdown.ShutdownIsSafe`, `NoRegistrationAfterClose`, `CloseReturns`).
- **Command lines** (`CommandLine.LineRoundTrip`, `SucceedsIffBalanced`).
- **Chunk order** (`ChunkRing.ChunkPositions`): for every centre and radius, when there is a list and
  what is in it.

## What turned out not to hold

- Transfers do not always conserve items. The guard against a transfer onto itself compares slot
  names, and three container IDs name one main cell; a transfer between two names of a cell makes
  the stack larger by `count`. Totals are kept if and only if the two names stand for different
  cells (`ItemConservation.TransferConservesIff`, `AliasedTransferGains`). Such transfers are accepted,
  exactly when the two names differ, the IDs match and the stack has room for itself
  (`ItemActions.AliasedTransferAcceptedIff`); `ItemActions.TransferNeedNotConserve` is a case with one item.
- A spawned player can see one that has left, for ever. A departure is announced only for the runtime
  ID that the client has at the end, only if the table has it under that ID, and only to spawned
  players. Four runs show ways around that: the watcher had gone back to loading chunks
  (`LeftBehind.LoadingWatcherIsNotTold`); the client had started the game a second time, which
  the handshake packet allows in any state, so its first ID stays (`LeftBehind.OldIdIsNotRemoved`);
  it had failed to start the game again, so its leaving removes nothing
  (`LeftBehind.UnregisteredLeaveIsSilent`); or it became spawned before it started the game, which
  shows it under ID 0 (`LeftBehind.UnstartedClientStaysInSight`). `LeftBehind.TwoPlayersCanMeet` leads to
  the starting point of all four. Nothing takes ID 0 back: it is in a client's sight exactly if somebody
  who had not started the game became spawned while the client was in it (`ZeroId.SeesZeroIff`). A
  watcher is rid of any other ID exactly under `SightOfDeparted.IsRidOf`: of the announced ID if it is
  spawned or had not been shown it, and of the rest if it had not been shown them and the client is
  not left in the table as spawned.
- Under interleaving there is one more: a player that leaves after another has listed it, but before
  that one is written its spawn packet, is shown after its removal (`JoinRuns.LeftPlayerIsShown`).
- A player is not always listed before it is shown. A client that becomes spawned before it starts the
  game is shown the players, and shown to them, with no list entry on either side
  (`JoinRuns.UnlistedSpawn`); for registered clients the entry always comes first
  (`ConcurrentJoin.ListedFirstIff`).
- The identity discipline ends with the last `int32`: a split after that wraps the next ID to a
  negative number. An accepted action keeps the discipline if and only if it is not such a split
  (`ItemStackIdentity.ActionKeepsIdentity`); the split is accepted (`LastIdSplits`, `IdentityCanBreak`).
- Requests alone never put an item into an inventory, so a new session holds nothing for ever
  (`ItemStackIdentity.SessionHoldsNothing`, `ReplicationInvariant.ServerHoldsNothing`). The results on
  inventories and held items are therefore stated for any well-formed inventory and any consistent
  server to start from.
- The storage round trip fails for more than 65536 distinct values, because indices are 16 bits
  wide, and for the empty list, and holds for all others (`PalettedStorage.StorageRoundTrip`).
- Encoding a sub-chunk does not end if one of its positions has a block on layer 255, because the
  layer counter is a `uint8`, and ends otherwise (`SubChunks.EncodingEndsIff`); one block in a new
  chunk is enough (`SubChunks.EncodingMayNotEnd`).
- The height in an encoded sub-chunk is one signed byte. It is right exactly for sub-chunks between -2048
  and 2047, which covers the overworld (`SubChunks.NumberIsHeightIff`).
- The list of chunk positions is not produced for every radius. Its capacity is computed in 32 bits
  and negative for the first time at radius 23170, where `make` panics, and the loop over rings does
  not end for the largest radius. There is a list if and only if the wrapped capacity is
  not negative and the radius is not the largest (`ChunkRing.ChunkPositions`, `CapacityIsCountBelow`,
  `LoopEndsIff`).
- The announced number of chunks is not always the number of chunks. It is exactly for packs with data
  and fewer than 2^32 chunks (`DownloadQueue.AnnouncedCountIff`); an empty pack announces none and is
  sent in one (`EmptyPackIsOneChunk`), and one of exactly 2^32 chunks announces none
  (`LargestPackAnnouncesNothing`).
- Only the first call of `Close` waits for session handlers; a later call waits for the accept loop
  alone (`Shutdown.LaterCloseDoesNotWaitForSessions`).

## Reading the model

- Item requests. Container IDs, response statuses and metadata flags are constants of the protocol
  library, so they are abstract names here. The map of changes that a request leaves is iterated in
  an unspecified order; that order is part of the request (`Request.order`), and results that need
  every slot to be visited say so (`CoversAllSlots`). Everything about an item besides count and
  network ID is one opaque type. `Transfer` stands for the four actions that the server handles by
  the same function. The main cells are a sequence field, since a Go array is a value.
- Replication. Coordinates and angles are opaque and already validated; a packet that a handler
  drops for its content is `Ignored`. Writes succeed. A client whose handler failed may go on
  here, so runs include those in which the session ends at once and those in which it does not; after
  its connection has ended a client sends nothing (`Departures.Silent`). Of the packets that a client
  is sent about itself only those that a replica could react to are recorded. Velocity and the on-ground
  flag are kept by the server but are not part of a replica: a legacy
  movement packet changes the velocity without telling anyone.
- Concurrent joins. Reads of the session state are sequentially consistent, and the three packets
  of a spawn are one write, as are the two of a departure to one recipient.
- Batches. SHA-256 is any function to 32 bytes, AES-CTR (section 6.5 of NIST SP 800-38A) any keystream
  indexed by position, and compression any pair of functions with the inverse law; the proofs hold
  for all of them. The counter wraps at 2^64.
- Command lines. Lower-casing is a parameter. A line is written with any mixture of bare,
  single-quoted and double-quoted arguments.
- Downloads. A digest is a term that names its data.
- Go's fixed-width integers are subset types; each cast, wrap-around and truncation of the source is
  written out.

## Model

| member | source | states |
|---|---|---|
| `ItemStackIdentity.ActionKeepsIdentity` | internal/server/mcpe_inventory.go:244-348 | an accepted action keeps IDs positive, distinct and below the next ID, counts in 1..64 and empty cells zero, if and only if it is not a split after the last `int32` ID; it uses one ID for a split, none otherwise; aliased transfers included |
| `ItemStackIdentity.RunKeepsIdentity` | internal/server/mcpe_inventory.go:168-216 | from any well-formed inventory, every run whose accepted splits stay within `int32` ends well-formed, and the next ID has moved by exactly the number of accepted splits |
| `ItemStackIdentity.SessionKeepsIdentity` | internal/server/mcpe_inventory.go:168-216 | from any well-formed inventory with enough IDs left for all actions, every run ends well-formed |
| `ItemStackIdentity.LastIdSplits` | internal/server/mcpe_inventory.go:262-277 | with all IDs used up a split is accepted and breaks the discipline, in any inventory that has a stack to split |
| `ItemStackIdentity.IdentityCanBreak` | internal/server/mcpe_inventory.go:516-523 | there is such an inventory |
| `ItemStackIdentity.SessionHoldsNothing` | internal/server/mcpe_inventory.go:52-57 | an inventory without items stays without, and hands out no ID, in every run |
| `ItemStackIdentity.SplitTransfer` | internal/server/mcpe_inventory.go:262-277 | splitting a stack into an empty cell keeps the discipline exactly when an ID is left |
| `ItemStackIdentity.WholeTransfer` | internal/server/mcpe_inventory.go:244-293 | every other accepted transfer keeps it and uses no ID |
| `ItemStackIdentity.SwapKeepsIdentity` | internal/server/mcpe_inventory.go:295-310 | an accepted swap keeps the discipline and uses no ID, also between two names of a cell |
| `ItemStackIdentity.RemoveKeepsIdentity` | internal/server/mcpe_inventory.go:312-348 | an accepted drop or destruction keeps the discipline and uses no ID |
| `ItemStackIdentity.BatchStaysNormal` | internal/server/mcpe_inventory.go:501-514 | after any batch every cell is the zero item or holds items, without any bound on IDs, and the selected slot is as before |
| `ItemStackIdentity.ActionsFrame` | internal/server/mcpe_inventory.go:409-425 | actions change neither selected slot nor prediction table, so a snapshot without the table suffices for a rollback |
| `ItemConservation.AliasedTransferGains` | internal/server/mcpe_inventory.go:244-293 | an accepted transfer between two names of one cell makes exactly that stack larger by `count` and changes nothing else |
| `ItemActions.AliasedTransferAcceptedIff` | internal/server/mcpe_inventory.go:244-293 | such a transfer is accepted if and only if the count is positive, the names differ, both IDs match, the stack has the items and the doubled part fits |
| `ItemActions.ItemsFromNothing` | internal/server/mcpe_inventory.go:256-258 | in any well-formed inventory and any main cell with room, the inventory name and the combined name of the cell make an accepted transfer that creates items |
| `ItemActions.TransferNeedNotConserve` | internal/server/mcpe_inventory.go:244-293 | one item in the first cell becomes two |
| `ItemConservation.TransferConservesIff` | internal/server/mcpe_inventory.go:244-293 | an accepted transfer keeps all totals if and only if its two names stand for different cells |
| `ItemConservation.ActionTotal` | internal/server/mcpe_inventory.go:218-348 | an accepted action changes the total of a stack type by exactly what it takes and, for aliased transfers, creates |
| `ItemConservation.RunTotal` | internal/server/mcpe_inventory.go:168-216 | over every run the total of each stack type changes by exactly the net of its accepted actions |
| `ItemConservation.RunConserves` | internal/server/mcpe_inventory.go:168-216 | without aliased transfers totals shrink by exactly what accepted drops and destructions took |
| `ItemRequests.BatchIsItsAcceptedRequests` | internal/server/mcpe_inventory.go:168-216 | a batch ends in the same inventory as its accepted requests alone, all of which are accepted again |
| `ItemRequests.OneAnswerPerRequest` | internal/server/mcpe_inventory.go:168-216 | one response per request, in order and with its ID, OK exactly when it is accepted in the state the earlier ones left |
| `ItemRequests.RefusalsAreErrors` | internal/server/mcpe_inventory.go:668-681 | no refusal carries the status OK |
| `ItemRequests.PredictionAfterRequest` | internal/server/mcpe_inventory.go:525-557 | after an accepted request that names each cell once, its predicted ID resolves under every name of a touched cell to the cell's stack ID |
| `ItemRequests.PredictionHolds` | internal/server/mcpe_inventory.go:525-557 | the same after any further run that neither reuses the request ID nor resets the table |
| `ItemRequests.EntryStays` | internal/server/mcpe_inventory.go:539-557 | a table entry is unchanged by a run that does not reuse its key or reset the table |
| `ItemRequests.ShortRunsLeaveEntry` | internal/server/mcpe_inventory.go:539-557 | runs that avoid an ID and have room in the table reset nothing |
| `ItemRequests.RunKeepsTable` | internal/server/mcpe_inventory.go:539-557 | in every run the table is closed under key negation and has at most 258 entries |
| `ItemRequests.NamesOfCell` | internal/server/mcpe_inventory.go:612-626 | the aliases of a slot are exactly the names of its cell |
| `ItemRequests.RecordedIdsAre` | internal/server/mcpe_inventory.go:539-557 | the recorded IDs do not depend on the order of the changes when each cell has one name |
| `ItemRequests.ActionTracks` | internal/server/mcpe_inventory.go:386-390 | the recorded changes show what their cells hold, after every accepted action with one name per cell |
| `ItemActions.AcceptedSlotsFit` | internal/server/mcpe_inventory.go:367-384 | every slot that an accepted action names holds the stack that the client's ID stands for: by its number, or by an entry of the table under a name of the cell |
| `ItemActions.MismatchIsRefused` | internal/server/mcpe_inventory.go:380-382 | the first slot whose stack is another one makes the server refuse with InvalidItemNetId |
| `ItemActions.TransferAcceptedIff` | internal/server/mcpe_inventory.go:244-293 | a transfer is accepted if and only if the count is positive, both slots and IDs fit, the names differ, the items are there, and the destination is empty or of the same type with room up to 64 |
| `ItemActions.TransferMoves` | internal/server/mcpe_inventory.go:262-293 | what an accepted transfer between different cells leaves in both, which ID a split part gets, and what is recorded |
| `ItemActions.TransferRefusedFor` | internal/server/mcpe_inventory.go:244-293 | the status of every refused transfer: the first failing condition decides |
| `ItemActions.SwapAcceptedIff` | internal/server/mcpe_inventory.go:295-310 | a swap is accepted if and only if both slots and IDs fit and the names differ |
| `ItemActions.SwapExchanges` | internal/server/mcpe_inventory.go:295-310 | the two items change places and nothing else changes |
| `ItemActions.RemovalAcceptedIff` | internal/server/mcpe_inventory.go:312-348 | a drop is accepted if and only if slot, ID and count fit, a destruction if moreover the mode is creative |
| `ItemActions.RemovalTakes` | internal/server/mcpe_inventory.go:312-348 | the items leave the named cell and nothing else changes |
| `ItemActions.MiningAcceptedIff` | internal/server/mcpe_inventory.go:350-365 | mining is acknowledged if and only if the hotbar slot holds the stack of the ID; it changes nothing and records that stack |
| `ItemActions.OthersRefusedFor` | internal/server/mcpe_inventory.go:218-242 | the status of every refused swap, removal, acknowledgement and unknown action |
| `ItemActions.RunAgrees` | internal/server/mcpe_inventory.go:539-557 | in every run all names of a cell have the same entries in the table |
| `ItemActions.RememberKeepsIff` | internal/server/mcpe_inventory.go:539-545 | other entries stay if and only if the table has at most 256 |
| `ItemActions.StoreIs` | internal/server/mcpe_inventory.go:483-523 | what storing an item makes of its cell and of the next ID, for every item |
| `ItemActions.SlotsAre` | internal/server/mcpe_inventory.go:442-481 | which slots there are, and which cell each names |
| `ItemActions.SelectHolds` | internal/server/mcpe_inventory.go:66-97 | selecting a hotbar slot makes its item the held one; any other slot changes nothing |
| `ItemStacks.BatchIsRun` | internal/server/mcpe_inventory.go:168-196 | a batch is the run that submits its requests one by one |
| `PlayerInventory.PlayerInventory.NormaliseItem` | internal/server/mcpe_inventory.go:501-514 | the stored form of an item and the next ID |
| `PlayerInventory.PlayerInventory.SetItem` | internal/server/mcpe_inventory.go:483-499 | exactly the named cell takes the stored form of the item |
| `PlayerInventory.PlayerInventory.ResolveStackNetworkID` | internal/server/mcpe_inventory.go:525-537 | the stack ID that a client's ID stands for, or none |
| `PlayerInventory.PlayerInventory.VerifyStackRequestSlot` | internal/server/mcpe_inventory.go:367-384 | the slot's item if the ID matches it, otherwise the status of the first failing check |
| `PlayerInventory.PlayerInventory.TransferStack` | internal/server/mcpe_inventory.go:244-293 | carries out the transfer on values, or refuses with its status and changes nothing |
| `PlayerInventory.PlayerInventory.SwapStacks` | internal/server/mcpe_inventory.go:295-310 | carries out the swap on values, or refuses with its status and changes nothing |
| `PlayerInventory.PlayerInventory.RemoveStack` | internal/server/mcpe_inventory.go:312-348 | carries out the removal on values, or refuses with its status and changes nothing |
| `PlayerInventory.PlayerInventory.AckMineBlockStack` | internal/server/mcpe_inventory.go:350-365 | records the held stack, or refuses; changes no cell |
| `PlayerInventory.PlayerInventory.ApplyStackRequestAction` | internal/server/mcpe_inventory.go:218-242 | dispatches an action; a refusal changes nothing |
| `PlayerInventory.PlayerInventory.Restore` | internal/server/mcpe_inventory.go:419-425 | everything but the prediction table is as in the snapshot |
| `PlayerInventory.PlayerInventory.RememberResponseStackIDs` | internal/server/mcpe_inventory.go:539-557 | the table after recording the changes under the request ID and its negation |
| `PlayerInventory.PlayerInventory.ApplyItemStackRequest` | internal/server/mcpe_inventory.go:198-216 | the loop with snapshot and rollback is the request on values; a refused request leaves everything as it was |
| `PlayerInventory.PlayerInventory.ProcessItemStackRequests` | internal/server/mcpe_inventory.go:168-196 | the batch on values, its responses, whether one was refused and whether the held item changed |
| `PlayerInventory.PlayerInventory.SelectHotbarSlot` | internal/server/mcpe_inventory.go:66-97 | selects a matching hotbar slot and ignores any other |
| `ReplicationInvariant.PlayersAgree` | internal/server/mcpe_player_sync.go:170-205 | in every run from any consistent server, any two spawned players in the table agree: what one was sent about the other is the other's pose, metadata and held item |
| `ReplicationInvariant.NobodySpawnedIsConsistent` | internal/server/mcpe_session.go:106-165 | a server on which nobody is spawned is consistent, whatever its clients hold |
| `ReplicationInvariant.ServerHoldsNothing` | internal/server/mcpe_session.go:155-165 | if no client holds an item, none does after any run |
| `ReplicationInvariant.RunKeeps` | internal/server/mcpe_session.go:167-189 | every run of connections, packets and disconnections keeps the replica invariant |
| `ReplicationInvariant.HandleKeeps` | internal/server/mcpe_router.go:54-60 | every packet, in any state, keeps it |
| `ReplicationInvariant.InputKeeps` | internal/server/mcpe_player_sync.go:268-310 | an input packet, with its optional item request, keeps it |
| `ReplicationInvariant.LegacyMoveKeeps` | internal/server/mcpe_player_sync.go:312-338 | a legacy movement packet keeps it |
| `ReplicationInvariant.LeaveVehicleKeeps` | internal/server/mcpe_player_sync.go:393-401 | leaving a vehicle keeps it |
| `ReplicationInvariant.RequestsKeep` | internal/server/mcpe_inventory.go:168-196 | item requests keep it, telling peers exactly when the held item changed |
| `ReplicationInvariant.SelectKeeps` | internal/server/mcpe_inventory.go:66-97 | selecting a hotbar slot keeps it |
| `ReplicationInvariant.InitialiseKeeps` | internal/server/mcpe_world_sync.go:70-89 | becoming spawned keeps it: the new player is shown to all spawned players and they to it |
| `ReplicationInvariant.StartGameKeeps` | internal/server/mcpe_login_flow.go:102-131 | starting the game under a new runtime ID keeps it |
| `ReplicationInvariant.RemoveKeeps` | internal/server/mcpe_player_sync.go:67-109 | removing a player keeps it |
| `ReplicationInvariant.RadiusKeeps` | internal/server/mcpe_world_sync.go:10-41 | a chunk-radius request, which always leaves the spawned state, keeps it |
| `PlayerPackets.InputMoves` | internal/server/mcpe_player_sync.go:268-292 | after an input packet the player has exactly the packet's pose, velocity and on-ground flag, the flags that the input says, and the inventory after its request; nobody else changes |
| `PlayerPackets.InputIsSeen` | internal/server/mcpe_player_sync.go:268-310 | every other player in the game then sees that pose under the player's ID |
| `PlayerPackets.InputTells` | internal/server/mcpe_player_sync.go:294-308 | what exactly the others are sent: metadata, pose and velocity, each if it changed |
| `PlayerPackets.LegacyMoves` | internal/server/mcpe_player_sync.go:312-338 | the new pose and on-ground flag, as velocity the way that the player went, and what the others are sent |
| `PlayerPackets.LegacyMoveIsSeen` | internal/server/mcpe_player_sync.go:312-338 | every other player in the game sees the new pose |
| `PlayerPackets.LeavesVehicle` | internal/server/mcpe_player_sync.go:393-401 | the position is replaced, the angles stay, and the others are sent both |
| `PlayerPackets.LeavingVehicleIsSeen` | internal/server/mcpe_player_sync.go:393-401 | every other player in the game sees it |
| `PlayerPackets.NotSpawnedIsReset` | internal/server/mcpe_player_sync.go:275-277 | a player that is not spawned does not move and is told where it is |
| `PlayerPackets.SelectTells` | internal/server/mcpe_inventory.go:66-97 | the selected slot, and its item sent to the others |
| `PlayerPackets.SelectIsSeen` | internal/server/mcpe_inventory.go:66-97 | every other player in the game sees the item of the slot held |
| `PlayerPackets.WrongSlotIsReset` | internal/server/mcpe_inventory.go:66-97 | a wrong slot changes nothing, and the client is told what it holds |
| `PlayerPackets.RequestsTell` | internal/server/mcpe_inventory.go:168-196 | the inventory after the requests, and equipment for the others if and only if the held item changed |
| `PlayerPackets.RequestsAreSeen` | internal/server/mcpe_inventory.go:168-196 | every other player in the game sees what is then held |
| `PlayerPackets.InitialiseTellsOthers` | internal/server/mcpe_player_sync.go:170-196 | the others in the game are sent exactly the packets that show the player, with all their fields |
| `PlayerPackets.InitialiseTellsPlayer` | internal/server/mcpe_player_sync.go:170-196 | the player is sent those of each of the others |
| `PlayerPackets.StartsGame` | internal/server/mcpe_login_flow.go:102-131 | the new player: ID, identity, spawn position, metadata, state and table entry |
| `PlayerPackets.StartTellsOthers` | internal/server/mcpe_player_sync.go:143-152 | everybody in the table, and nobody else, gets the new list entry |
| `PlayerPackets.StartTellsPlayer` | internal/server/mcpe_player_sync.go:154-168 | the player gets the entries of exactly the clients in the table, and its own data |
| `PlayerPackets.DepartureTells` | internal/server/mcpe_player_sync.go:67-109 | the others in the game are sent exactly the two removals, and the client and its entry are gone |
| `PlayerPackets.RadiusLoads` | internal/server/mcpe_world_sync.go:10-41 | the state after a chunk-radius request, and the held item sent to the client |
| `PlayerPackets.ForeignPacketsAreIgnored` | internal/server/mcpe_player_sync.go:312-318 | packets for another ID, before the start of the game, or after the departure change nothing |
| `PlayerPackets.LoginAdvances` | internal/server/mcpe_login_flow.go:14-80 | the states of the login, in any state |
| `PlayerPackets.ConnectsFresh` | internal/server/mcpe_session.go:155-165 | what a new client has |
| `SightOfDeparted.RidOfAllIff` | internal/server/mcpe_player_sync.go:67-109 | in every run, a client never again sees a departed one under any ID it ever had, ID 0 included, if and only if it was not shown the departed under ID 0, and at the departure each other ID was announced to it or not shown to it, and the departed is not left in the table as spawned |
| `ZeroId.SeesZeroIff` | internal/server/mcpe_world_sync.go:70-77 | in every run a client sees ID 0 at the end exactly if it did at the start or a client that had not started the game became spawned while it was in the game |
| `ZeroId.StepShowsZeroIff` | internal/server/mcpe_player_sync.go:67-70 | one step brings ID 0 into sight exactly in that case, and no step takes it away |
| `ZeroId.InitialiseShowsZeroIff` | internal/server/mcpe_player_sync.go:170-196 | what becoming spawned makes of everybody's picture under ID 0 |
| `ZeroId.HandleKeepsSight` | internal/server/mcpe_router.go:54-60 | no packet but initialisation brings anybody into sight or out of it, under any ID |
| `SightOfDeparted.RidIff` | internal/server/mcpe_player_sync.go:67-109 | the same for one ID, from any consistent server |
| `Departures.DepartureIsFinal` | internal/server/mcpe_player_sync.go:67-109 | what each client sees, at any time after the departure, of any ID that the departed had, ID 0 included |
| `Departures.RemovalIsSeenBySpawned` | internal/server/mcpe_player_sync.go:67-109 | of all IDs of a leaving client exactly the current one disappears, if it is in the table, and exactly for the spawned players; a leave that is not registered shows nobody anything |
| `Departures.RunFollows` | internal/server/mcpe_router.go:54-60 | nothing that the others do changes what anybody sees of a silent client, except that it may still be shown if it is spawned in the table |
| `SightOfDeparted.IdsAreOwned` | internal/server/mcpe_login_flow.go:102-107 | no ID that a client ever had is ever had by another |
| `SightOfDeparted.CanBeShown` | internal/server/mcpe_world_sync.go:70-89 | a client that is left in the table as spawned can be shown to anybody who is connected or connects |
| `LeftBehind.LoadingWatcherIsNotTold` | internal/server/mcpe_world_sync.go:10-41 | a watcher that requests chunks before the other leaves sees it for ever |
| `LeftBehind.OldIdIsNotRemoved` | internal/server/mcpe_login_flow.go:61-80 | a client that starts the game again and leaves is seen for ever under its first ID, whose table entry stays |
| `LeftBehind.UnregisteredLeaveIsSilent` | internal/server/mcpe_player_sync.go:67-76 | a client that fails to start the game again leaves without any effect, and is seen for ever |
| `LeftBehind.UnstartedClientStaysInSight` | internal/server/mcpe_world_sync.go:70-77 | a client that becomes spawned before it starts the game is seen under ID 0 whatever happens then, its own normal departure included |
| `LeftBehind.TwoPlayersCanMeet` | internal/server/mcpe_world_sync.go:70-89 | from every consistent server two new clients can join, register and see each other |
| `LeftBehind.JoiningSpawns` | internal/server/mcpe_login_flow.go:102-131 | a new client that follows the protocol ends up registered under a new ID and spawned, and the others are as before |
| `ReplicationInvariant.BroadcastMoves` | internal/server/mcpe_player_sync.go:403-405 | a packet about a player changes what its watchers see of it, and nothing else |
| `ReplicationInvariant.InSpawnedPeers` | internal/server/mcpe_player_sync.go:123-135 | the recipients are exactly the other spawned players of the table |
| `ReplicationInvariant.PlayersAreSorted` | internal/server/mcpe_player_sync.go:137-141 | recipients are sorted by the runtime IDs that they have now, also when one is registered twice |
| `Replicas.UpdateReportsChanges` | internal/server/mcpe_player_sync.go:414-474 | an update that reports no change made none, so not sending metadata is safe |
| `Replicas.SetFlagIs` | internal/server/mcpe_player_sync.go:456-474 | setting a flag changes that bit of the right flag word and no other, and reports exactly whether it changed |
| `Replicas.UpdateIs` | internal/server/mcpe_player_sync.go:414-432 | an input sets the sneaking flag as it says and every other flag as its last toggle says |
| `Replicas.LookTwice` | internal/server/mcpe_player_sync.go:198-205 | receiving a packet twice is receiving it once, so a player registered twice does no harm |
| `PlayerHub.PlayerHub.ListPlayers` | internal/server/mcpe_player_sync.go:111-141 | the players sorted by current runtime ID, once per table entry, optionally without one and only spawned ones |
| `PlayerHub.PlayerHub.Connect` | internal/server/mcpe_session.go:155-165 | a new client joins the handler's clients and keeps the invariant |
| `PlayerHub.PlayerHub.WritePacketToClients` | internal/server/mcpe_player_sync.go:198-205 | the logs after writing to each recipient |
| `PlayerHub.PlayerHub.SpawnToInitialisedPlayers` | internal/server/mcpe_player_sync.go:170-183 | the logs after both loops over the peers |
| `PlayerHub.PlayerHub.HandleSetLocalPlayerAsInitialised` | internal/server/mcpe_world_sync.go:70-89 | ignores a foreign runtime ID, otherwise becomes spawned and exchanges spawns |
| `PlayerHub.PlayerHub.ProcessItemStackRequests` | internal/server/mcpe_inventory.go:168-196 | the new inventory, equipment sent to the peers when the held item changed, and to the client when a request was refused |
| `PlayerHub.PlayerHub.HandleMobEquipment` | internal/server/mcpe_inventory.go:66-97 | the selected slot, and equipment sent when it is valid |
| `PlayerHub.PlayerHub.HandlePlayerAuthInput` | internal/server/mcpe_player_sync.go:268-310 | item request first, then movement, metadata and their broadcasts |
| `PlayerHub.PlayerHub.HandleMovePlayer` | internal/server/mcpe_player_sync.go:312-338 | a spawned player takes the new pose and its peers are told; any other is sent its own pose back |
| `PlayerHub.PlayerHub.HandleLeaveVehicle` | internal/server/mcpe_player_sync.go:393-401 | the new position and its broadcast |
| `PlayerHub.PlayerHub.StartGame` | internal/server/mcpe_login_flow.go:102-131 | new runtime ID, fresh player state, registration, list packets and state, in that order |
| `PlayerHub.PlayerHub.RemovePlayer` | internal/server/mcpe_player_sync.go:67-109 | removes a registered player and tells the spawned ones |
| `PlayerHub.PlayerHub.HandlePacket` | internal/server/mcpe_session.go:167-179 | dispatches any packet in any state; a disconnected client's packets change nothing |
| `ConcurrentJoin.JoinedClientsSeeEachOther` | internal/server/mcpe_world_sync.go:70-89 | in every interleaving two registered clients that both finished joining were shown to each other |
| `ConcurrentJoin.ListedFirstIff` | internal/server/mcpe_player_sync.go:143-183 | in every interleaving a spawn packet comes after a player-list entry for the same player at the same recipient if and only if the client whose initialisation wrote it was registered |
| `JoinRuns.UnlistedSpawn` | internal/server/mcpe_world_sync.go:70-77 | a run in which a client that has not started the game is shown a player, and shown to it, without any list entry |
| `JoinRuns.LeftPlayerIsShown` | internal/server/mcpe_player_sync.go:170-176 | a run in which a player is shown after its removal was written |
| `ConcurrentJoin.RunKeepsInv` | internal/server/mcpe_player_sync.go:49-65 | the invariant behind both is kept by every run |
| `PalettedStorage.StorageRoundTrip` | internal/server/chunk_publisher.go:280-330 | the encoded storage decodes to the list, leaving what follows untouched, exactly when it is non-empty with at most 65536 distinct values |
| `PalettedStorage.DecodeEncoded` | internal/server/chunk_publisher_test.go:182-226 | what the reference decoder makes of any encoded non-empty list |
| `PalettedStorage.DecodedIsExactIff` | internal/server/chunk_publisher.go:293-307 | 16-bit indices are exact if and only if there are at most 65536 distinct values |
| `PalettedStorage.PaletteHasExactlyTheValues` | internal/server/chunk_publisher.go:293-307 | the palette has the values of the list and no others |
| `PalettedStorage.PaletteIsDistinct` | internal/server/chunk_publisher.go:293-307 | no palette entry occurs twice |
| `PalettedStorage.UnpackWords` | internal/server/chunk_publisher.go:318-330 | shifting and masking the packed words gives all indices back, whatever the padding |
| `PalettedStorage.WordsFit` | internal/server/chunk_publisher.go:318-330 | every packed word fits in 32 bits |
| `PalettedStorage.WidthFits` | internal/server/chunk_publisher.go:309-316 | every index fits the chosen width |
| `PalettedStorage.WidthIsLeast` | internal/server/chunk_publisher.go:309-316 | the chosen width has room, and no smaller one of the nine has |
| `PalettedStorage.HeaderIs` | internal/server/chunk_publisher.go:283-284 | the header is the width and the bit for network encoding |
| `PalettedStorage.WordBytesAre` | internal/server/chunk_publisher.go:327-329 | a word is four bytes, the lowest first |
| `PalettedStorage.PaletteIndices` | internal/server/chunk_publisher.go:293-307 | the loop with its lookup map gives the palette and the positions in it |
| `PalettedStorage.PaletteBits` | internal/server/chunk_publisher.go:309-316 | the least of the nine widths with room for the count |
| `PalettedStorage.PackIndices` | internal/server/chunk_publisher.go:318-330 | or-ing shifted indices into words lays them side by side |
| `PalettedStorage.WritePackedIndices` | internal/server/chunk_publisher.go:318-330 | the words as little-endian bytes |
| `PalettedStorage.EncodePalettedStorage` | internal/server/chunk_publisher.go:280-291 | appends exactly the encoded storage to the buffer |
| `Varint.VaruintRoundTrip` | internal/network/mcpe/codec.go:99-112 | unsigned varints decode to what was written |
| `Varint.VarintRoundTrip` | internal/server/chunk_publisher.go:280-291 | zigzag varints decode to what was written |
| `Varint.VaruintBytesAre` | internal/network/mcpe/codec.go:102-104 | seven bits to a byte, lowest first, with a continuation bit on all but the last |
| `Varint.VarintBytesAre` | internal/server/chunk_publisher.go:280-291 | the sign of a signed number is its lowest bit |
| `Chunks.BlocksAreDense` | internal/world/types.go:135-178 | in every run reading a block gives what the last write to its position left, or air |
| `Chunks.BiomesAreDense` | internal/world/types.go:180-206 | in every run reading a biome gives what the last write or fill left |
| `Chunks.RunsAreTidy` | internal/world/types.go:135-206 | in every run no air, no empty layer and no default biome is stored |
| `Chunks.SetThenGet` | internal/world/types.go:135-178 | a write changes its own position and no other |
| `Chunks.SetBiomeThenGet` | internal/world/types.go:185-206 | a biome write changes its own position and no other |
| `Chunks.PositionsAreDistinct` | internal/world/types.go:229-235 | sub-chunk index and offset together are injective, at negative heights too |
| `Chunks.BiomePositionsAreDistinct` | internal/world/types.go:294-296 | the biome offset is injective over the dimension |
| `Chunks.BlockOffsetIsOr` | internal/world/types.go:307-309 | the offset is the bitwise or of the shifted fields |
| `Chunks.BiomeOffsetIsOr` | internal/world/types.go:294-296 | the biome offset is the bitwise or of index and block offset |
| `Chunks.SubIndexInRange` | internal/world/types.go:229-235 | heights of the dimension have an index, and the index and remainder give the height back |
| `Chunks.SubChunksCover` | internal/world/types.go:67-84 | the sub-chunks reach from the bottom to the top, and an empty range means the overworld |
| `ChunkSummaries.EmptyIffAllAir` | internal/world/types.go:237-242 | a sub-chunk is reported empty if and only if all its positions are air on all layers |
| `ChunkSummaries.LayerCountIs` | internal/world/types.go:244-255 | the layer count is one past the highest layer that is not all air |
| `ChunkSummaries.ColumnTopIs` | internal/world/types.go:257-270 | the column top is the greatest height that is not air, or the bottom |
| `ChunkStore.ChunkStore.SetRuntimeID` | internal/world/types.go:135-155 | the write on values; an out-of-range position is refused and changes nothing |
| `ChunkStore.ChunkStore.DeleteRuntimeID` | internal/world/types.go:272-282 | removes a block, and its layer with the last block |
| `ChunkStore.ChunkStore.FillBiomeID` | internal/world/types.go:180-183 | the fill on values |
| `ChunkStore.ChunkStore.SetBiomeID` | internal/world/types.go:185-196 | the biome write on values; an out-of-range position is refused |
| `ChunkStore.ChunkStore.IsSubChunkEmpty` | internal/world/types.go:237-242 | empty if and only if all air |
| `ChunkStore.ChunkStore.HighestFilledSubChunk` | internal/world/types.go:208-215 | the greatest index that is not all air, or 0 |
| `ChunkStore.ChunkStore.LayerCount` | internal/world/types.go:244-255 | the loop over the map's keys computes the layer count, whatever their order |
| `ChunkStore.ChunkStore.HighestBlockY` | internal/world/types.go:257-270 | skipping empty sub-chunks finds the same column top as looking at every height |
| `SubChunks.SubChunkRoundTrip` | internal/server/chunk_publisher.go:240-262 | decoding an encoded sub-chunk gives, at position `x<<8 + z<<4 + y`, the block of the chunk on every encoded layer, and all other layers are air there |
| `SubChunks.NumberIsHeightIff` | internal/server/chunk_publisher.go:245-245 | sixteen times the decoded number is the lowest height of the sub-chunk if and only if that fits the signed byte, and always in the overworld |
| `SubChunks.BiomesRoundTrip` | internal/server/chunk_publisher.go:264-278 | decoding the biome payload gives the biome of every position of every sub-chunk |
| `SubChunks.EncodingEndsIff` | internal/server/chunk_publisher.go:246-248 | the loop with its `uint8` counter ends if and only if no position of the sub-chunk has a block on layer 255 |
| `SubChunks.EncodingMayNotEnd` | internal/server/chunk_publisher.go:240-250 | in a new chunk one block on layer 255, at any position, gives 256 layers and an encoding that does not end |
| `SubChunks.EncodeBlockStorage` | internal/server/chunk_publisher.go:252-262 | appends the encoded blocks of one layer |
| `SubChunks.EncodeSubChunk` | internal/server/chunk_publisher.go:240-250 | version, count, height and layers, whenever the encoding ends |
| `SubChunks.EncodeBiomes` | internal/server/chunk_publisher.go:264-278 | the encoded biomes of all sub-chunks in order |
| `HeightMaps.SubChunkHeightMap` | internal/server/chunk_publisher.go:214-238 | too high if and only if all tops lie in higher sub-chunks, too low if and only if in lower ones, otherwise all tops relative to the sub-chunk, clamped to -1..16 |
| `HeightMaps.RelativeTopIs` | internal/server/chunk_publisher.go:222-231 | 16 exactly for tops in higher sub-chunks, -1 exactly for lower ones, otherwise the height within |
| `ChunkRing.ChunkPositions` | internal/server/chunk_publisher.go:332-352 | for every centre, coordinates that wrap included, and every radius: a list if and only if the 32-bit capacity is not negative and the radius is not the largest; the list has each position of the square exactly once, nothing else, by non-decreasing Chebyshev distance; otherwise which failure |
| `ChunkRing.CapacityIsCountBelow` | internal/server/chunk_publisher.go:333-333 | up to radius 23169 the capacity is the number of positions, and at 23170 it is negative |
| `ChunkRing.LoopEndsIff` | internal/server/chunk_publisher.go:334-334 | the ring counter gets past the radius if and only if that is not the largest `int32` |
| `BatchCodec.BatchRoundTrip` | internal/network/mcpe/codec.go:99-186 | decoding an encoded batch gives its packets, or too-many-packets exactly above the limit, and both sides end in the same stream state |
| `BatchCodec.StreamRoundTrip` | internal/network/mcpe/codec.go:99-186 | every sequence of batches, with settings changing in between, is received exactly, and counters and keystream positions stay equal |
| `BatchCodec.StreamCounts` | internal/network/mcpe/codec.go:232-245 | the counter counts the batches that were sent and nothing else |
| `BatchCodec.SessionRoundTrip` | internal/network/mcpe/codec.go:205-230 | from the start of a session, both counters are the number of batches |
| `BatchCodec.TamperedChecksumIsRefused` | internal/network/mcpe/codec.go:251-270 | a batch whose last eight bytes were changed is refused |
| `BatchCodec.SealIs` | internal/network/mcpe/codec.go:232-245 | what is encrypted is the body and the first eight bytes of the hash of the counter, as eight bytes with the lowest first, the body and the key |
| `BatchCodec.SealRefusedIff` | internal/network/mcpe/codec.go:251-270 | a body with any eight bytes after it is refused if and only if these are not that hash for the receiver's counter and key |
| `BatchCodec.ReplayRefusedIff` | internal/network/mcpe/codec.go:251-270 | a body sealed at another point of the session, or under another key, is refused if and only if the two hashes differ in their first eight bytes |
| `BatchCodec.CipherIs` | internal/network/mcpe/codec.go:243-249 | each byte is combined with the keystream byte of its place in the session |
| `BatchCodec.WireIs` | internal/network/mcpe/codec.go:99-129 | header byte, algorithm marker and body of an encoded batch, by compression, threshold and encryption |
| `BatchCodec.FramesAre` | internal/network/mcpe/codec.go:100-108 | each packet is its length and its bytes |
| `BatchCodec.RefusedIff` | internal/network/mcpe/codec.go:131-164 | when a batch is refused for its header or its marker |
| `BatchCodec.BadDataIff` | internal/network/mcpe/codec.go:159-163 | when a body is refused because it cannot be decompressed |
| `BatchCodec.TooShortIff` | internal/network/mcpe/codec.go:251-254 | a batch too short for a checksum is refused and not counted; every other one is counted |
| `BatchCodec.DecryptEncrypted` | internal/network/mcpe/codec.go:232-270 | decryption and verification undo encryption and advance the state alike |
| `BatchCodec.FramesRoundTrip` | internal/network/mcpe/codec.go:99-112 | length-framed packets are read back exactly |
| `BatchCodec.PackRoundTrip` | internal/network/mcpe/codec.go:113-186 | optional compression within the limit is undone |
| `CodecState.CryptState.XorKeyStream` | internal/network/mcpe/codec.go:247-249 | the loop applies the keystream from the current position and moves past the data |
| `CodecState.CryptState.Encrypt` | internal/network/mcpe/codec.go:232-245 | the encrypted bytes and the new state |
| `CodecState.CryptState.Verify` | internal/network/mcpe/codec.go:251-270 | accepts exactly the checksum of the counter; short data leaves the counter alone |
| `CodecState.CryptState.Decrypt` | internal/network/mcpe/codec.go:247-270 | the decrypted body or the error, and the new state |
| `CodecState.Codec.EncodeBatch` | internal/network/mcpe/codec.go:99-129 | the bytes of the batch and the new outgoing state; a failed compression changes nothing |
| `CodecState.Codec.DecodeBatch` | internal/network/mcpe/codec.go:131-186 | the packets or the error, and the new incoming state |
| `DownloadQueue.DownloadIsExact` | internal/resourcepack/resourcepack.go:166-223 | at any point what was sent and what is pending are together exactly the download of a selection without duplicates, so at the end it was sent exactly |
| `DownloadQueue.DownloadTakes` | internal/resourcepack/resourcepack.go:193-223 | all is delivered exactly after one accepted request per chunk, and one for an empty pack |
| `DownloadQueue.ReplyIsFrontOfPending` | internal/resourcepack/resourcepack.go:193-223 | a reply is the front of what is pending, an accepted request leaves one fewer, a refused one leaves all |
| `DownloadQueue.RunSendsPending` | internal/resourcepack/resourcepack.go:193-223 | the same over every run of requests |
| `DownloadQueue.SelectionIs` | internal/resourcepack/resourcepack.go:166-191 | the selection is duplicate-free and in range and, on success, exactly the requested packs; it fails if and only if a request matches none |
| `DownloadQueue.BeginIsSound` | internal/resourcepack/resourcepack.go:166-191 | a successful begin sends the first pack's information and leaves the rest pending |
| `DownloadQueue.ChunksCarryData` | internal/resourcepack/resourcepack.go:97-119 | the chunks of a pack concatenate to its data |
| `DownloadQueue.ChunkCountIs` | internal/resourcepack/resourcepack.go:97-119 | a pack is sent in as many chunks as its size needs, and in one when it is empty |
| `DownloadQueue.AnnouncedCountIff` | internal/resourcepack/resourcepack.go:76-95 | the announced count is the number of chunks if and only if the pack has data and fewer than 2^32 chunks |
| `DownloadQueue.EmptyPackIsOneChunk` | internal/resourcepack/resourcepack.go:76-119 | an empty pack announces no chunk and is sent in one |
| `DownloadQueue.LargestPackAnnouncesNothing` | internal/resourcepack/resourcepack.go:76-95 | a pack of exactly 2^32 chunks announces none |
| `DownloadQueue.PackIsDelivered` | internal/resourcepack/resourcepack.go:76-119 | in the download each pack's information is followed by chunks that carry exactly its data, in order and when written at their offsets, and then by the next pack's |
| `DownloadQueue.ChunksDescribeThemselves` | internal/resourcepack/resourcepack.go:97-119 | each chunk names the pack, its own number and the number of bytes sent before it, and carries the pack's bytes from there on |
| `DownloadQueue.PackIsAssembled` | internal/resourcepack/resourcepack.go:97-119 | writing each chunk at the offset it names gives the pack's data |
| `DownloadQueue.InfoDescribes` | internal/resourcepack/resourcepack.go:86-95 | the fields of the announcement |
| `DownloadQueue.AnsweredIff` | internal/resourcepack/resourcepack.go:193-206 | a request is answered if and only if it names the current pack and its next chunk |
| `DownloadQueue.MatchesIff` | internal/resourcepack/resourcepack.go:232-249 | a request names a pack by UUID, or by UUID and version |
| `DownloadQueue.NewQueueIs` | internal/resourcepack/resourcepack.go:129-134 | nothing selected, and chunks of 128 KiB |
| `DownloadState.DownloadState.FindPack` | internal/resourcepack/resourcepack.go:232-249 | the first pack that matches UUID and, if given, version |
| `DownloadState.DownloadState.Begin` | internal/resourcepack/resourcepack.go:166-191 | the selection loop is the begin on values, also when it fails |
| `DownloadState.DownloadState.HandleChunkRequest` | internal/resourcepack/resourcepack.go:193-223 | the request on values; a refused one changes nothing |
| `Shutdown.ShutdownIsSafe` | internal/network/raknet/server.go:64-86 | in every interleaving the wait group counts the unfinished sessions, and when the first close has returned the accept loop and all handlers have ended |
| `Shutdown.NoRegistrationAfterClose` | internal/network/raknet/server.go:125-135 | once closed the server stays closed and no run registers a session |
| `Shutdown.NeverStuck` | internal/network/raknet/server.go:64-86 | while a close has not returned, some step is possible that is neither a new connection nor a new call, nor the return of a handler whose connection was not closed |
| `Shutdown.HandlersAreHungUp` | internal/network/raknet/server.go:71-82 | when the first close starts to wait, it has closed the connection of every session whose handler may still run |
| `Shutdown.CloseReturns` | internal/network/raknet/server.go:64-86 | a run without new connections, failed accepts and new calls has a bounded number of steps, and when nothing is left to happen but returns of handlers that were not hung up, every close has returned |
| `Shutdown.StepDecreases` | internal/network/raknet/server.go:64-149 | every such step makes the bound smaller |
| `Shutdown.LaterCloseDoesNotWaitForSessions` | internal/network/raknet/server.go:64-86 | a run in which a later close returns while a handler is running |
| `Shutdown.RunKeepsInv` | internal/network/raknet/server.go:99-149 | accepts, registrations, session ends and closes keep the invariant behind them |
| `CommandLine.LineRoundTrip` | internal/command/command.go:188-208 | parsing a written line gives the label in lower case, arguments and raw arguments back, with or without slash, empty arguments included; bare arguments may hold any white space but blanks, except at the ends of the line |
| `CommandLine.SecondSlashIsStripped` | internal/command/command.go:226-228 | a second slash before the label makes no difference |
| `CommandLine.ParseFailsIff` | internal/command/command.go:188-208 | a line fails if and only if it has a label and the quotes of its arguments are not closed |
| `CommandLine.TrimIs` | internal/command/command.go:189-189 | trimming takes exactly the white space at both ends |
| `CommandLine.CharactersAre` | internal/command/command.go:269-276 | which characters separate and which group |
| `CommandLine.SplitWrittenArgs` | internal/command/command.go:241-293 | splitting written arguments gives exactly their values, in any mixture of quoting styles |
| `CommandLine.SucceedsIffBalanced` | internal/command/command.go:241-293 | the scanner succeeds if and only if the text is a sequence of unquoted characters and complete quoted groups |
| `CommandLine.ArgumentsAre` | internal/command/command.go:241-293 | the arguments of any such text are the values of its words between blanks, quotes and escapes taken away |
| `CommandLine.SplitArguments` | internal/command/command.go:241-293 | the loop over builder, quote and escape state computes the split |

## Left out

- Login parsing, JWT, the ECDH handshake and network settings: library cryptography and parsers.
- Packet field layouts, `EncodePacket` and `DecodePacket`: defined by the protocol library.
- Block-state hashes and NBT: a library encoder; runtime IDs are opaque numbers.
- Floating-point validation and normalisation of coordinates and angles.
- Configuration, server list text, world generation, the command registry and its commands, the tick loop, console and logging.
- Skins, start-game values and chat: copying of data.
- Grouping and sorting of the response's container information, inventory content and slot packets: easy members over the modelled changes.
- Failing writes: a failed write stops a fan-out half way; all writes succeed here.
- Level-chunk and sub-chunk packets around the encoded payloads, and the chunk provider.
- Zero chunk size: `Pack.Chunk` replaces it by a default, but a queue never has it.
- DownloadIsExact: packs have at most 2^32 chunks, since the chunk index is a 32-bit number.
- StorageRoundTrip: says nothing of palettes with more entries than the largest `int32`, whose length does not fit its field.
- JoinedClientsSeeEachOther: a client disconnects only between packets, and each client starts the game once.
- PlayersAgree: runtime IDs are unbounded, where the source counts in 64 bits.
- CloseReturns: speaks of runs in which nobody connects or calls from outside; that the scheduler runs every goroutine in the end is not modelled.
- NeverStuck: takes for granted, as CloseReturns does, that a session handler returns once its connection was closed; that is up to the handler.
