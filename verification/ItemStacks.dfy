/**
 The item-stack transaction engine as operations on values: an inventory is 38 cells
 (36 main cells, the cursor and the offhand), a selected hotbar slot, the next stack
 network ID and the table of stack IDs that clients may predict.
 */
module ItemStacks {
  import opened Numbers
  import opened Wrappers

  const MAIN_SLOTS := 36
  const HOTBAR_SLOTS := 9
  const CURSOR_CELL := 36
  const OFFHAND_CELL := 37
  const CELL_COUNT := 38
  const MAX_STACK_COUNT := 64
  const TABLE_RESET_LIMIT := 256

  // ---------- items ----------

  /** What makes two stacks mergeable: the item's network ID and all its other data, kept opaque. */
  datatype StackType = StackType(networkID: Int32, details: int)

  datatype Item = Item(kind: StackType, count: UInt16, stackNetworkID: Int32)

  const ZERO_ITEM := Item(StackType(0, 0), 0, 0)

  predicate IsEmpty(item: Item) {
    item.kind.networkID == 0 || item.count == 0
  }

  function StackId(item: Item): Int32 {
    if IsEmpty(item) then 0 else item.stackNetworkID
  }

  predicate SameStackType(a: Item, b: Item) {
    if IsEmpty(a) || IsEmpty(b) then IsEmpty(a) && IsEmpty(b) else a.kind == b.kind
  }

  predicate SameItem(a: Item, b: Item) {
    (IsEmpty(a) && IsEmpty(b)) || a == b
  }

  /** The stack that is left after `count` items leave `item`. */
  function Less(item: Item, count: Byte): Item
    requires count <= item.count
  {
    if item.count == count then ZERO_ITEM else item.(count := item.count - count)
  }

  // ---------- slot names ----------

  datatype Container =
    | Inventory
    | CombinedHotBarAndInventory
    | HotBar
    | Cursor
    | Offhand
    | OtherContainer(id: Byte)

  /** A name for a cell. Up to three names denote one main cell. */
  datatype Slot = Slot(container: Container, slot: Byte)

  predicate Resolvable(ref: Slot) {
    match ref.container
    case Inventory => ref.slot < MAIN_SLOTS
    case CombinedHotBarAndInventory => ref.slot < MAIN_SLOTS
    case HotBar => ref.slot < HOTBAR_SLOTS
    case Cursor => ref.slot == 0
    case Offhand => ref.slot == 0
    case OtherContainer(_) => false
  }

  predicate NamesMain(ref: Slot) {
    ref.container in {Inventory, CombinedHotBarAndInventory, HotBar}
  }

  function CellOf(ref: Slot): (k: nat)
    requires Resolvable(ref)
    ensures k < CELL_COUNT
  {
    if ref.container.Cursor? then CURSOR_CELL
    else if ref.container.Offhand? then OFFHAND_CELL
    else ref.slot
  }

  function AliasSlots(ref: Slot): seq<Slot> {
    if NamesMain(ref) then
      [Slot(Inventory, ref.slot), Slot(CombinedHotBarAndInventory, ref.slot)]
      + (if ref.slot < HOTBAR_SLOTS then [Slot(HotBar, ref.slot)] else [])
    else
      []
  }

  function NamesOf(ref: Slot): seq<Slot> {
    [ref] + AliasSlots(ref)
  }

  // ---------- requests ----------

  datatype Status =
    | OK
    | InvalidTransferAmount
    | FailedToValidateSrcSlot
    | InvalidSourceContainer
    | InvalidItemNetId
    | DstContainerAndSlotEqualToSrcContainerAndSlot
    | CannotPlaceItem
    | CannotDropItem
    | CannotDestroyItem
    | PlayerNotInCreativeMode
    | ActionRequestNotAllowed

  /** A slot as a request names it, with the stack network ID the client believes is there. */
  datatype SlotInfo = SlotInfo(ref: Slot, stackNetworkID: Int32)

  /** `Transfer` stands for the four actions take, place, place-in-container and take-out-of-container. */
  datatype Action =
    | Transfer(source: SlotInfo, destination: SlotInfo, count: Byte)
    | Swap(source: SlotInfo, destination: SlotInfo)
    | Drop(source: SlotInfo, count: Byte)
    | Destroy(source: SlotInfo, count: Byte)
    | MineBlock(hotbarSlot: Int32, stackNetworkID: Int32)
    | OtherAction

  type Changes = map<Slot, Item>

  /**
   A request, with the order in which the runtime will walk over the map of its changed
   slots; the language leaves that order open, so it is an input here.
   */
  datatype Request = Request(id: Int32, actions: seq<Action>, order: seq<Slot>)

  /** The order covers every slot that a request can change. */
  ghost predicate CoversAllSlots(order: seq<Slot>) {
    forall ref :: Resolvable(ref) ==> ref in order
  }

  datatype Response = Response(status: Status, requestID: Int32, changes: Changes)

  // ---------- the inventory ----------

  type Cells = s: seq<Item> | |s| == CELL_COUNT witness seq(CELL_COUNT, _ => ZERO_ITEM)
  type Table = map<Int32, map<Slot, Int32>>

  datatype Inv = Inv(cells: Cells, selected: Byte, nextStackID: Int32, table: Table)

  function EmptyInventory(): Inv {
    Inv(seq(CELL_COUNT, _ => ZERO_ITEM), 0, 1, map[])
  }

  function HeldItem(inv: Inv): Item {
    if inv.selected >= HOTBAR_SLOTS then ZERO_ITEM else inv.cells[inv.selected]
  }

  /** The ID that the next allocation hands out. */
  function FreshId(next: Int32): Int32 {
    if next < 1 then 1 else next
  }

  /** The item as it is stored, and the next stack ID afterwards. */
  function Normalise(next: Int32, item: Item): (Item, Int32) {
    if IsEmpty(item) then (ZERO_ITEM, next)
    else if item.stackNetworkID <= 0 then
      (item.(stackNetworkID := FreshId(next)), Increment(FreshId(next)))
    else if item.stackNetworkID >= next then (item, Increment(item.stackNetworkID))
    else (item, next)
  }

  function Store(inv: Inv, k: nat, item: Item): Inv
    requires k < CELL_COUNT
  {
    var (stored, next) := Normalise(inv.nextStackID, item);
    inv.(cells := inv.cells[k := stored], nextStackID := next)
  }

  // ---------- predicted IDs ----------

  /** The entry of the first of `names` that the table holds under `id`. */
  function FirstKnown(table: Table, id: Int32, names: seq<Slot>): Option<Int32> {
    if names == [] || id !in table then None
    else if names[0] in table[id] then Some(table[id][names[0]])
    else FirstKnown(table, id, names[1..])
  }

  function ResolveStackId(table: Table, id: Int32, ref: Slot): Option<Int32> {
    if id >= 0 then Some(id) else FirstKnown(table, id, NamesOf(ref))
  }

  /** One stack ID under each of several names. */
  function Named(names: seq<Slot>, id: Int32): map<Slot, Int32> {
    map name | name in names :: id
  }

  /** The recorded IDs after the slots of `order` that changed have been visited in turn. */
  function RecordedIds(changes: Changes, order: seq<Slot>): map<Slot, Int32> {
    if order == [] then map[]
    else
      var before := RecordedIds(changes, order[..|order| - 1]);
      var ref := order[|order| - 1];
      if ref in changes then before + Named(NamesOf(ref), StackId(changes[ref]))
      else before
  }

  function Remember(table: Table, id: Int32, changes: Changes, order: seq<Slot>): Table {
    if |changes| == 0 then table
    else
      var kept: Table := if |table| > TABLE_RESET_LIMIT then map[] else table;
      var slots := RecordedIds(changes, order);
      if id != 0 then kept[id := slots][Negate(id) := slots] else kept[id := slots]
  }

  // ---------- actions ----------

  datatype Checked = Found(ref: Slot, item: Item) | Bad(status: Status)

  function Verify(inv: Inv, info: SlotInfo): (r: Checked)
    ensures r.Found? ==> r.ref == info.ref && Resolvable(info.ref) && r.item == inv.cells[CellOf(info.ref)]
  {
    if info.ref.container.OtherContainer? then Bad(InvalidSourceContainer)
    else if !Resolvable(info.ref) then Bad(FailedToValidateSrcSlot)
    else
      var item := inv.cells[CellOf(info.ref)];
      match ResolveStackId(inv.table, info.stackNetworkID, info.ref)
      case None => Bad(InvalidItemNetId)
      case Some(expected) => if StackId(item) == expected then Found(info.ref, item) else Bad(InvalidItemNetId)
  }

  datatype Outcome = Done(inv: Inv, changes: Changes) | Refused(status: Status)

  /** Stores an item under a slot name and records what that name now shows. */
  function Put(inv: Inv, ref: Slot, item: Item, changes: Changes): (r: Outcome)
    requires Resolvable(ref)
    ensures r.Done?
  {
    var after := Store(inv, CellOf(ref), item);
    Done(after, changes[ref := after.cells[CellOf(ref)]])
  }

  /** Stores two items, the first before the second. */
  function PutBoth(inv: Inv, ref: Slot, item: Item, ref': Slot, item': Item, changes: Changes): Outcome
    requires Resolvable(ref) && Resolvable(ref')
  {
    var first := Put(inv, ref, item, changes);
    Put(first.inv, ref', item', first.changes)
  }

  /** A transfer between two slots that have passed the checks on their names and IDs. */
  function TransferBetween(inv: Inv, ref: Slot, ref': Slot, count: Byte, changes: Changes): Outcome
    requires Resolvable(ref) && Resolvable(ref')
  {
    var from, to := inv.cells[CellOf(ref)], inv.cells[CellOf(ref')];
    if IsEmpty(from) || from.count < count then Refused(InvalidTransferAmount)
    else if IsEmpty(to) then
      if count == from.count then
        PutBoth(inv, ref, ZERO_ITEM, ref', from, changes)
      else
        var id := FreshId(inv.nextStackID);
        PutBoth(inv.(nextStackID := Increment(id)), ref, Less(from, count),
                ref', from.(count := count, stackNetworkID := id), changes)
    else if !SameStackType(from, to) then Refused(CannotPlaceItem)
    else if (to.count + count) % 0x1_0000 > MAX_STACK_COUNT then Refused(CannotPlaceItem)
    else PutBoth(inv, ref, Less(from, count), ref', to.(count := (to.count + count) % 0x1_0000), changes)
  }

  function TransferStack(inv: Inv, source: SlotInfo, destination: SlotInfo, count: Byte, changes: Changes): Outcome {
    if count == 0 then Refused(InvalidTransferAmount)
    else
      var from := Verify(inv, source);
      if from.Bad? then Refused(from.status)
      else
        var to := Verify(inv, destination);
        if to.Bad? then Refused(to.status)
        else if from.ref == to.ref then Refused(DstContainerAndSlotEqualToSrcContainerAndSlot)
        else TransferBetween(inv, from.ref, to.ref, count, changes)
  }

  function SwapStacks(inv: Inv, source: SlotInfo, destination: SlotInfo, changes: Changes): Outcome {
    var from := Verify(inv, source);
    if from.Bad? then Refused(from.status)
    else
      var to := Verify(inv, destination);
      if to.Bad? then Refused(to.status)
      else if from.ref == to.ref then Refused(DstContainerAndSlotEqualToSrcContainerAndSlot)
      else PutBoth(inv, from.ref, to.item, to.ref, from.item, changes)
  }

  /** Dropping and destroying differ only in the status of a refusal. */
  function RemoveStack(inv: Inv, source: SlotInfo, count: Byte, refusal: Status, changes: Changes): Outcome {
    if count == 0 then Refused(InvalidTransferAmount)
    else
      var from := Verify(inv, source);
      if from.Bad? then Refused(from.status)
      else if IsEmpty(from.item) || from.item.count < count then Refused(refusal)
      else Put(inv, from.ref, Less(from.item, count), changes)
  }

  function AckMineBlock(inv: Inv, hotbarSlot: Int32, stackNetworkID: Int32, changes: Changes): Outcome {
    if hotbarSlot < 0 || hotbarSlot >= HOTBAR_SLOTS then Refused(FailedToValidateSrcSlot)
    else
      var held := Verify(inv, SlotInfo(Slot(Inventory, hotbarSlot), stackNetworkID));
      if held.Bad? then Refused(held.status) else Done(inv, changes[held.ref := held.item])
  }

  function ApplyAction(creative: bool, inv: Inv, action: Action, changes: Changes): Outcome {
    match action
    case Transfer(source, destination, count) => TransferStack(inv, source, destination, count, changes)
    case Swap(source, destination) => SwapStacks(inv, source, destination, changes)
    case Drop(source, count) => RemoveStack(inv, source, count, CannotDropItem, changes)
    case Destroy(source, count) =>
      if !creative then Refused(PlayerNotInCreativeMode)
      else RemoveStack(inv, source, count, CannotDestroyItem, changes)
    case MineBlock(hotbarSlot, stackNetworkID) => AckMineBlock(inv, hotbarSlot, stackNetworkID, changes)
    case OtherAction => Refused(ActionRequestNotAllowed)
  }

  function ApplyActions(creative: bool, inv: Inv, actions: seq<Action>, changes: Changes): Outcome
    decreases |actions|
  {
    if actions == [] then Done(inv, changes)
    else
      match ApplyAction(creative, inv, actions[0], changes)
      case Refused(status) => Refused(status)
      case Done(inv', changes') => ApplyActions(creative, inv', actions[1..], changes')
  }

  // ---------- requests, batches, runs ----------

  predicate Accepts(creative: bool, inv: Inv, request: Request) {
    ApplyActions(creative, inv, request.actions, map[]).Done?
  }

  function AfterRequest(creative: bool, inv: Inv, request: Request): Inv {
    match ApplyActions(creative, inv, request.actions, map[])
    case Refused(_) => inv
    case Done(after, changes) => after.(table := Remember(after.table, request.id, changes, request.order))
  }

  function Answer(creative: bool, inv: Inv, request: Request): Response {
    match ApplyActions(creative, inv, request.actions, map[])
    case Refused(status) => Response(status, request.id, map[])
    case Done(_, changes) => Response(OK, request.id, changes)
  }

  function AfterBatch(creative: bool, inv: Inv, requests: seq<Request>): Inv
    decreases |requests|
  {
    if requests == [] then inv
    else AfterBatch(creative, AfterRequest(creative, inv, requests[0]), requests[1..])
  }

  function Answers(creative: bool, inv: Inv, requests: seq<Request>): seq<Response>
    decreases |requests|
  {
    if requests == [] then []
    else [Answer(creative, inv, requests[0])]
         + Answers(creative, AfterRequest(creative, inv, requests[0]), requests[1..])
  }

  predicate AllOk(responses: seq<Response>) {
    forall i :: 0 <= i < |responses| ==> responses[i].status == OK
  }

  /** A held-slot packet for the inventory window; any other slot than a matching hotbar slot is ignored. */
  function AfterSelect(inv: Inv, slot: Byte, hotbarSlot: Byte): Inv {
    if hotbarSlot == slot && slot < HOTBAR_SLOTS then inv.(selected := slot) else inv
  }

  /** Everything a client can do to its inventory; a batch submits its requests one after the other. */
  datatype Event =
    | Submit(request: Request)
    | Select(slot: Byte, hotbarSlot: Byte)

  function AfterEvent(creative: bool, inv: Inv, event: Event): Inv {
    match event
    case Submit(request) => AfterRequest(creative, inv, request)
    case Select(slot, hotbarSlot) => AfterSelect(inv, slot, hotbarSlot)
  }

  function AfterRun(creative: bool, inv: Inv, run: seq<Event>): Inv
    decreases |run|
  {
    if run == [] then inv else AfterRun(creative, AfterEvent(creative, inv, run[0]), run[1..])
  }

  function Submissions(requests: seq<Request>): seq<Event> {
    if requests == [] then [] else [Submit(requests[0])] + Submissions(requests[1..])
  }

  lemma {:induction false} BatchIsRun(creative: bool, inv: Inv, requests: seq<Request>)
    ensures AfterBatch(creative, inv, requests) == AfterRun(creative, inv, Submissions(requests))
    decreases |requests|
  {
    if requests != [] {
      assert Submissions(requests)[1..] == Submissions(requests[1..]);
      BatchIsRun(creative, AfterRequest(creative, inv, requests[0]), requests[1..]);
    }
  }
}
