/**
 The stack-identity discipline: in every run, stacks that exist carry positive network IDs
 that no other cell carries and that lie below the next ID, hold 1 to 64 items, and a cell
 without items is the zero item.
 */
module ItemStackIdentity {
  import opened Numbers
  import opened ItemStacks

  ghost predicate GoodItem(item: Item, next: Int32) {
    item == ZERO_ITEM
    || (!IsEmpty(item) && item.count <= MAX_STACK_COUNT && 1 <= item.stackNetworkID < next)
  }

  ghost predicate UniqueIds(cells: Cells) {
    forall j, k :: 0 <= j < k < CELL_COUNT && StackId(cells[j]) == StackId(cells[k]) ==> StackId(cells[j]) == 0
  }

  ghost predicate WellFormed(inv: Inv) {
    && 1 <= inv.nextStackID
    && (forall k :: 0 <= k < CELL_COUNT ==> GoodItem(inv.cells[k], inv.nextStackID))
    && UniqueIds(inv.cells)
  }

  /** The action takes a part of a stack into an empty cell, so the part needs an ID of its own. */
  ghost predicate Splits(inv: Inv, action: Action) {
    && action.Transfer?
    && Resolvable(action.source.ref) && Resolvable(action.destination.ref)
    && SplitsBetween(inv, action.source.ref, action.destination.ref, action.count)
  }

  lemma PutBothGood(inv: Inv, ref: Slot, item: Item, ref': Slot, item': Item, changes: Changes)
    requires Resolvable(ref) && Resolvable(ref') && 1 <= inv.nextStackID
    requires GoodItem(item, inv.nextStackID) && GoodItem(item', inv.nextStackID)
    ensures PutBoth(inv, ref, item, ref', item', changes).inv
            == inv.(cells := inv.cells[CellOf(ref) := item][CellOf(ref') := item'])
  {
  }

  /** Two cells change; the IDs they hold afterwards are their old ones or a new one. */
  lemma TwoCellsChange(inv: Inv, next: Int32, a: nat, x: Item, b: nat, y: Item)
    requires WellFormed(inv) && inv.nextStackID <= next && a < CELL_COUNT && b < CELL_COUNT
    requires GoodItem(x, next) && GoodItem(y, next)
    requires a != b && StackId(x) == StackId(y) ==> StackId(x) == 0
    requires StackId(x) in {0, StackId(inv.cells[a]), StackId(inv.cells[b])}
    requires StackId(y) in {0, StackId(inv.cells[a]), StackId(inv.cells[b])} || StackId(y) >= inv.nextStackID
    ensures WellFormed(inv.(cells := inv.cells[a := x][b := y], nextStackID := next))
  {
  }

  /** Moving part of a stack into an empty cell. */
  lemma SplitKeepsIdentity(inv: Inv, ref: Slot, ref': Slot, count: Byte, changes: Changes)
    requires WellFormed(inv) && inv.nextStackID < INT32_MAX && Resolvable(ref) && Resolvable(ref')
    requires IsEmpty(inv.cells[CellOf(ref')]) && 0 < count < inv.cells[CellOf(ref)].count
    ensures var from, id := inv.cells[CellOf(ref)], inv.nextStackID;
            var after := PutBoth(inv.(nextStackID := id + 1), ref, Less(from, count),
                                 ref', from.(count := count, stackNetworkID := id), changes).inv;
            WellFormed(after) && after.nextStackID == id + 1
  {
  }

  /** The same after the last ID: the next ID wraps to a negative number. */
  lemma SplitAfterLastId(inv: Inv, ref: Slot, ref': Slot, count: Byte, changes: Changes)
    requires WellFormed(inv) && inv.nextStackID == INT32_MAX && Resolvable(ref) && Resolvable(ref')
    requires 0 < count < inv.cells[CellOf(ref)].count
    ensures var from := inv.cells[CellOf(ref)];
            PutBoth(inv.(nextStackID := INT32_MIN), ref, Less(from, count),
                    ref', from.(count := count, stackNetworkID := INT32_MAX), changes).inv.nextStackID == INT32_MIN
  {
  }

  /** Moving a whole stack into an empty cell. */
  lemma MoveKeepsIdentity(inv: Inv, ref: Slot, ref': Slot, changes: Changes)
    requires WellFormed(inv) && Resolvable(ref) && Resolvable(ref')
    requires IsEmpty(inv.cells[CellOf(ref')])
    ensures var after := PutBoth(inv, ref, ZERO_ITEM, ref', inv.cells[CellOf(ref)], changes).inv;
            WellFormed(after) && after.nextStackID == inv.nextStackID
  {
  }

  /** What is left of a stack, and the stack it is merged into. */
  lemma LessIsGood(item: Item, count: Byte, next: Int32)
    requires GoodItem(item, next) && count <= item.count
    ensures GoodItem(Less(item, count), next) && StackId(Less(item, count)) in {0, StackId(item)}
  {
  }

  lemma MoreIsGood(item: Item, count: Byte, next: Int32)
    requires GoodItem(item, next) && !IsEmpty(item) && item.count + count <= MAX_STACK_COUNT
    ensures var more := item.(count := item.count + count);
            GoodItem(more, next) && StackId(more) == StackId(item)
  {
  }

  /** Merging into a stack, possibly the same one under another name. */
  lemma MergeKeepsIdentity(inv: Inv, ref: Slot, ref': Slot, count: Byte, changes: Changes)
    requires WellFormed(inv) && Resolvable(ref) && Resolvable(ref')
    requires count <= inv.cells[CellOf(ref)].count
    requires !IsEmpty(inv.cells[CellOf(ref')]) && inv.cells[CellOf(ref')].count + count <= MAX_STACK_COUNT
    ensures var from, to := inv.cells[CellOf(ref)], inv.cells[CellOf(ref')];
            var after := PutBoth(inv, ref, Less(from, count), ref', to.(count := to.count + count), changes).inv;
            WellFormed(after) && after.nextStackID == inv.nextStackID
  {
    var a, b := CellOf(ref), CellOf(ref');
    var less, more := Less(inv.cells[a], count), inv.cells[b].(count := inv.cells[b].count + count);
    LessIsGood(inv.cells[a], count, inv.nextStackID);
    MoreIsGood(inv.cells[b], count, inv.nextStackID);
    PutBothGood(inv, ref, less, ref', more, changes);
    TwoCellsChange(inv, inv.nextStackID, a, less, b, more);
  }

  /** The guard of the branch that needs a new ID. */
  ghost predicate SplitsBetween(inv: Inv, ref: Slot, ref': Slot, count: Byte)
    requires Resolvable(ref) && Resolvable(ref')
  {
    IsEmpty(inv.cells[CellOf(ref')]) && count < inv.cells[CellOf(ref)].count
  }

  lemma SplitTransfer(inv: Inv, ref: Slot, ref': Slot, count: Byte, changes: Changes)
    requires WellFormed(inv) && Resolvable(ref) && Resolvable(ref') && count > 0
    requires SplitsBetween(inv, ref, ref', count)
    ensures var after := TransferBetween(inv, ref, ref', count, changes).inv;
            && (WellFormed(after) <==> inv.nextStackID < INT32_MAX)
            && (WellFormed(after) ==> after.nextStackID == inv.nextStackID + 1)
  {
    if inv.nextStackID < INT32_MAX {
      SplitKeepsIdentity(inv, ref, ref', count, changes);
    } else {
      SplitAfterLastId(inv, ref, ref', count, changes);
    }
  }

  lemma TransferIsSplit(inv: Inv, ref: Slot, ref': Slot, count: Byte, changes: Changes)
    requires Resolvable(ref) && Resolvable(ref') && SplitsBetween(inv, ref, ref', count)
    requires TransferBetween(inv, ref, ref', count, changes).Done?
    ensures var from, id := inv.cells[CellOf(ref)], FreshId(inv.nextStackID);
            && !IsEmpty(from)
            && TransferBetween(inv, ref, ref', count, changes)
               == PutBoth(inv.(nextStackID := Increment(id)), ref, Less(from, count),
                          ref', from.(count := count, stackNetworkID := id), changes)
  {
  }

  lemma TransferIsMove(inv: Inv, ref: Slot, ref': Slot, count: Byte, changes: Changes)
    requires Resolvable(ref) && Resolvable(ref') && IsEmpty(inv.cells[CellOf(ref')])
    requires TransferBetween(inv, ref, ref', count, changes).Done?
    requires !SplitsBetween(inv, ref, ref', count)
    ensures !IsEmpty(inv.cells[CellOf(ref)])
    ensures TransferBetween(inv, ref, ref', count, changes)
            == PutBoth(inv, ref, ZERO_ITEM, ref', inv.cells[CellOf(ref)], changes)
  {
  }

  lemma TransferIsMerge(inv: Inv, ref: Slot, ref': Slot, count: Byte, changes: Changes)
    requires Resolvable(ref) && Resolvable(ref') && !IsEmpty(inv.cells[CellOf(ref')])
    requires inv.cells[CellOf(ref')].count <= MAX_STACK_COUNT
    requires TransferBetween(inv, ref, ref', count, changes).Done?
    ensures var from, to := inv.cells[CellOf(ref)], inv.cells[CellOf(ref')];
            && !IsEmpty(from) && count <= from.count && from.kind == to.kind
            && to.count + count <= MAX_STACK_COUNT
            && TransferBetween(inv, ref, ref', count, changes)
               == PutBoth(inv, ref, Less(from, count), ref', to.(count := to.count + count), changes)
  {
  }

  lemma WholeTransfer(inv: Inv, ref: Slot, ref': Slot, count: Byte, changes: Changes)
    requires WellFormed(inv) && Resolvable(ref) && Resolvable(ref') && count > 0
    requires TransferBetween(inv, ref, ref', count, changes).Done?
    requires !SplitsBetween(inv, ref, ref', count)
    ensures var after := TransferBetween(inv, ref, ref', count, changes).inv;
            WellFormed(after) && after.nextStackID == inv.nextStackID
  {
    if IsEmpty(inv.cells[CellOf(ref')]) {
      TransferIsMove(inv, ref, ref', count, changes);
      MoveKeepsIdentity(inv, ref, ref', changes);
    } else {
      TransferIsMerge(inv, ref, ref', count, changes);
      MergeKeepsIdentity(inv, ref, ref', count, changes);
    }
  }

  lemma SwapKeepsIdentity(inv: Inv, source: SlotInfo, destination: SlotInfo, changes: Changes)
    requires WellFormed(inv)
    requires SwapStacks(inv, source, destination, changes).Done?
    ensures WellFormed(SwapStacks(inv, source, destination, changes).inv)
    ensures SwapStacks(inv, source, destination, changes).inv.nextStackID == inv.nextStackID
  {
    var a, b := CellOf(source.ref), CellOf(destination.ref);
    PutBothGood(inv, source.ref, inv.cells[b], destination.ref, inv.cells[a], changes);
    TwoCellsChange(inv, inv.nextStackID, a, inv.cells[b], b, inv.cells[a]);
  }

  lemma RemoveKeepsIdentity(inv: Inv, source: SlotInfo, count: Byte, refusal: Status, changes: Changes)
    requires WellFormed(inv)
    requires RemoveStack(inv, source, count, refusal, changes).Done?
    ensures WellFormed(RemoveStack(inv, source, count, refusal, changes).inv)
    ensures RemoveStack(inv, source, count, refusal, changes).inv.nextStackID == inv.nextStackID
  {
  }

  /**
   An accepted action keeps the discipline exactly when it does not have to split a stack
   after the last `int32` ID, and then uses up one ID for a split and none otherwise. This covers transfers between
   two names of one cell.
   */
  lemma ActionKeepsIdentity(creative: bool, inv: Inv, action: Action, changes: Changes)
    requires WellFormed(inv)
    requires ApplyAction(creative, inv, action, changes).Done?
    ensures var after := ApplyAction(creative, inv, action, changes).inv;
            var exhausted := Splits(inv, action) && inv.nextStackID == INT32_MAX;
            && (WellFormed(after) <==> !exhausted)
            && (!exhausted ==> after.nextStackID == inv.nextStackID + if Splits(inv, action) then 1 else 0)
  {
    match action
    case Transfer(source, destination, count) =>
      if Splits(inv, action) {
        SplitTransfer(inv, source.ref, destination.ref, count, changes);
      } else {
        WholeTransfer(inv, source.ref, destination.ref, count, changes);
      }
    case Swap(source, destination) => SwapKeepsIdentity(inv, source, destination, changes);
    case Drop(source, count) => RemoveKeepsIdentity(inv, source, count, CannotDropItem, changes);
    case Destroy(source, count) => RemoveKeepsIdentity(inv, source, count, CannotDestroyItem, changes);
    case MineBlock(_, _) =>
  }

  /** The number of splits among actions that are applied one after the other. */
  ghost function SplitsIn(creative: bool, inv: Inv, actions: seq<Action>, changes: Changes): nat
    decreases |actions|
  {
    if actions == [] then 0
    else
      match ApplyAction(creative, inv, actions[0], changes)
      case Refused(_) => 0
      case Done(inv', changes') =>
        (if Splits(inv, actions[0]) then 1 else 0) + SplitsIn(creative, inv', actions[1..], changes')
  }

  lemma {:induction false} ActionsKeepIdentity(creative: bool, inv: Inv, actions: seq<Action>, changes: Changes)
    requires WellFormed(inv) && inv.nextStackID + SplitsIn(creative, inv, actions, changes) <= INT32_MAX
    requires ApplyActions(creative, inv, actions, changes).Done?
    ensures var after := ApplyActions(creative, inv, actions, changes).inv;
            WellFormed(after) && after.nextStackID == inv.nextStackID + SplitsIn(creative, inv, actions, changes)
    decreases |actions|
  {
    if actions != [] {
      ActionKeepsIdentity(creative, inv, actions[0], changes);
      var next := ApplyAction(creative, inv, actions[0], changes);
      ActionsKeepIdentity(creative, next.inv, actions[1..], next.changes);
    }
  }

  ghost function SplitsOf(creative: bool, inv: Inv, event: Event): nat {
    if event.Submit? && Accepts(creative, inv, event.request)
    then SplitsIn(creative, inv, event.request.actions, map[]) else 0
  }

  /** The number of splits in the accepted requests of a run. */
  ghost function SplitsInRun(creative: bool, inv: Inv, run: seq<Event>): nat
    decreases |run|
  {
    if run == [] then 0
    else SplitsOf(creative, inv, run[0]) + SplitsInRun(creative, AfterEvent(creative, inv, run[0]), run[1..])
  }

  lemma EventKeepsIdentity(creative: bool, inv: Inv, event: Event)
    requires WellFormed(inv) && inv.nextStackID + SplitsOf(creative, inv, event) <= INT32_MAX
    ensures var after := AfterEvent(creative, inv, event);
            WellFormed(after) && after.nextStackID == inv.nextStackID + SplitsOf(creative, inv, event)
  {
    if event.Submit? && Accepts(creative, inv, event.request) {
      ActionsKeepIdentity(creative, inv, event.request.actions, map[]);
    }
  }

  /**
   From any well-formed inventory, every run whose accepted splits do not take the IDs past the
   last `int32` ends well-formed, with the next ID moved on by exactly the number of those splits.
   */
  lemma {:induction false} RunKeepsIdentity(creative: bool, inv: Inv, run: seq<Event>)
    requires WellFormed(inv) && inv.nextStackID + SplitsInRun(creative, inv, run) <= INT32_MAX
    ensures var after := AfterRun(creative, inv, run);
            WellFormed(after) && after.nextStackID == inv.nextStackID + SplitsInRun(creative, inv, run)
    decreases |run|
  {
    if run != [] {
      EventKeepsIdentity(creative, inv, run[0]);
      RunKeepsIdentity(creative, AfterEvent(creative, inv, run[0]), run[1..]);
    }
  }

  /** The number of actions in a run: a bound for its splits that is known before it starts. */
  function ActionCount(run: seq<Event>): nat {
    if run == [] then 0
    else (if run[0].Submit? then |run[0].request.actions| else 0) + ActionCount(run[1..])
  }

  lemma {:induction false} SplitsInBound(creative: bool, inv: Inv, actions: seq<Action>, changes: Changes)
    ensures SplitsIn(creative, inv, actions, changes) <= |actions|
    decreases |actions|
  {
    if actions != [] {
      var next := ApplyAction(creative, inv, actions[0], changes);
      if next.Done? {
        SplitsInBound(creative, next.inv, actions[1..], next.changes);
      }
    }
  }

  lemma {:induction false} SplitsInRunBound(creative: bool, inv: Inv, run: seq<Event>)
    ensures SplitsInRun(creative, inv, run) <= ActionCount(run)
    decreases |run|
  {
    if run != [] {
      if run[0].Submit? {
        SplitsInBound(creative, inv, run[0].request.actions, map[]);
      }
      SplitsInRunBound(creative, AfterEvent(creative, inv, run[0]), run[1..]);
    }
  }

  /** The same with a condition that is known before the run: enough IDs for all its actions. */
  lemma SessionKeepsIdentity(creative: bool, inv: Inv, run: seq<Event>)
    requires WellFormed(inv) && inv.nextStackID + ActionCount(run) <= INT32_MAX
    ensures WellFormed(AfterRun(creative, inv, run))
  {
    SplitsInRunBound(creative, inv, run);
    RunKeepsIdentity(creative, inv, run);
  }

  /** With all IDs used up, splitting a stack is still accepted, and breaks the discipline. */
  lemma LastIdSplits(creative: bool, inv: Inv, source: Slot, destination: Slot, count: Byte, changes: Changes)
    requires WellFormed(inv) && inv.nextStackID == INT32_MAX
    requires Resolvable(source) && Resolvable(destination) && source != destination
    requires IsEmpty(inv.cells[CellOf(destination)]) && 0 < count < inv.cells[CellOf(source)].count
    ensures var from, to := SlotInfo(source, inv.cells[CellOf(source)].stackNetworkID), SlotInfo(destination, 0);
            var outcome := ApplyAction(creative, inv, Transfer(from, to, count), changes);
            outcome.Done? && !WellFormed(outcome.inv)
  {
    var from, to := SlotInfo(source, inv.cells[CellOf(source)].stackNetworkID), SlotInfo(destination, 0);
    assert GoodItem(inv.cells[CellOf(source)], inv.nextStackID);
    ActionKeepsIdentity(creative, inv, Transfer(from, to, count), changes);
  }

  /** There is such a case: two items in the first cell, one of them taken to the second. */
  lemma IdentityCanBreak(creative: bool) returns (inv: Inv, action: Action)
    ensures WellFormed(inv)
    ensures var outcome := ApplyAction(creative, inv, action, map[]);
            outcome.Done? && !WellFormed(outcome.inv)
  {
    inv := Inv(seq(CELL_COUNT, k => if k == 0 then Item(StackType(1, 0), 2, 1) else ZERO_ITEM), 0, INT32_MAX, map[]);
    action := Transfer(SlotInfo(Slot(Inventory, 0), 1), SlotInfo(Slot(Inventory, 1), 0), 1);
    LastIdSplits(creative, inv, Slot(Inventory, 0), Slot(Inventory, 1), 1, map[]);
  }

  // ---------- a session without items ----------

  /** Every cell is the zero item and no ID was handed out. */
  ghost predicate HoldsNothing(inv: Inv) {
    inv.nextStackID == 1 && forall k :: 0 <= k < CELL_COUNT ==> inv.cells[k] == ZERO_ITEM
  }

  lemma ActionAddsNothing(creative: bool, inv: Inv, action: Action, changes: Changes)
    requires HoldsNothing(inv) && ApplyAction(creative, inv, action, changes).Done?
    ensures HoldsNothing(ApplyAction(creative, inv, action, changes).inv)
  {
  }

  lemma {:induction false} ActionsAddNothing(creative: bool, inv: Inv, actions: seq<Action>, changes: Changes)
    requires HoldsNothing(inv) && ApplyActions(creative, inv, actions, changes).Done?
    ensures HoldsNothing(ApplyActions(creative, inv, actions, changes).inv)
    decreases |actions|
  {
    if actions != [] {
      ActionAddsNothing(creative, inv, actions[0], changes);
      var next := ApplyAction(creative, inv, actions[0], changes);
      ActionsAddNothing(creative, next.inv, actions[1..], next.changes);
    }
  }

  lemma EventAddsNothing(creative: bool, inv: Inv, event: Event)
    requires HoldsNothing(inv)
    ensures HoldsNothing(AfterEvent(creative, inv, event))
  {
    if event.Submit? && Accepts(creative, inv, event.request) {
      ActionsAddNothing(creative, inv, event.request.actions, map[]);
    }
  }

  /** Requests alone never put an item into an inventory: a new session holds nothing for ever. */
  lemma {:induction false} SessionHoldsNothing(creative: bool, inv: Inv, run: seq<Event>)
    requires HoldsNothing(inv)
    ensures HoldsNothing(AfterRun(creative, inv, run))
    decreases |run|
  {
    if run != [] {
      EventAddsNothing(creative, inv, run[0]);
      SessionHoldsNothing(creative, AfterEvent(creative, inv, run[0]), run[1..]);
    }
  }

  /** Cells are zero or hold items, whatever the IDs; this needs no bound on the IDs. */
  ghost predicate Normal(inv: Inv) {
    forall k :: 0 <= k < CELL_COUNT ==> inv.cells[k] == ZERO_ITEM || !IsEmpty(inv.cells[k])
  }

  lemma PutBothStaysNormal(inv: Inv, ref: Slot, item: Item, ref': Slot, item': Item, changes: Changes)
    requires Normal(inv) && Resolvable(ref) && Resolvable(ref')
    ensures Normal(PutBoth(inv, ref, item, ref', item', changes).inv)
  {
  }

  /** An accepted transfer stores two items and otherwise only moves the next ID. */
  lemma TransferIsPut(inv: Inv, ref: Slot, ref': Slot, count: Byte, changes: Changes)
    returns (next: Int32, item: Item, item': Item)
    requires Resolvable(ref) && Resolvable(ref')
    requires TransferBetween(inv, ref, ref', count, changes).Done?
    ensures TransferBetween(inv, ref, ref', count, changes)
            == PutBoth(inv.(nextStackID := next), ref, item, ref', item', changes)
  {
    var from, to := inv.cells[CellOf(ref)], inv.cells[CellOf(ref')];
    next, item, item' := inv.nextStackID, Less(from, count), from;
    if SplitsBetween(inv, ref, ref', count) {
      next := Increment(FreshId(inv.nextStackID));
      item' := from.(count := count, stackNetworkID := FreshId(inv.nextStackID));
    } else if !IsEmpty(to) {
      item' := to.(count := (to.count + count) % 0x1_0000);
    }
  }

  lemma ActionStaysNormal(creative: bool, inv: Inv, action: Action, changes: Changes)
    requires Normal(inv)
    requires ApplyAction(creative, inv, action, changes).Done?
    ensures Normal(ApplyAction(creative, inv, action, changes).inv)
  {
    match action
    case Transfer(source, destination, count) =>
      var next, item, item' := TransferIsPut(inv, source.ref, destination.ref, count, changes);
      PutBothStaysNormal(inv.(nextStackID := next), source.ref, item, destination.ref, item', changes);
    case Swap(source, destination) =>
      PutBothStaysNormal(inv, source.ref, inv.cells[CellOf(destination.ref)],
                         destination.ref, inv.cells[CellOf(source.ref)], changes);
    case Drop(_, _) =>
    case Destroy(_, _) =>
    case MineBlock(_, _) =>
  }

  /** Actions touch neither the selected slot nor the table, which a rollback relies on. */
  lemma ActionFrame(creative: bool, inv: Inv, action: Action, changes: Changes)
    requires ApplyAction(creative, inv, action, changes).Done?
    ensures var after := ApplyAction(creative, inv, action, changes).inv;
            after.selected == inv.selected && after.table == inv.table
  {
    if action.Transfer? {
      var next, item, item' := TransferIsPut(inv, action.source.ref, action.destination.ref, action.count, changes);
    }
  }

  lemma {:induction false} ActionsFrame(creative: bool, inv: Inv, actions: seq<Action>, changes: Changes)
    requires ApplyActions(creative, inv, actions, changes).Done?
    ensures var after := ApplyActions(creative, inv, actions, changes).inv;
            after.selected == inv.selected && after.table == inv.table
    decreases |actions|
  {
    if actions != [] {
      ActionFrame(creative, inv, actions[0], changes);
      var next := ApplyAction(creative, inv, actions[0], changes);
      ActionsFrame(creative, next.inv, actions[1..], next.changes);
    }
  }

  lemma {:induction false} ActionsStayNormal(creative: bool, inv: Inv, actions: seq<Action>, changes: Changes)
    requires Normal(inv)
    requires ApplyActions(creative, inv, actions, changes).Done?
    ensures Normal(ApplyActions(creative, inv, actions, changes).inv)
    decreases |actions|
  {
    if actions != [] {
      ActionStaysNormal(creative, inv, actions[0], changes);
      var next := ApplyAction(creative, inv, actions[0], changes);
      ActionsStayNormal(creative, next.inv, actions[1..], next.changes);
    }
  }

  lemma {:induction false} BatchStaysNormal(creative: bool, inv: Inv, requests: seq<Request>)
    requires Normal(inv)
    ensures Normal(AfterBatch(creative, inv, requests))
    ensures AfterBatch(creative, inv, requests).selected == inv.selected
    decreases |requests|
  {
    if requests != [] {
      if Accepts(creative, inv, requests[0]) {
        ActionsStayNormal(creative, inv, requests[0].actions, map[]);
        ActionsFrame(creative, inv, requests[0].actions, map[]);
      }
      BatchStaysNormal(creative, AfterRequest(creative, inv, requests[0]), requests[1..]);
    }
  }
}
