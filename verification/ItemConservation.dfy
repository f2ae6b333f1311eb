/**
 Conservation of items: over every run, the number of items of each type changes by exactly
 what accepted drops and destructions took, plus what transfers between two names of one
 cell created.
 */
module ItemConservation {
  import opened Numbers
  import opened ItemStacks
  import opened ItemStackIdentity

  /** Counts are in range; nothing is asked of the IDs. */
  ghost predicate Counted(inv: Inv) {
    forall k :: 0 <= k < CELL_COUNT
      ==> inv.cells[k] == ZERO_ITEM || (!IsEmpty(inv.cells[k]) && inv.cells[k].count <= MAX_STACK_COUNT)
  }

  function CountOf(item: Item, kind: StackType): nat {
    if !IsEmpty(item) && item.kind == kind then item.count else 0
  }

  function Total(cells: seq<Item>, kind: StackType): nat {
    if cells == [] then 0 else CountOf(cells[0], kind) + Total(cells[1..], kind)
  }

  lemma {:induction false} TotalUpdate(cells: seq<Item>, k: nat, item: Item, kind: StackType)
    requires k < |cells|
    ensures Total(cells[k := item], kind) == Total(cells, kind) - CountOf(cells[k], kind) + CountOf(item, kind)
  {
    if k == 0 {
      assert cells[k := item][1..] == cells[1..];
    } else {
      assert cells[k := item][1..] == cells[1..][k - 1 := item];
      TotalUpdate(cells[1..], k - 1, item, kind);
    }
  }

  /** Storing an item leaves its type and count alone. */
  lemma StoreTotal(inv: Inv, k: nat, item: Item, kind: StackType)
    requires k < CELL_COUNT
    ensures Total(Store(inv, k, item).cells, kind)
            == Total(inv.cells, kind) - CountOf(inv.cells[k], kind) + CountOf(item, kind)
  {
    TotalUpdate(inv.cells, k, Normalise(inv.nextStackID, item).0, kind);
  }

  lemma StoreCounted(inv: Inv, k: nat, item: Item)
    requires k < CELL_COUNT && Counted(inv) && item.count <= MAX_STACK_COUNT
    ensures Counted(Store(inv, k, item))
  {
  }

  lemma PutBothTotal(inv: Inv, ref: Slot, item: Item, ref': Slot, item': Item, changes: Changes, kind: StackType)
    requires Counted(inv) && Resolvable(ref) && Resolvable(ref')
    requires item.count <= MAX_STACK_COUNT && item'.count <= MAX_STACK_COUNT
    ensures var after := PutBoth(inv, ref, item, ref', item', changes).inv;
            var replaced := if CellOf(ref) == CellOf(ref') then CountOf(item, kind)
              else CountOf(inv.cells[CellOf(ref')], kind);
            && Counted(after)
            && Total(after.cells, kind)
               == Total(inv.cells, kind) - CountOf(inv.cells[CellOf(ref)], kind) + CountOf(item, kind)
                                           - replaced + CountOf(item', kind)
  {
    var first := Store(inv, CellOf(ref), item);
    StoreCounted(inv, CellOf(ref), item);
    StoreTotal(inv, CellOf(ref), item, kind);
    StoreCounted(first, CellOf(ref'), item');
    StoreTotal(first, CellOf(ref'), item', kind);
  }

  // ---------- what an action does to the totals ----------

  /** Items of the type that an accepted drop or destruction takes out. */
  function Taken(inv: Inv, action: Action, kind: StackType): nat {
    if (action.Drop? || action.Destroy?) && Resolvable(action.source.ref)
       && inv.cells[CellOf(action.source.ref)].kind == kind
    then action.count else 0
  }

  predicate Aliased(action: Action) {
    && action.Transfer?
    && Resolvable(action.source.ref) && Resolvable(action.destination.ref)
    && CellOf(action.source.ref) == CellOf(action.destination.ref)
  }

  /** Items of the type that an accepted transfer between two names of one cell creates. */
  function Created(inv: Inv, action: Action, kind: StackType): nat {
    if Aliased(action) && inv.cells[CellOf(action.source.ref)].kind == kind then action.count else 0
  }

  lemma LessCount(item: Item, count: Byte, kind: StackType)
    requires !IsEmpty(item) && count <= item.count
    ensures CountOf(Less(item, count), kind) == CountOf(item, kind) - if item.kind == kind then count else 0
  {
  }

  lemma TransferTotal(inv: Inv, ref: Slot, ref': Slot, count: Byte, changes: Changes, kind: StackType)
    requires Counted(inv) && Resolvable(ref) && Resolvable(ref') && count > 0
    requires TransferBetween(inv, ref, ref', count, changes).Done?
    ensures var after := TransferBetween(inv, ref, ref', count, changes).inv;
            var same := CellOf(ref) == CellOf(ref') && inv.cells[CellOf(ref)].kind == kind;
            Counted(after) && Total(after.cells, kind) == Total(inv.cells, kind) + if same then count else 0
  {
    var from, to := inv.cells[CellOf(ref)], inv.cells[CellOf(ref')];
    LessCount(from, count, kind);
    if SplitsBetween(inv, ref, ref', count) {
      var id := FreshId(inv.nextStackID);
      TransferIsSplit(inv, ref, ref', count, changes);
      PutBothTotal(inv.(nextStackID := Increment(id)), ref, Less(from, count),
                   ref', from.(count := count, stackNetworkID := id), changes, kind);
    } else if IsEmpty(to) {
      TransferIsMove(inv, ref, ref', count, changes);
      PutBothTotal(inv, ref, ZERO_ITEM, ref', from, changes, kind);
    } else {
      MergeTotal(inv, ref, ref', count, changes, kind);
    }
  }

  lemma MergeTotal(inv: Inv, ref: Slot, ref': Slot, count: Byte, changes: Changes, kind: StackType)
    requires Counted(inv) && Resolvable(ref) && Resolvable(ref') && !IsEmpty(inv.cells[CellOf(ref')])
    requires TransferBetween(inv, ref, ref', count, changes).Done?
    ensures var after := TransferBetween(inv, ref, ref', count, changes).inv;
            var same := CellOf(ref) == CellOf(ref') && inv.cells[CellOf(ref)].kind == kind;
            Counted(after) && Total(after.cells, kind) == Total(inv.cells, kind) + if same then count else 0
  {
    var from, to := inv.cells[CellOf(ref)], inv.cells[CellOf(ref')];
    TransferIsMerge(inv, ref, ref', count, changes);
    LessCount(from, count, kind);
    PutBothTotal(inv, ref, Less(from, count), ref', to.(count := to.count + count), changes, kind);
  }

  lemma ActionTotal(creative: bool, inv: Inv, action: Action, changes: Changes, kind: StackType)
    requires Counted(inv)
    requires ApplyAction(creative, inv, action, changes).Done?
    ensures var after := ApplyAction(creative, inv, action, changes).inv;
            && Counted(after)
            && Total(after.cells, kind)
               == Total(inv.cells, kind) - Taken(inv, action, kind) + Created(inv, action, kind)
  {
    match action
    case Transfer(source, destination, count) =>
      TransferTotal(inv, source.ref, destination.ref, count, changes, kind);
    case Swap(source, destination) =>
      PutBothTotal(inv, source.ref, inv.cells[CellOf(destination.ref)],
                   destination.ref, inv.cells[CellOf(source.ref)], changes, kind);
    case Drop(source, count) => RemoveTotal(inv, source, count, CannotDropItem, changes, kind);
    case Destroy(source, count) => RemoveTotal(inv, source, count, CannotDestroyItem, changes, kind);
    case MineBlock(_, _) =>
  }

  lemma RemoveTotal(inv: Inv, source: SlotInfo, count: Byte, refusal: Status, changes: Changes, kind: StackType)
    requires Counted(inv)
    requires RemoveStack(inv, source, count, refusal, changes).Done?
    ensures var after := RemoveStack(inv, source, count, refusal, changes).inv;
            var taken := if inv.cells[CellOf(source.ref)].kind == kind then count else 0;
            Counted(after) && Total(after.cells, kind) == Total(inv.cells, kind) - taken
  {
    var k := CellOf(source.ref);
    LessCount(inv.cells[k], count, kind);
    StoreCounted(inv, k, Less(inv.cells[k], count));
    StoreTotal(inv, k, Less(inv.cells[k], count), kind);
  }

  /**
   A transfer between two names of one cell is accepted as a merge of the stack with itself:
   the cell gains `count` items, keeps its type and ID, and no other cell changes.
   */
  lemma AliasedTransferGains(creative: bool, inv: Inv, action: Action, changes: Changes)
    requires WellFormed(inv) && Aliased(action)
    requires ApplyAction(creative, inv, action, changes).Done?
    ensures var k := CellOf(action.source.ref);
            ApplyAction(creative, inv, action, changes).inv
            == inv.(cells := inv.cells[k := inv.cells[k].(count := inv.cells[k].count + action.count)])
  {
  }

  /** An accepted transfer keeps every total exactly when its two slots name different cells. */
  lemma TransferConservesIff(creative: bool, inv: Inv, action: Action, changes: Changes)
    requires Counted(inv) && action.Transfer?
    requires ApplyAction(creative, inv, action, changes).Done?
    ensures var after := ApplyAction(creative, inv, action, changes).inv;
            (forall kind :: Total(after.cells, kind) == Total(inv.cells, kind))
            <==> CellOf(action.source.ref) != CellOf(action.destination.ref)
  {
    var after := ApplyAction(creative, inv, action, changes).inv;
    forall kind
      ensures Total(after.cells, kind) == Total(inv.cells, kind) + Created(inv, action, kind)
    {
      ActionTotal(creative, inv, action, changes, kind);
    }
    var kind := inv.cells[CellOf(action.source.ref)].kind;
    assert Aliased(action) ==> Total(after.cells, kind) == Total(inv.cells, kind) + action.count;
  }

  // ---------- the ledger of a run ----------

  function ActionsNet(creative: bool, inv: Inv, actions: seq<Action>, changes: Changes, kind: StackType): int
    decreases |actions|
  {
    if actions == [] then 0
    else
      match ApplyAction(creative, inv, actions[0], changes)
      case Refused(_) => 0
      case Done(inv', changes') =>
        Created(inv, actions[0], kind) - Taken(inv, actions[0], kind)
        + ActionsNet(creative, inv', actions[1..], changes', kind)
  }

  /** What the accepted requests of a run created, less what they took out. */
  function RunNet(creative: bool, inv: Inv, run: seq<Event>, kind: StackType): int
    decreases |run|
  {
    if run == [] then 0
    else
      (if run[0].Submit? && Accepts(creative, inv, run[0].request)
       then ActionsNet(creative, inv, run[0].request.actions, map[], kind) else 0)
      + RunNet(creative, AfterEvent(creative, inv, run[0]), run[1..], kind)
  }

  lemma {:induction false} ActionsTotal(creative: bool, inv: Inv, actions: seq<Action>, changes: Changes,
                                        kind: StackType)
    requires Counted(inv)
    requires ApplyActions(creative, inv, actions, changes).Done?
    ensures var after := ApplyActions(creative, inv, actions, changes).inv;
            && Counted(after)
            && Total(after.cells, kind) == Total(inv.cells, kind) + ActionsNet(creative, inv, actions, changes, kind)
    decreases |actions|
  {
    if actions != [] {
      ActionTotal(creative, inv, actions[0], changes, kind);
      var next := ApplyAction(creative, inv, actions[0], changes);
      ActionsTotal(creative, next.inv, actions[1..], next.changes, kind);
    }
  }

  lemma {:induction false} RunTotal(creative: bool, inv: Inv, run: seq<Event>, kind: StackType)
    requires Counted(inv)
    ensures Counted(AfterRun(creative, inv, run))
    ensures Total(AfterRun(creative, inv, run).cells, kind) == Total(inv.cells, kind) + RunNet(creative, inv, run, kind)
    decreases |run|
  {
    if run != [] {
      if run[0].Submit? && Accepts(creative, inv, run[0].request) {
        ActionsTotal(creative, inv, run[0].request.actions, map[], kind);
      }
      RunTotal(creative, AfterEvent(creative, inv, run[0]), run[1..], kind);
    }
  }

  // ---------- runs whose transfers name two different cells ----------

  predicate NoAliasedTransfer(actions: seq<Action>) {
    forall i :: 0 <= i < |actions| ==> !Aliased(actions[i])
  }

  predicate NoAliasedTransferInRun(run: seq<Event>) {
    forall i :: 0 <= i < |run| && run[i].Submit? ==> NoAliasedTransfer(run[i].request.actions)
  }

  function ActionsTaken(creative: bool, inv: Inv, actions: seq<Action>, changes: Changes, kind: StackType): nat
    decreases |actions|
  {
    if actions == [] then 0
    else
      match ApplyAction(creative, inv, actions[0], changes)
      case Refused(_) => 0
      case Done(inv', changes') =>
        Taken(inv, actions[0], kind) + ActionsTaken(creative, inv', actions[1..], changes', kind)
  }

  /** Everything that accepted drops and destructions of the run took out. */
  function RunTaken(creative: bool, inv: Inv, run: seq<Event>, kind: StackType): nat
    decreases |run|
  {
    if run == [] then 0
    else
      (if run[0].Submit? && Accepts(creative, inv, run[0].request)
       then ActionsTaken(creative, inv, run[0].request.actions, map[], kind) else 0)
      + RunTaken(creative, AfterEvent(creative, inv, run[0]), run[1..], kind)
  }

  lemma {:induction false} ActionsOnlyTake(creative: bool, inv: Inv, actions: seq<Action>, changes: Changes,
                                           kind: StackType)
    requires NoAliasedTransfer(actions)
    ensures ActionsNet(creative, inv, actions, changes, kind) == 0 - ActionsTaken(creative, inv, actions, changes, kind)
    decreases |actions|
  {
    if actions != [] {
      var next := ApplyAction(creative, inv, actions[0], changes);
      if next.Done? {
        ActionsOnlyTake(creative, next.inv, actions[1..], next.changes, kind);
      }
    }
  }

  lemma {:induction false} RunOnlyTakes(creative: bool, inv: Inv, run: seq<Event>, kind: StackType)
    requires NoAliasedTransferInRun(run)
    ensures RunNet(creative, inv, run, kind) == 0 - RunTaken(creative, inv, run, kind)
    decreases |run|
  {
    if run != [] {
      if run[0].Submit? {
        ActionsOnlyTake(creative, inv, run[0].request.actions, map[], kind);
      }
      RunOnlyTakes(creative, AfterEvent(creative, inv, run[0]), run[1..], kind);
    }
  }

  /** Conservation: without transfers between two names of one cell, only drops and destructions change totals. */
  lemma RunConserves(creative: bool, inv: Inv, run: seq<Event>, kind: StackType)
    requires Counted(inv) && NoAliasedTransferInRun(run)
    ensures Total(AfterRun(creative, inv, run).cells, kind)
            == Total(inv.cells, kind) - RunTaken(creative, inv, run, kind)
  {
    RunTotal(creative, inv, run, kind);
    RunOnlyTakes(creative, inv, run, kind);
  }
}
