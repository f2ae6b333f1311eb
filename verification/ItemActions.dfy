/**
 When the server accepts an action, and what the action then does, said in terms of the cells:
 which stack a client's ID stands for, when slots, IDs, counts, types and room fit, and which
 items lie where afterwards.
 */
module ItemActions {
  import opened Numbers
  import opened Wrappers
  import opened ItemStacks
  import opened ItemStackIdentity
  import opened ItemConservation
  import opened ItemRequests

  // ---------- cells and what is stored in them ----------

  /** Which slots there are, and which of the 38 cells each names: main cells, cursor and offhand. */
  lemma SlotsAre(ref: Slot)
    ensures Resolvable(ref)
            <==> match ref.container
                 case Inventory => ref.slot < 36
                 case CombinedHotBarAndInventory => ref.slot < 36
                 case HotBar => ref.slot < 9
                 case OtherContainer(_) => false
                 case _ => ref.slot == 0
    ensures Resolvable(ref) ==>
              CellOf(ref) == if ref.container.Cursor? then 36 else if ref.container.Offhand? then 37 else ref.slot
  {
  }

  /**
   Storing an item changes one cell. Something without a type or a count is stored as nothing; an item
   without an ID gets the next one; and the next ID stays ahead of the stored one, or wraps after the
   last `int32`.
   */
  lemma StoreIs(inv: Inv, k: nat, item: Item)
    requires k < 38
    ensures var after := Store(inv, k, item);
            var isNothing := item.kind.networkID == 0 || item.count == 0;
            var id := if item.stackNetworkID > 0 then item.stackNetworkID
                      else if inv.nextStackID > 0 then inv.nextStackID else 1;
            var isNew := item.stackNetworkID <= 0 || item.stackNetworkID >= inv.nextStackID;
            && after.selected == inv.selected && after.table == inv.table
            && after.cells == inv.cells[k := if isNothing then Item(StackType(0, 0), 0, 0)
                                             else Item(item.kind, item.count, id)]
            && after.nextStackID == if isNothing || !isNew then inv.nextStackID
                                    else if id == 0x7fff_ffff then -0x8000_0000 else id + 1
  {
  }

  /** The table is emptied before a request is recorded exactly when it has more than 256 entries. */
  lemma RememberKeepsIff(table: Table, id: Int32, changes: Changes, order: seq<Slot>, key: Int32)
    requires |changes| != 0 && key != id && (id == 0 || key != Negate(id))
    ensures var after := Remember(table, id, changes, order);
            && id in after && (id != 0 ==> Negate(id) in after)
            && (key in after <==> key in table && |table| <= 256)
            && (key in after ==> after[key] == table[key])
  {
  }

  // ---------- names of one cell ----------

  ghost predicate SameCell(name: Slot, other: Slot) {
    Resolvable(name) && Resolvable(other) && CellOf(name) == CellOf(other)
  }

  /** All names of a cell have the same entry. */
  ghost predicate NamesAgree(slots: map<Slot, Int32>) {
    forall name, other :: SameCell(name, other) && name in slots ==> other in slots && slots[other] == slots[name]
  }

  ghost predicate TableAgrees(table: Table) {
    forall id :: id in table ==> NamesAgree(table[id])
  }

  lemma NamedAgrees(slots: map<Slot, Int32>, ref: Slot, id: Int32)
    requires NamesAgree(slots) && Resolvable(ref)
    ensures NamesAgree(slots + Named(NamesOf(ref), id))
  {
    forall name, other | SameCell(name, other)
      ensures name in NamesOf(ref) <==> other in NamesOf(ref)
    {
      NamesOfCell(ref, name);
      NamesOfCell(ref, other);
    }
  }

  lemma {:induction false} RecordedAgree(changes: Changes, order: seq<Slot>)
    requires AllResolvable(changes)
    ensures NamesAgree(RecordedIds(changes, order))
    decreases |order|
  {
    if order != [] {
      var ref := order[|order| - 1];
      RecordedAgree(changes, order[..|order| - 1]);
      if ref in changes {
        NamedAgrees(RecordedIds(changes, order[..|order| - 1]), ref, StackId(changes[ref]));
      }
    }
  }

  /** In every run the names of a cell have the same entries, so it does not matter under which a client asks. */
  lemma {:induction false} RunAgrees(creative: bool, inv: Inv, run: seq<Event>)
    requires TableAgrees(inv.table)
    ensures TableAgrees(AfterRun(creative, inv, run).table)
    decreases |run|
  {
    if run != [] {
      EventAgrees(creative, inv, run[0]);
      RunAgrees(creative, AfterEvent(creative, inv, run[0]), run[1..]);
    }
  }

  lemma EventAgrees(creative: bool, inv: Inv, event: Event)
    requires TableAgrees(inv.table)
    ensures TableAgrees(AfterEvent(creative, inv, event).table)
  {
    if event.Submit? && Accepts(creative, inv, event.request) {
      var request := event.request;
      var done := ApplyActions(creative, inv, request.actions, map[]);
      ActionsTrack(creative, inv, request.actions, map[]);
      ActionsFrame(creative, inv, request.actions, map[]);
      RecordedAgree(done.changes, request.order);
    }
  }

  // ---------- which stack an ID stands for ----------

  /** The client's ID is the stack ID of the slot's cell, or predicted as such under the slot's name. */
  ghost predicate SlotFits(inv: Inv, info: SlotInfo) {
    && Resolvable(info.ref)
    && var held := StackId(inv.cells[CellOf(info.ref)]);
       var id := info.stackNetworkID;
       if id >= 0 then id == held
       else id in inv.table && info.ref in inv.table[id] && inv.table[id][info.ref] == held
  }

  lemma VerifyIff(inv: Inv, info: SlotInfo)
    requires TableAgrees(inv.table)
    ensures Verify(inv, info).Found? <==> SlotFits(inv, info)
    ensures Resolvable(info.ref) && !SlotFits(inv, info) ==> Verify(inv, info) == Bad(InvalidItemNetId)
  {
    if Resolvable(info.ref) && info.stackNetworkID < 0 && info.stackNetworkID in inv.table {
      FirstKnownIs(inv.table, info.stackNetworkID, info.ref);
    }
  }

  lemma FirstKnownIs(table: Table, id: Int32, ref: Slot)
    requires TableAgrees(table) && id in table && Resolvable(ref)
    ensures FirstKnown(table, id, NamesOf(ref)) == if ref in table[id] then Some(table[id][ref]) else None
  {
    assert NamesAgree(table[id]);
    if ref !in table[id] {
      forall name | name in NamesOf(ref)
        ensures name !in table[id]
      {
        NamesOfCell(ref, name);
      }
      NoneKnown(table, id, NamesOf(ref));
    }
  }

  lemma {:induction false} NoneKnown(table: Table, id: Int32, names: seq<Slot>)
    requires id in table && forall name :: name in names ==> name !in table[id]
    ensures FirstKnown(table, id, names) == None
    decreases |names|
  {
    if names != [] {
      NoneKnown(table, id, names[1..]);
    }
  }

  /** The slots that an action names, in the order in which they are checked. */
  function NamedSlots(action: Action): seq<SlotInfo> {
    match action
    case Transfer(source, destination, _) => [source, destination]
    case Swap(source, destination) => [source, destination]
    case Drop(source, _) => [source]
    case Destroy(source, _) => [source]
    case MineBlock(hotbarSlot, id) =>
      if 0 <= hotbarSlot < 9 then [SlotInfo(Slot(Inventory, hotbarSlot), id)] else []
    case OtherAction => []
  }

  /** An ID that names an entry of the cell: under its own name, or under another one. */
  ghost predicate IsPredicted(inv: Inv, info: SlotInfo) {
    && info.stackNetworkID in inv.table
    && exists name :: SameCell(name, info.ref) && name in inv.table[info.stackNetworkID]
         && inv.table[info.stackNetworkID][name] == StackId(inv.cells[CellOf(info.ref)])
  }

  lemma {:induction false} KnownUnderSomeName(table: Table, id: Int32, names: seq<Slot>)
    requires FirstKnown(table, id, names).Some?
    ensures id in table
    ensures exists name :: name in names && name in table[id] && table[id][name] == FirstKnown(table, id, names).value
    decreases |names|
  {
    if names[0] !in table[id] {
      KnownUnderSomeName(table, id, names[1..]);
    }
  }

  lemma FoundFits(inv: Inv, info: SlotInfo)
    requires Verify(inv, info).Found?
    ensures Resolvable(info.ref)
    ensures info.stackNetworkID >= 0 ==> StackId(inv.cells[CellOf(info.ref)]) == info.stackNetworkID
    ensures info.stackNetworkID < 0 ==> IsPredicted(inv, info)
  {
    if info.stackNetworkID < 0 {
      KnownUnderSomeName(inv.table, info.stackNetworkID, NamesOf(info.ref));
      var name :| name in NamesOf(info.ref) && name in inv.table[info.stackNetworkID]
                  && inv.table[info.stackNetworkID][name] == StackId(inv.cells[CellOf(info.ref)]);
      NamesOfCell(info.ref, name);
    }
  }

  /** No action is accepted on a stale view: every slot it names holds the stack that the client's ID stands for. */
  lemma AcceptedSlotsFit(creative: bool, inv: Inv, action: Action, changes: Changes, k: nat)
    requires ApplyAction(creative, inv, action, changes).Done? && k < |NamedSlots(action)|
    ensures var info := NamedSlots(action)[k];
            && Resolvable(info.ref)
            && (info.stackNetworkID >= 0 ==> StackId(inv.cells[CellOf(info.ref)]) == info.stackNetworkID)
            && (info.stackNetworkID < 0 ==> IsPredicted(inv, info))
  {
    FoundFits(inv, NamedSlots(action)[k]);
  }

  /** What an action needs before its slots are looked at. */
  predicate IsAllowed(creative: bool, action: Action) {
    match action
    case Transfer(_, _, count) => count > 0
    case Swap(_, _) => true
    case Drop(_, count) => count > 0
    case Destroy(_, count) => creative && count > 0
    case MineBlock(hotbarSlot, _) => 0 <= hotbarSlot < 9
    case OtherAction => false
  }

  /** The first slot whose stack is not the one the client means makes the server refuse the action for that reason. */
  lemma MismatchIsRefused(creative: bool, inv: Inv, action: Action, changes: Changes, k: nat)
    requires TableAgrees(inv.table) && IsAllowed(creative, action) && k < |NamedSlots(action)|
    requires forall j :: 0 <= j < k ==> SlotFits(inv, NamedSlots(action)[j])
    requires Resolvable(NamedSlots(action)[k].ref) && !SlotFits(inv, NamedSlots(action)[k])
    ensures ApplyAction(creative, inv, action, changes) == Refused(InvalidItemNetId)
  {
    VerifyIff(inv, NamedSlots(action)[0]);
    VerifyIff(inv, NamedSlots(action)[k]);
    if k == 1 {
      assert SlotFits(inv, NamedSlots(action)[0]);
    }
  }

  // ---------- transfers ----------

  /** A transfer is accepted exactly when slots, IDs, count and types fit and there is room. */
  lemma TransferAcceptedIff(creative: bool, inv: Inv, source: SlotInfo, destination: SlotInfo, count: Byte,
                            changes: Changes)
    requires TableAgrees(inv.table) && Counted(inv)
    ensures ApplyAction(creative, inv, Transfer(source, destination, count), changes).Done?
            <==> && count > 0 && SlotFits(inv, source) && SlotFits(inv, destination) && source.ref != destination.ref
                 && var from, to := inv.cells[CellOf(source.ref)], inv.cells[CellOf(destination.ref)];
                    && !IsEmpty(from) && count <= from.count
                    && (IsEmpty(to) || (from.kind == to.kind && to.count + count <= 64))
  {
    VerifyIff(inv, source);
    VerifyIff(inv, destination);
  }

  /** Why a slot is refused. */
  function SlotRefusal(info: SlotInfo): Status {
    if info.ref.container.OtherContainer? then InvalidSourceContainer
    else if !Resolvable(info.ref) then FailedToValidateSrcSlot
    else InvalidItemNetId
  }

  lemma VerifyStatus(inv: Inv, info: SlotInfo)
    requires TableAgrees(inv.table)
    ensures Verify(inv, info) == if SlotFits(inv, info) then Found(info.ref, inv.cells[CellOf(info.ref)])
                                 else Bad(SlotRefusal(info))
  {
    VerifyIff(inv, info);
  }

  /** Why a transfer is refused: the first of its conditions that fails decides. */
  lemma TransferRefusedFor(creative: bool, inv: Inv, source: SlotInfo, destination: SlotInfo, count: Byte,
                           changes: Changes)
    requires TableAgrees(inv.table) && Counted(inv)
    ensures var outcome := ApplyAction(creative, inv, Transfer(source, destination, count), changes);
            if count == 0 then outcome == Refused(InvalidTransferAmount)
            else if !SlotFits(inv, source) then outcome == Refused(SlotRefusal(source))
            else if !SlotFits(inv, destination) then outcome == Refused(SlotRefusal(destination))
            else if source.ref == destination.ref
            then outcome == Refused(DstContainerAndSlotEqualToSrcContainerAndSlot)
            else
              var from, to := inv.cells[CellOf(source.ref)], inv.cells[CellOf(destination.ref)];
              if IsEmpty(from) || count > from.count then outcome == Refused(InvalidTransferAmount)
              else if !IsEmpty(to) && (from.kind != to.kind || to.count + count > 64)
              then outcome == Refused(CannotPlaceItem)
              else outcome.Done?
  {
    VerifyStatus(inv, source);
    VerifyStatus(inv, destination);
  }

  /** Why a swap, a removal or an acknowledgement is refused. */
  lemma OthersRefusedFor(creative: bool, inv: Inv, action: Action, changes: Changes)
    requires TableAgrees(inv.table) && !action.Transfer?
    ensures var outcome := ApplyAction(creative, inv, action, changes);
            match action
            case Swap(source, destination) =>
              if !SlotFits(inv, source) then outcome == Refused(SlotRefusal(source))
              else if !SlotFits(inv, destination) then outcome == Refused(SlotRefusal(destination))
              else if source.ref == destination.ref
              then outcome == Refused(DstContainerAndSlotEqualToSrcContainerAndSlot)
              else outcome.Done?
            case Drop(source, count) =>
              if count == 0 then outcome == Refused(InvalidTransferAmount)
              else if !SlotFits(inv, source) then outcome == Refused(SlotRefusal(source))
              else if IsEmpty(inv.cells[CellOf(source.ref)]) || count > inv.cells[CellOf(source.ref)].count
              then outcome == Refused(CannotDropItem)
              else outcome.Done?
            case Destroy(source, count) =>
              if !creative then outcome == Refused(PlayerNotInCreativeMode)
              else if count == 0 then outcome == Refused(InvalidTransferAmount)
              else if !SlotFits(inv, source) then outcome == Refused(SlotRefusal(source))
              else if IsEmpty(inv.cells[CellOf(source.ref)]) || count > inv.cells[CellOf(source.ref)].count
              then outcome == Refused(CannotDestroyItem)
              else outcome.Done?
            case MineBlock(hotbarSlot, id) =>
              if !(0 <= hotbarSlot < 9) then outcome == Refused(FailedToValidateSrcSlot)
              else if !SlotFits(inv, SlotInfo(Slot(Inventory, hotbarSlot), id))
              then outcome == Refused(InvalidItemNetId)
              else outcome.Done?
            case _ => outcome == Refused(ActionRequestNotAllowed)
  {
    match action
    case Swap(source, destination) =>
      VerifyStatus(inv, source);
      VerifyStatus(inv, destination);
    case Drop(source, _) => VerifyStatus(inv, source);
    case Destroy(source, _) => VerifyStatus(inv, source);
    case MineBlock(hotbarSlot, id) =>
      if 0 <= hotbarSlot < 9 {
        VerifyStatus(inv, SlotInfo(Slot(Inventory, hotbarSlot), id));
      }
    case OtherAction =>
  }

  /** What is left in a cell when `count` items leave it. */
  function Remaining(item: Item, count: nat): Item
    requires count <= item.count
  {
    if count == item.count then ZERO_ITEM else Item(item.kind, item.count - count, item.stackNetworkID)
  }

  /**
   An accepted transfer between different cells: the source keeps the rest; an empty destination
   gets the whole stack as it is, or a part under a new ID; any other gets as many items more.
   */
  lemma TransferMoves(creative: bool, inv: Inv, source: SlotInfo, destination: SlotInfo, count: Byte,
                      changes: Changes)
    requires WellFormed(inv) && inv.nextStackID < INT32_MAX
    requires ApplyAction(creative, inv, Transfer(source, destination, count), changes).Done?
    requires CellOf(source.ref) != CellOf(destination.ref)
    ensures var a, b := CellOf(source.ref), CellOf(destination.ref);
            var from, to := inv.cells[a], inv.cells[b];
            var isSplit := IsEmpty(to) && count < from.count;
            var got := if !IsEmpty(to) then Item(to.kind, to.count + count, to.stackNetworkID)
                       else Item(from.kind, count, if isSplit then inv.nextStackID else from.stackNetworkID);
            && count <= from.count
            && ApplyAction(creative, inv, Transfer(source, destination, count), changes)
               == Done(inv.(cells := inv.cells[a := Remaining(from, count)][b := got],
                            nextStackID := inv.nextStackID + if isSplit then 1 else 0),
                       changes[source.ref := Remaining(from, count)][destination.ref := got])
  {
    var ref, ref' := source.ref, destination.ref;
    if SplitsBetween(inv, ref, ref', count) {
      SplitMoves(inv, ref, ref', count, changes);
    } else if IsEmpty(inv.cells[CellOf(ref')]) {
      WholeMoves(inv, ref, ref', count, changes);
    } else {
      MergeMoves(inv, ref, ref', count, changes);
    }
  }

  lemma SplitMoves(inv: Inv, ref: Slot, ref': Slot, count: Byte, changes: Changes)
    requires WellFormed(inv) && inv.nextStackID < INT32_MAX && Resolvable(ref) && Resolvable(ref')
    requires SplitsBetween(inv, ref, ref', count) && count > 0
    requires TransferBetween(inv, ref, ref', count, changes).Done?
    ensures var from := inv.cells[CellOf(ref)];
            var got := Item(from.kind, count, inv.nextStackID);
            TransferBetween(inv, ref, ref', count, changes)
            == Done(inv.(cells := inv.cells[CellOf(ref) := Remaining(from, count)][CellOf(ref') := got],
                         nextStackID := inv.nextStackID + 1),
                    changes[ref := Remaining(from, count)][ref' := got])
  {
    var from := inv.cells[CellOf(ref)];
    assert GoodItem(from, inv.nextStackID);
    TransferIsSplit(inv, ref, ref', count, changes);
    PutBothIs(inv.(nextStackID := inv.nextStackID + 1), ref, Remaining(from, count),
              ref', from.(count := count, stackNetworkID := inv.nextStackID), changes);
  }

  lemma WholeMoves(inv: Inv, ref: Slot, ref': Slot, count: Byte, changes: Changes)
    requires WellFormed(inv) && Resolvable(ref) && Resolvable(ref') && IsEmpty(inv.cells[CellOf(ref')])
    requires TransferBetween(inv, ref, ref', count, changes).Done? && !SplitsBetween(inv, ref, ref', count)
    ensures var from := inv.cells[CellOf(ref)];
            && count == from.count
            && TransferBetween(inv, ref, ref', count, changes)
               == Done(inv.(cells := inv.cells[CellOf(ref) := ZERO_ITEM][CellOf(ref') := from]),
                       changes[ref := ZERO_ITEM][ref' := from])
  {
    assert GoodItem(inv.cells[CellOf(ref)], inv.nextStackID);
    TransferIsMove(inv, ref, ref', count, changes);
    PutBothIs(inv, ref, ZERO_ITEM, ref', inv.cells[CellOf(ref)], changes);
  }

  lemma MergeMoves(inv: Inv, ref: Slot, ref': Slot, count: Byte, changes: Changes)
    requires WellFormed(inv) && Resolvable(ref) && Resolvable(ref') && !IsEmpty(inv.cells[CellOf(ref')])
    requires TransferBetween(inv, ref, ref', count, changes).Done?
    ensures var from, to := inv.cells[CellOf(ref)], inv.cells[CellOf(ref')];
            && count <= from.count
            && var got := Item(to.kind, to.count + count, to.stackNetworkID);
               TransferBetween(inv, ref, ref', count, changes)
               == Done(inv.(cells := inv.cells[CellOf(ref) := Remaining(from, count)][CellOf(ref') := got]),
                       changes[ref := Remaining(from, count)][ref' := got])
  {
    var from, to := inv.cells[CellOf(ref)], inv.cells[CellOf(ref')];
    assert GoodItem(from, inv.nextStackID) && GoodItem(to, inv.nextStackID);
    TransferIsMerge(inv, ref, ref', count, changes);
    PutBothIs(inv, ref, Remaining(from, count), ref', to.(count := to.count + count), changes);
  }

  /** Two good items are stored as they are, and recorded under the names used. */
  lemma PutBothIs(inv: Inv, ref: Slot, item: Item, ref': Slot, item': Item, changes: Changes)
    requires Resolvable(ref) && Resolvable(ref') && 1 <= inv.nextStackID
    requires GoodItem(item, inv.nextStackID) && GoodItem(item', inv.nextStackID)
    ensures PutBoth(inv, ref, item, ref', item', changes)
            == Done(inv.(cells := inv.cells[CellOf(ref) := item][CellOf(ref') := item']),
                    changes[ref := item][ref' := item'])
  {
  }

  // ---------- the other actions ----------

  lemma SwapAcceptedIff(creative: bool, inv: Inv, source: SlotInfo, destination: SlotInfo, changes: Changes)
    requires TableAgrees(inv.table)
    ensures ApplyAction(creative, inv, Swap(source, destination), changes).Done?
            <==> SlotFits(inv, source) && SlotFits(inv, destination) && source.ref != destination.ref
  {
    VerifyIff(inv, source);
    VerifyIff(inv, destination);
  }

  /** The two items change places, and nothing else changes. */
  lemma SwapExchanges(creative: bool, inv: Inv, source: SlotInfo, destination: SlotInfo, changes: Changes)
    requires WellFormed(inv) && ApplyAction(creative, inv, Swap(source, destination), changes).Done?
    ensures var a, b := CellOf(source.ref), CellOf(destination.ref);
            ApplyAction(creative, inv, Swap(source, destination), changes)
            == Done(inv.(cells := inv.cells[a := inv.cells[b]][b := inv.cells[a]]),
                    changes[source.ref := inv.cells[b]][destination.ref := inv.cells[a]])
  {
    var a, b := CellOf(source.ref), CellOf(destination.ref);
    PutBothIs(inv, source.ref, inv.cells[b], destination.ref, inv.cells[a], changes);
  }

  /** Dropping, and destroying in creative mode, is accepted exactly for items that are there. */
  lemma RemovalAcceptedIff(creative: bool, inv: Inv, source: SlotInfo, count: Byte, changes: Changes)
    requires TableAgrees(inv.table)
    ensures var fits := && count > 0 && SlotFits(inv, source)
                        && var item := inv.cells[CellOf(source.ref)];
                           !IsEmpty(item) && count <= item.count;
            && (ApplyAction(creative, inv, Drop(source, count), changes).Done? <==> fits)
            && (ApplyAction(creative, inv, Destroy(source, count), changes).Done? <==> creative && fits)
  {
    VerifyIff(inv, source);
  }

  /** They take the items out of the named cell, and change nothing else. */
  lemma RemovalTakes(creative: bool, inv: Inv, action: Action, changes: Changes)
    requires WellFormed(inv) && (action.Drop? || action.Destroy?)
    requires ApplyAction(creative, inv, action, changes).Done?
    ensures var a := CellOf(action.source.ref);
            && action.count <= inv.cells[a].count
            && var rest := Remaining(inv.cells[a], action.count);
               ApplyAction(creative, inv, action, changes)
               == Done(inv.(cells := inv.cells[a := rest]), changes[action.source.ref := rest])
  {
    assert GoodItem(inv.cells[CellOf(action.source.ref)], inv.nextStackID);
  }

  /** Mining is acknowledged exactly for the stack in the hotbar slot, which it records; it changes nothing. */
  lemma MiningAcceptedIff(creative: bool, inv: Inv, hotbarSlot: Int32, id: Int32, changes: Changes)
    requires TableAgrees(inv.table)
    ensures var outcome := ApplyAction(creative, inv, MineBlock(hotbarSlot, id), changes);
            if 0 <= hotbarSlot < 9 && SlotFits(inv, SlotInfo(Slot(Inventory, hotbarSlot), id))
            then outcome == Done(inv, changes[Slot(Inventory, hotbarSlot) := inv.cells[hotbarSlot]])
            else outcome.Refused?
  {
    if 0 <= hotbarSlot < 9 {
      VerifyIff(inv, SlotInfo(Slot(Inventory, hotbarSlot), id));
    }
  }

  /** Selecting a hotbar slot makes its item the held one; any other slot number changes nothing. */
  lemma SelectHolds(inv: Inv, slot: Byte, hotbarSlot: Byte)
    ensures var after := AfterSelect(inv, slot, hotbarSlot);
            if slot == hotbarSlot && slot < 9
            then HeldItem(after) == inv.cells[slot] && after == inv.(selected := slot)
            else after == inv
  {
  }

  // ---------- transfers between two names of one cell ----------

  /** When the server accepts a transfer between two names of one cell: the guard compares the names only. */
  lemma AliasedTransferAcceptedIff(creative: bool, inv: Inv, action: Action, changes: Changes)
    requires TableAgrees(inv.table) && Counted(inv) && Aliased(action)
    ensures var item := inv.cells[CellOf(action.source.ref)];
            ApplyAction(creative, inv, action, changes).Done?
            <==> && action.count > 0 && action.source.ref != action.destination.ref
                 && SlotFits(inv, action.source) && SlotFits(inv, action.destination)
                 && !IsEmpty(item) && action.count <= item.count && item.count + action.count <= 64
  {
    TransferAcceptedIff(creative, inv, action.source, action.destination, action.count, changes);
  }

  /** A client that knows the ID of a stack can double part of it with one accepted action, in any main cell. */
  lemma ItemsFromNothing(creative: bool, inv: Inv, slot: Byte, count: Byte, changes: Changes)
    requires WellFormed(inv) && slot < MAIN_SLOTS && 0 < count <= inv.cells[slot].count <= MAX_STACK_COUNT - count
    ensures var item := inv.cells[slot];
            var name, alias := Slot(Inventory, slot), Slot(CombinedHotBarAndInventory, slot);
            var action := Transfer(SlotInfo(name, item.stackNetworkID), SlotInfo(alias, item.stackNetworkID), count);
            var outcome := ApplyAction(creative, inv, action, changes);
            outcome.Done? && Total(outcome.inv.cells, item.kind) == Total(inv.cells, item.kind) + count
  {
    var id, kind := inv.cells[slot].stackNetworkID, inv.cells[slot].kind;
    var action := Transfer(SlotInfo(Slot(Inventory, slot), id), SlotInfo(Slot(CombinedHotBarAndInventory, slot), id),
                           count);
    assert GoodItem(inv.cells[slot], inv.nextStackID);
    ActionTotal(creative, inv, action, changes, kind);
  }

  /** Conservation fails for one item in the first cell: the server accepts a transfer that makes it two. */
  lemma TransferNeedNotConserve(creative: bool) returns (inv: Inv, action: Action)
    ensures WellFormed(inv) && action.Transfer?
    ensures var outcome := ApplyAction(creative, inv, action, map[]);
            outcome.Done? && Total(outcome.inv.cells, StackType(1, 0)) == Total(inv.cells, StackType(1, 0)) + 1
  {
    inv := Inv(seq(CELL_COUNT, k => if k == 0 then Item(StackType(1, 0), 1, 1) else ZERO_ITEM), 0, 2, map[]);
    action := Transfer(SlotInfo(Slot(Inventory, 0), 1), SlotInfo(Slot(CombinedHotBarAndInventory, 0), 1), 1);
    ItemsFromNothing(creative, inv, 0, 1, map[]);
  }
}
