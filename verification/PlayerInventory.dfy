/**
 The inventory object of a client, updated in place as the source does: cells are overwritten
 while a request is applied, and a refused request is undone from a snapshot. Every method is
 proved against the operation on values that it carries out.
 */
module PlayerInventory {
  import opened Numbers
  import opened Wrappers
  import opened ItemStacks
  import opened ItemRequests

  type MainCells = s: seq<Item> | |s| == MAIN_SLOTS witness seq(MAIN_SLOTS, _ => ZERO_ITEM)

  datatype Snapshot = Snapshot(main: MainCells, cursor: Item, offhand: Item, selectedHotbar: Byte, nextStackID: Int32)

  /** How the state before and after a method call and its error relate to an outcome on values. */
  ghost predicate Carried(outcome: Outcome, before: Inv, after: Inv, changes: Changes, changes': Changes,
                          error: Option<Status>) {
    match outcome
    case Refused(status) => error == Some(status) && after == before && changes' == changes
    case Done(inv, recorded) => error == None && after == inv && changes' == recorded
  }

  lemma AllOkAppend(responses: seq<Response>, response: Response)
    ensures AllOk(responses + [response]) == (AllOk(responses) && response.status == OK)
  {
    var more := responses + [response];
    assert more[|responses|] == response;
    assert forall i :: 0 <= i < |responses| ==> more[i] == responses[i];
  }

  lemma Regroup<T>(a: seq<T>, b: seq<T>, c: seq<T>)
    ensures a + (b + c) == (a + b) + c
  {
  }

  lemma BatchFirst(creative: bool, inv: Inv, requests: seq<Request>, before: seq<Response>)
    requires requests != []
    ensures var after := AfterRequest(creative, inv, requests[0]);
            && AfterBatch(creative, inv, requests) == AfterBatch(creative, after, requests[1..])
            && before + Answers(creative, inv, requests)
               == (before + [Answer(creative, inv, requests[0])]) + Answers(creative, after, requests[1..])
  {
    var first, rest := Answer(creative, inv, requests[0]),
                       Answers(creative, AfterRequest(creative, inv, requests[0]), requests[1..]);
    assert Answers(creative, inv, requests) == [first] + rest;
    Regroup(before, [first], rest);
  }

  /** Records an ID under each of the names. */
  method RecordNames(slots: map<Slot, Int32>, names: seq<Slot>, id: Int32) returns (r: map<Slot, Int32>)
    ensures r == slots + Named(names, id)
  {
    r := slots;
    for j := 0 to |names|
      invariant forall name :: name in r <==> name in slots || name in names[..j]
      invariant forall name :: name in r ==> r[name] == if name in names[..j] then id else slots[name]
    {
      r := r[names[j] := id];
    }
  }

  class PlayerInventory {
    var main: MainCells
    var cursor: Item
    var offhand: Item
    var selectedHotbar: Byte
    var nextStackID: Int32
    var responseStackIDs: Table
    const creative: bool

    ghost function Model(): Inv
      reads this
    {
      var cells: seq<Item> := main + [cursor, offhand];
      assert |cells| == CELL_COUNT;
      Inv(cells, selectedHotbar, nextStackID, responseStackIDs)
    }

    constructor (creative: bool)
      ensures Model() == EmptyInventory() && this.creative == creative
    {
      main := seq(MAIN_SLOTS, _ => ZERO_ITEM);
      cursor, offhand, selectedHotbar := ZERO_ITEM, ZERO_ITEM, 0;
      nextStackID, responseStackIDs := 1, map[];
      this.creative := creative;
      new;
      assert Model().cells == EmptyInventory().cells;
    }

    /** An inventory that already holds something. */
    constructor Holding(creative: bool, inv: Inv)
      ensures Model() == inv && this.creative == creative
    {
      main := inv.cells[..MAIN_SLOTS];
      cursor, offhand, selectedHotbar := inv.cells[CURSOR_CELL], inv.cells[OFFHAND_CELL], inv.selected;
      nextStackID, responseStackIDs := inv.nextStackID, inv.table;
      this.creative := creative;
      new;
      assert Model().cells == inv.cells;
    }

    /** The contents as a value. */
    method Value() returns (inv: Inv)
      ensures inv == Model()
    {
      var cells: seq<Item> := main + [cursor, offhand];
      assert cells == Model().cells;
      inv := Inv(cells, selectedHotbar, nextStackID, responseStackIDs);
    }

    function ItemAt(ref: Slot): (item: Item)
      requires Resolvable(ref)
      reads this
      ensures item == Model().cells[CellOf(ref)]
    {
      if ref.container.Cursor? then cursor
      else if ref.container.Offhand? then offhand
      else main[ref.slot]
    }

    method NextNetworkStackID() returns (id: Int32)
      modifies this`nextStackID
      ensures id == FreshId(old(nextStackID)) && nextStackID == Increment(id)
    {
      if nextStackID < 1 {
        nextStackID := 1;
      }
      id := nextStackID;
      nextStackID := Increment(nextStackID);
    }

    method NormaliseItem(item: Item) returns (stored: Item)
      modifies this`nextStackID
      ensures (stored, nextStackID) == Normalise(old(nextStackID), item)
    {
      if IsEmpty(item) {
        return ZERO_ITEM;
      }
      stored := item;
      if item.stackNetworkID <= 0 {
        var id := NextNetworkStackID();
        stored := item.(stackNetworkID := id);
        return;
      }
      if item.stackNetworkID >= nextStackID {
        nextStackID := Increment(item.stackNetworkID);
      }
    }

    method SetItem(ref: Slot, item: Item)
      requires Resolvable(ref)
      modifies this`main, this`cursor, this`offhand, this`nextStackID
      ensures Model() == Store(old(Model()), CellOf(ref), item)
    {
      var stored := NormaliseItem(item);
      if ref.container.Cursor? {
        cursor := stored;
      } else if ref.container.Offhand? {
        offhand := stored;
      } else {
        main := main[ref.slot := stored];
      }
      assert Model().cells == old(Model()).cells[CellOf(ref) := stored];
    }

    method SetRequestSlot(ref: Slot, item: Item, changes: Changes) returns (changes': Changes)
      requires Resolvable(ref)
      modifies this`main, this`cursor, this`offhand, this`nextStackID
      ensures Done(Model(), changes') == Put(old(Model()), ref, item, changes)
    {
      SetItem(ref, item);
      changes' := changes[ref := ItemAt(ref)];
    }

    method ResolveStackNetworkID(id: Int32, ref: Slot) returns (r: Option<Int32>)
      ensures r == ResolveStackId(responseStackIDs, id, ref)
    {
      if id >= 0 {
        return Some(id);
      }
      var names := NamesOf(ref);
      for i := 0 to |names|
        invariant FirstKnown(responseStackIDs, id, names) == FirstKnown(responseStackIDs, id, names[i..])
      {
        if id in responseStackIDs && names[i] in responseStackIDs[id] {
          return Some(responseStackIDs[id][names[i]]);
        }
      }
      r := None;
    }

    method VerifyStackRequestSlot(info: SlotInfo) returns (r: Checked)
      ensures r == Verify(Model(), info)
    {
      if info.ref.container.OtherContainer? {
        return Bad(InvalidSourceContainer);
      }
      if !Resolvable(info.ref) {
        return Bad(FailedToValidateSrcSlot);
      }
      var item := ItemAt(info.ref);
      var expected := ResolveStackNetworkID(info.stackNetworkID, info.ref);
      if expected.None? || StackId(item) != expected.value {
        return Bad(InvalidItemNetId);
      }
      r := Found(info.ref, item);
    }

    method TransferStack(source: SlotInfo, destination: SlotInfo, count: Byte, changes: Changes)
      returns (error: Option<Status>, changes': Changes)
      modifies this`main, this`cursor, this`offhand, this`nextStackID
      ensures Carried(ItemStacks.TransferStack(old(Model()), source, destination, count, changes),
                      old(Model()), Model(), changes, changes', error)
    {
      changes' := changes;
      if count == 0 {
        return Some(InvalidTransferAmount), changes;
      }
      var from := VerifyStackRequestSlot(source);
      if from.Bad? {
        return Some(from.status), changes;
      }
      var to := VerifyStackRequestSlot(destination);
      if to.Bad? {
        return Some(to.status), changes;
      }
      if from.ref == to.ref {
        return Some(DstContainerAndSlotEqualToSrcContainerAndSlot), changes;
      }
      error, changes' := MoveItems(from.ref, to.ref, count, changes);
    }

    /** The part of a transfer after its checks. */
    method MoveItems(ref: Slot, ref': Slot, count: Byte, changes: Changes)
      returns (error: Option<Status>, changes': Changes)
      requires Resolvable(ref) && Resolvable(ref')
      modifies this`main, this`cursor, this`offhand, this`nextStackID
      ensures Carried(TransferBetween(old(Model()), ref, ref', count, changes),
                      old(Model()), Model(), changes, changes', error)
    {
      error, changes' := None, changes;
      var sourceItem, destinationItem := ItemAt(ref), ItemAt(ref');
      if IsEmpty(sourceItem) || sourceItem.count < count {
        return Some(InvalidTransferAmount), changes;
      }
      if IsEmpty(destinationItem) {
        var moved := sourceItem.(count := count);
        if count != sourceItem.count {
          var id := NextNetworkStackID();
          moved := moved.(stackNetworkID := id);
        }
        changes' := SetRequestSlot(ref, Less(sourceItem, count), changes);
        changes' := SetRequestSlot(ref', moved, changes');
        return;
      }
      if !SameStackType(sourceItem, destinationItem) {
        return Some(CannotPlaceItem), changes;
      }
      if (destinationItem.count + count) % 0x1_0000 > MAX_STACK_COUNT {
        return Some(CannotPlaceItem), changes;
      }
      changes' := SetRequestSlot(ref, Less(sourceItem, count), changes);
      changes' := SetRequestSlot(ref', destinationItem.(count := (destinationItem.count + count) % 0x1_0000), changes');
    }

    method SwapStacks(source: SlotInfo, destination: SlotInfo, changes: Changes)
      returns (error: Option<Status>, changes': Changes)
      modifies this`main, this`cursor, this`offhand, this`nextStackID
      ensures Carried(ItemStacks.SwapStacks(old(Model()), source, destination, changes),
                      old(Model()), Model(), changes, changes', error)
    {
      error, changes' := None, changes;
      var from := VerifyStackRequestSlot(source);
      if from.Bad? {
        return Some(from.status), changes;
      }
      var to := VerifyStackRequestSlot(destination);
      if to.Bad? {
        return Some(to.status), changes;
      }
      if from.ref == to.ref {
        return Some(DstContainerAndSlotEqualToSrcContainerAndSlot), changes;
      }
      changes' := SetRequestSlot(from.ref, to.item, changes);
      changes' := SetRequestSlot(to.ref, from.item, changes');
    }

    /** Drops or destroys, with the status that the respective refusal carries. */
    method RemoveStack(source: SlotInfo, count: Byte, refusal: Status, changes: Changes)
      returns (error: Option<Status>, changes': Changes)
      modifies this`main, this`cursor, this`offhand, this`nextStackID
      ensures Carried(ItemStacks.RemoveStack(old(Model()), source, count, refusal, changes),
                      old(Model()), Model(), changes, changes', error)
    {
      error, changes' := None, changes;
      if count == 0 {
        return Some(InvalidTransferAmount), changes;
      }
      var from := VerifyStackRequestSlot(source);
      if from.Bad? {
        return Some(from.status), changes;
      }
      if IsEmpty(from.item) || from.item.count < count {
        return Some(refusal), changes;
      }
      changes' := SetRequestSlot(from.ref, Less(from.item, count), changes);
    }

    method AckMineBlockStack(hotbarSlot: Int32, stackNetworkID: Int32, changes: Changes)
      returns (error: Option<Status>, changes': Changes)
      ensures Carried(AckMineBlock(Model(), hotbarSlot, stackNetworkID, changes),
                      Model(), Model(), changes, changes', error)
    {
      error, changes' := None, changes;
      if hotbarSlot < 0 || hotbarSlot >= HOTBAR_SLOTS {
        return Some(FailedToValidateSrcSlot), changes;
      }
      var held := VerifyStackRequestSlot(SlotInfo(Slot(Inventory, hotbarSlot), stackNetworkID));
      if held.Bad? {
        return Some(held.status), changes;
      }
      changes' := changes[held.ref := held.item];
    }

    method ApplyStackRequestAction(action: Action, changes: Changes)
      returns (error: Option<Status>, changes': Changes)
      modifies this`main, this`cursor, this`offhand, this`nextStackID
      ensures Carried(ApplyAction(creative, old(Model()), action, changes),
                      old(Model()), Model(), changes, changes', error)
    {
      changes' := changes;
      match action {
        case Transfer(source, destination, count) =>
          error, changes' := TransferStack(source, destination, count, changes);
        case Swap(source, destination) =>
          error, changes' := SwapStacks(source, destination, changes);
        case Drop(source, count) =>
          error, changes' := RemoveStack(source, count, CannotDropItem, changes);
        case Destroy(source, count) =>
          if !creative {
            return Some(PlayerNotInCreativeMode), changes;
          }
          error, changes' := RemoveStack(source, count, CannotDestroyItem, changes);
        case MineBlock(hotbarSlot, stackNetworkID) =>
          error, changes' := AckMineBlockStack(hotbarSlot, stackNetworkID, changes);
        case OtherAction =>
          error := Some(ActionRequestNotAllowed);
      }
    }

    method TakeSnapshot() returns (s: Snapshot)
      ensures s == Snapshot(main, cursor, offhand, selectedHotbar, nextStackID)
    {
      s := Snapshot(main, cursor, offhand, selectedHotbar, nextStackID);
    }

    method Restore(s: Snapshot)
      modifies this`main, this`cursor, this`offhand, this`selectedHotbar, this`nextStackID
      ensures Model() == Inv(s.main + [s.cursor, s.offhand], s.selectedHotbar, s.nextStackID, old(responseStackIDs))
    {
      main, cursor, offhand := s.main, s.cursor, s.offhand;
      selectedHotbar, nextStackID := s.selectedHotbar, s.nextStackID;
    }

    method RememberResponseStackIDs(requestID: Int32, changes: Changes, order: seq<Slot>)
      modifies this`responseStackIDs
      ensures responseStackIDs == Remember(old(responseStackIDs), requestID, changes, order)
    {
      if |changes| == 0 {
        return;
      }
      if |responseStackIDs| > TABLE_RESET_LIMIT {
        responseStackIDs := map[];
      }
      ghost var kept := responseStackIDs;
      var slots: map<Slot, Int32> := map[];
      for i := 0 to |order|
        invariant responseStackIDs == kept
        invariant slots == RecordedIds(changes, order[..i])
      {
        assert order[..i + 1][..i] == order[..i];
        var ref := order[i];
        if ref in changes {
          slots := RecordNames(slots, NamesOf(ref), StackId(changes[ref]));
        }
      }
      assert order[..|order|] == order;
      responseStackIDs := responseStackIDs[requestID := slots];
      if requestID != 0 {
        responseStackIDs := responseStackIDs[Negate(requestID) := slots];
      }
    }

    /** A refused request leaves the whole inventory, the table included, as it was. */
    method ApplyItemStackRequest(request: Request) returns (response: Response, ok: bool)
      modifies this
      ensures Model() == AfterRequest(creative, old(Model()), request)
      ensures response == Answer(creative, old(Model()), request)
      ensures ok == Accepts(creative, old(Model()), request)
      ensures !ok ==> Model() == old(Model())
      ensures ok <==> response.status == OK
    {
      RefusalsAreErrors(creative, Model(), request.actions, map[]);
      var snapshot := TakeSnapshot();
      var error, changes := ApplyActionList(request.actions);
      if error.Some? {
        Restore(snapshot);
        return Response(error.value, request.id, map[]), false;
      }
      RememberResponseStackIDs(request.id, changes, request.order);
      response, ok := Response(OK, request.id, changes), true;
    }

    /** Applies actions until one is refused; what the earlier ones did is then still there. */
    method ApplyActionList(actions: seq<Action>) returns (error: Option<Status>, changes: Changes)
      modifies this`main, this`cursor, this`offhand, this`nextStackID
      ensures match ApplyActions(creative, old(Model()), actions, map[])
              case Refused(status) => error == Some(status)
              case Done(inv, recorded) => error == None && Model() == inv && changes == recorded
    {
      changes := map[];
      for i := 0 to |actions|
        invariant ApplyActions(creative, old(Model()), actions, map[])
               == ApplyActions(creative, Model(), actions[i..], changes)
      {
        error, changes := ApplyStackRequestAction(actions[i], changes);
        if error.Some? {
          return;
        }
        assert actions[i..][1..] == actions[i + 1..];
      }
      error := None;
    }

    /** One response per request; the caller resynchronises the client when one was refused. */
    method ProcessItemStackRequests(requests: seq<Request>)
      returns (responses: seq<Response>, rejected: bool, heldChanged: bool)
      modifies this
      ensures Model() == AfterBatch(creative, old(Model()), requests)
      ensures responses == Answers(creative, old(Model()), requests)
      ensures rejected == !AllOk(responses)
      ensures heldChanged == !SameItem(HeldItem(old(Model())), HeldItem(Model()))
    {
      var beforeHeld := CurrentHeldItem();
      responses, rejected := ApplyItemStackRequests(requests);
      var afterHeld := CurrentHeldItem();
      heldChanged := !SameItem(beforeHeld, afterHeld);
    }

    method ApplyItemStackRequests(requests: seq<Request>) returns (responses: seq<Response>, rejected: bool)
      modifies this
      ensures Model() == AfterBatch(creative, old(Model()), requests)
      ensures responses == Answers(creative, old(Model()), requests)
      ensures rejected == !AllOk(responses)
    {
      responses, rejected := [], false;
      for i := 0 to |requests|
        invariant AfterBatch(creative, old(Model()), requests) == AfterBatch(creative, Model(), requests[i..])
        invariant rejected == !AllOk(responses)
        invariant Answers(creative, old(Model()), requests) == responses + Answers(creative, Model(), requests[i..])
      {
        BatchFirst(creative, Model(), requests[i..], responses);
        var response, ok := ApplyItemStackRequest(requests[i]);
        assert requests[i..][1..] == requests[i + 1..];
        AllOkAppend(responses, response);
        responses := responses + [response];
        rejected := rejected || !ok;
      }
    }

    method CurrentHeldItem() returns (item: Item)
      ensures item == HeldItem(Model())
    {
      if selectedHotbar >= HOTBAR_SLOTS {
        return ZERO_ITEM;
      }
      item := main[selectedHotbar];
    }

    /** A held-slot packet for the inventory window; `selected` says whether peers are told. */
    method SelectHotbarSlot(slot: Byte, hotbarSlot: Byte) returns (selected: bool)
      modifies this`selectedHotbar
      ensures Model() == AfterSelect(old(Model()), slot, hotbarSlot)
      ensures selected == (hotbarSlot == slot && slot < HOTBAR_SLOTS)
    {
      if hotbarSlot != slot || slot >= HOTBAR_SLOTS {
        return false;
      }
      selectedHotbar := slot;
      selected := true;
    }
  }
}
