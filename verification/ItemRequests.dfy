/**
 Whole requests: they are atomic, a batch is its accepted requests, and the stack IDs that an
 accepted request recorded are the ones later requests resolve a predicted ID to.
 */
module ItemRequests {
  import opened Numbers
  import opened Wrappers
  import opened ItemStacks
  import opened ItemStackIdentity

  // ---------- atomicity ----------

  lemma {:induction false} RefusalsAreErrors(creative: bool, inv: Inv, actions: seq<Action>, changes: Changes)
    ensures ApplyActions(creative, inv, actions, changes).Refused?
            ==> ApplyActions(creative, inv, actions, changes).status != OK
    decreases |actions|
  {
    if actions != [] {
      var next := ApplyAction(creative, inv, actions[0], changes);
      if next.Done? {
        RefusalsAreErrors(creative, next.inv, actions[1..], next.changes);
      }
    }
  }

  /** The requests of a batch that are accepted when their turn comes. */
  function AcceptedOf(creative: bool, inv: Inv, requests: seq<Request>): seq<Request>
    decreases |requests|
  {
    if requests == [] then []
    else
      (if Accepts(creative, inv, requests[0]) then [requests[0]] else [])
      + AcceptedOf(creative, AfterRequest(creative, inv, requests[0]), requests[1..])
  }

  /**
   A batch ends in the same inventory as its accepted requests alone, and those are
   accepted again when they are processed without the refused ones.
   */
  lemma {:induction false} BatchIsItsAcceptedRequests(creative: bool, inv: Inv, requests: seq<Request>)
    ensures var accepted := AcceptedOf(creative, inv, requests);
            && AfterBatch(creative, inv, accepted) == AfterBatch(creative, inv, requests)
            && AcceptedOf(creative, inv, accepted) == accepted
    decreases |requests|
  {
    if requests != [] {
      var after := AfterRequest(creative, inv, requests[0]);
      BatchIsItsAcceptedRequests(creative, after, requests[1..]);
      var accepted := AcceptedOf(creative, inv, requests);
      if Accepts(creative, inv, requests[0]) {
        assert accepted[1..] == AcceptedOf(creative, after, requests[1..]);
      } else {
        assert accepted == AcceptedOf(creative, after, requests[1..]);
      }
    }
  }

  /** One response per request, in order, and OK exactly for the accepted ones. */
  lemma {:induction false} OneAnswerPerRequest(creative: bool, inv: Inv, requests: seq<Request>, i: nat)
    requires i < |requests|
    ensures var answers := Answers(creative, inv, requests);
            && |answers| == |requests|
            && answers[i].requestID == requests[i].id
            && (answers[i].status == OK <==> Accepts(creative, AfterBatch(creative, inv, requests[..i]), requests[i]))
    decreases |requests|
  {
    var after := AfterRequest(creative, inv, requests[0]);
    AnswersCount(creative, inv, requests);
    RefusalsAreErrors(creative, inv, requests[0].actions, map[]);
    if i > 0 {
      assert requests[..i][1..] == requests[1..][..i - 1];
      OneAnswerPerRequest(creative, after, requests[1..], i - 1);
    }
  }

  lemma {:induction false} AnswersCount(creative: bool, inv: Inv, requests: seq<Request>)
    ensures |Answers(creative, inv, requests)| == |requests|
    decreases |requests|
  {
    if requests != [] {
      AnswersCount(creative, AfterRequest(creative, inv, requests[0]), requests[1..]);
    }
  }

  // ---------- what a request records ----------

  /** No cell was touched under two names. */
  ghost predicate OneNamePerCell(changes: Changes) {
    forall r, r' :: r in changes && r' in changes && Resolvable(r) && Resolvable(r') && CellOf(r) == CellOf(r')
      ==> r == r'
  }

  ghost predicate AllResolvable(changes: Changes) {
    forall r :: r in changes ==> Resolvable(r)
  }

  /** Every recorded item is what its cell holds. */
  ghost predicate Shows(inv: Inv, changes: Changes) {
    forall r :: r in changes && Resolvable(r) ==> changes[r] == inv.cells[CellOf(r)]
  }

  /** Unless a cell was touched under two names, the changes show the cells. */
  ghost predicate Tracks(inv: Inv, changes: Changes) {
    AllResolvable(changes) && (OneNamePerCell(changes) ==> Shows(inv, changes))
  }

  lemma PutTracks(inv: Inv, ref: Slot, item: Item, changes: Changes)
    requires Resolvable(ref) && Tracks(inv, changes)
    ensures Tracks(Put(inv, ref, item, changes).inv, Put(inv, ref, item, changes).changes)
  {
    var after := Put(inv, ref, item, changes);
    if OneNamePerCell(after.changes) {
      assert forall r :: r in changes ==> r in after.changes;
      assert OneNamePerCell(changes);
    }
  }

  lemma PutBothTracks(inv: Inv, ref: Slot, item: Item, ref': Slot, item': Item, changes: Changes)
    requires Resolvable(ref) && Resolvable(ref') && Tracks(inv, changes)
    ensures var after := PutBoth(inv, ref, item, ref', item', changes);
            Tracks(after.inv, after.changes)
  {
    PutTracks(inv, ref, item, changes);
    var first := Put(inv, ref, item, changes);
    PutTracks(first.inv, ref', item', first.changes);
  }

  lemma ActionTracks(creative: bool, inv: Inv, action: Action, changes: Changes)
    requires Tracks(inv, changes)
    requires ApplyAction(creative, inv, action, changes).Done?
    ensures var after := ApplyAction(creative, inv, action, changes);
            Tracks(after.inv, after.changes)
  {
    match action
    case Transfer(source, destination, count) =>
      var next, item, item' := TransferIsPut(inv, source.ref, destination.ref, count, changes);
      PutBothTracks(inv.(nextStackID := next), source.ref, item, destination.ref, item', changes);
    case Swap(source, destination) =>
      PutBothTracks(inv, source.ref, inv.cells[CellOf(destination.ref)],
                    destination.ref, inv.cells[CellOf(source.ref)], changes);
    case Drop(source, count) => PutTracks(inv, source.ref, Less(inv.cells[CellOf(source.ref)], count), changes);
    case Destroy(source, count) => PutTracks(inv, source.ref, Less(inv.cells[CellOf(source.ref)], count), changes);
    case MineBlock(hotbarSlot, _) =>
      var after := ApplyAction(creative, inv, action, changes);
      if OneNamePerCell(after.changes) {
        assert forall r :: r in changes ==> r in after.changes;
        assert OneNamePerCell(changes);
      }
  }

  lemma {:induction false} ActionsTrack(creative: bool, inv: Inv, actions: seq<Action>, changes: Changes)
    requires Tracks(inv, changes)
    requires ApplyActions(creative, inv, actions, changes).Done?
    ensures var after := ApplyActions(creative, inv, actions, changes);
            Tracks(after.inv, after.changes)
    decreases |actions|
  {
    if actions != [] {
      ActionTracks(creative, inv, actions[0], changes);
      var next := ApplyAction(creative, inv, actions[0], changes);
      ActionsTrack(creative, next.inv, actions[1..], next.changes);
    }
  }

  /** The names of a slot are exactly the names of its cell. */
  lemma NamesOfCell(ref: Slot, name: Slot)
    requires Resolvable(ref)
    ensures name in NamesOf(ref) <==> Resolvable(name) && CellOf(name) == CellOf(ref)
  {
  }

  lemma {:induction false} RecordedIdsAre(changes: Changes, order: seq<Slot>, ref: Slot, name: Slot)
    requires AllResolvable(changes) && OneNamePerCell(changes)
    requires ref in changes && ref in order && name in NamesOf(ref)
    ensures name in RecordedIds(changes, order) && RecordedIds(changes, order)[name] == StackId(changes[ref])
    decreases |order|
  {
    var last, before := order[|order| - 1], order[..|order| - 1];
    if last == ref {
    } else {
      assert ref in before;
      RecordedIdsAre(changes, before, ref, name);
      if last in changes && name in NamesOf(last) {
        NamesOfCell(ref, name);
        NamesOfCell(last, name);
        assert false;
      }
    }
  }

  /** The form of a request's ID under which later requests refer to its results. */
  function PredictedId(id: Int32): Int32 {
    if id < 0 then id else Negate(id)
  }

  /**
   After an accepted request with a non-zero ID that touched each cell under one name, the
   negative form of its ID resolves, under every name of a touched cell, to the stack ID that
   the cell has now.
   */
  lemma PredictionAfterRequest(creative: bool, inv: Inv, request: Request, ref: Slot, name: Slot)
    requires request.id != 0 && CoversAllSlots(request.order) && Accepts(creative, inv, request)
    requires var changes := Answer(creative, inv, request).changes;
             OneNamePerCell(changes) && ref in changes
    requires Resolvable(ref) && Resolvable(name) && CellOf(name) == CellOf(ref)
    ensures var after := AfterRequest(creative, inv, request);
            && PredictedId(request.id) in after.table
            && name in after.table[PredictedId(request.id)]
            && ResolveStackId(after.table, PredictedId(request.id), name) == Some(StackId(after.cells[CellOf(name)]))
  {
    var done := ApplyActions(creative, inv, request.actions, map[]);
    ActionsTrack(creative, inv, request.actions, map[]);
    NamesOfCell(ref, name);
    RecordedIdsAre(done.changes, request.order, ref, name);
    assert NamesOf(name)[0] == name;
    assert ref in done.changes.Keys && |done.changes.Keys| != 0;
  }

  // ---------- how long it stays ----------

  /** No accepted request of the run reuses the key or finds the table over its limit. */
  ghost predicate Undisturbed(creative: bool, inv: Inv, run: seq<Event>, key: Int32)
    decreases |run|
  {
    run == []
    || (&& (run[0].Submit? && Accepts(creative, inv, run[0].request)
            && |Answer(creative, inv, run[0].request).changes| != 0
            ==> run[0].request.id != key && Negate(run[0].request.id) != key && |inv.table| <= TABLE_RESET_LIMIT)
        && Undisturbed(creative, AfterEvent(creative, inv, run[0]), run[1..], key))
  }

  lemma {:induction false} EntryStays(creative: bool, inv: Inv, run: seq<Event>, key: Int32)
    requires key in inv.table && Undisturbed(creative, inv, run, key)
    ensures key in AfterRun(creative, inv, run).table
    ensures AfterRun(creative, inv, run).table[key] == inv.table[key]
    decreases |run|
  {
    if run != [] {
      if run[0].Submit? && Accepts(creative, inv, run[0].request) {
        ActionsFrame(creative, inv, run[0].request.actions, map[]);
      }
      EntryStays(creative, AfterEvent(creative, inv, run[0]), run[1..], key);
    }
  }

  /**
   The prediction holds until the table is reset or the ID, or its negation, is used again:
   whatever else the run did to the cell, the predicted ID still names the stack of that moment.
   */
  lemma PredictionHolds(creative: bool, inv: Inv, request: Request, ref: Slot, name: Slot, run: seq<Event>)
    requires request.id != 0 && CoversAllSlots(request.order) && Accepts(creative, inv, request)
    requires var changes := Answer(creative, inv, request).changes;
             OneNamePerCell(changes) && ref in changes
    requires Resolvable(ref) && Resolvable(name) && CellOf(name) == CellOf(ref)
    requires Undisturbed(creative, AfterRequest(creative, inv, request), run, PredictedId(request.id))
    ensures var after := AfterRequest(creative, inv, request);
            ResolveStackId(AfterRun(creative, after, run).table, PredictedId(request.id), name)
            == Some(StackId(after.cells[CellOf(name)]))
  {
    var after := AfterRequest(creative, inv, request);
    PredictionAfterRequest(creative, inv, request, ref, name);
    EntryStays(creative, after, run, PredictedId(request.id));
    assert NamesOf(name)[0] == name;
  }

  /** How many requests a run submits. */
  function SubmitCount(run: seq<Event>): nat {
    if run == [] then 0 else (if run[0].Submit? then 1 else 0) + SubmitCount(run[1..])
  }

  ghost predicate AvoidsId(run: seq<Event>, id: Int32) {
    forall i :: 0 <= i < |run| && run[i].Submit? ==> run[i].request.id != id && Negate(run[i].request.id) != id
  }

  // ---------- the table in every run ----------

  ghost predicate Mirrored(table: Table, id: Int32)
    requires id in table
  {
    Negate(id) in table && table[Negate(id)] == table[id]
  }

  ghost predicate ClosedUnderNegation(table: Table) {
    forall id {:trigger Mirrored(table, id)} :: id in table ==> Mirrored(table, id)
  }

  lemma InsertKeepsTable(table: Table, id: Int32, slots: map<Slot, Int32>)
    requires ClosedUnderNegation(table)
    ensures var after := table[id := slots][Negate(id) := slots];
            ClosedUnderNegation(after) && |after| <= |table| + 2
  {
    assert |table[id := slots]| <= |table| + 1;
    var after := table[id := slots][Negate(id) := slots];
    forall k | k in after
      ensures Mirrored(after, k)
    {
      assert Negate(Negate(k)) == k;
      if k in table {
        assert Mirrored(table, k);
      }
    }
  }

  lemma RememberKeepsTable(table: Table, id: Int32, changes: Changes, order: seq<Slot>)
    requires ClosedUnderNegation(table) && |table| <= TABLE_RESET_LIMIT + 2
    ensures var after := Remember(table, id, changes, order);
            ClosedUnderNegation(after) && |after| <= TABLE_RESET_LIMIT + 2 && |after| <= |table| + 2
  {
    var kept: Table := if |table| > TABLE_RESET_LIMIT then map[] else table;
    var slots := RecordedIds(changes, order);
    InsertKeepsTable(kept, id, slots);
    assert id == 0 ==> kept[id := slots][Negate(id) := slots] == kept[id := slots];
  }

  /** A run that avoids the ID and is short enough for the table does not disturb the entry. */
  lemma {:induction false} ShortRunsLeaveEntry(creative: bool, inv: Inv, run: seq<Event>, key: Int32)
    requires AvoidsId(run, key)
    requires ClosedUnderNegation(inv.table) && |inv.table| + 2 * SubmitCount(run) <= TABLE_RESET_LIMIT + 2
    ensures Undisturbed(creative, inv, run, key)
    decreases |run|
  {
    if run != [] {
      var after := AfterEvent(creative, inv, run[0]);
      if run[0].Submit? && Accepts(creative, inv, run[0].request) {
        var done := ApplyActions(creative, inv, run[0].request.actions, map[]);
        ActionsFrame(creative, inv, run[0].request.actions, map[]);
        RememberKeepsTable(inv.table, run[0].request.id, done.changes, run[0].request.order);
      }
      ShortRunsLeaveEntry(creative, after, run[1..], key);
    }
  }

  /** In every run the table is closed under negation and holds at most 258 entries. */
  lemma {:induction false} RunKeepsTable(creative: bool, inv: Inv, run: seq<Event>)
    requires ClosedUnderNegation(inv.table) && |inv.table| <= TABLE_RESET_LIMIT + 2
    ensures var table := AfterRun(creative, inv, run).table;
            ClosedUnderNegation(table) && |table| <= TABLE_RESET_LIMIT + 2
    decreases |run|
  {
    if run != [] {
      if run[0].Submit? && Accepts(creative, inv, run[0].request) {
        var done := ApplyActions(creative, inv, run[0].request.actions, map[]);
        ActionsFrame(creative, inv, run[0].request.actions, map[]);
        RememberKeepsTable(inv.table, run[0].request.id, done.changes, run[0].request.order);
      }
      RunKeepsTable(creative, AfterEvent(creative, inv, run[0]), run[1..]);
    }
  }
}
