/**
 Two runs of concurrent joins that the server allows: one in which players are shown without an
 entry in the player list, and one in which a player is shown after it has left.
 */
module JoinRuns {
  import opened Wrappers
  import opened ConcurrentJoin

  ghost predicate Reachable(s: State) {
    exists steps :: Execute(INITIAL, steps) == Some(s)
  }

  lemma {:induction false} ExecuteAppend(s: State, steps: seq<Step>, step: Step)
    requires Execute(s, steps).Some? && Enabled(Execute(s, steps).value, step)
    ensures Execute(s, steps + [step]) == Some(Next(Execute(s, steps).value, step))
    decreases |steps|
  {
    if steps == [] {
      assert [step][1..] == [];
      assert Execute(Next(s, step), []) == Some(Next(s, step));
    } else {
      assert (steps + [step])[1..] == steps[1..] + [step];
      ExecuteAppend(Next(s, steps[0]), steps[1..], step);
    }
  }

  lemma ReachNext(s: State, step: Step) returns (after: State)
    requires Reachable(s) && Enabled(s, step)
    ensures Reachable(after) && after == Next(s, step)
  {
    var steps :| Execute(INITIAL, steps) == Some(s);
    ExecuteAppend(INITIAL, steps, step);
    after := Next(s, step);
  }

  lemma ReachableInv(s: State)
    requires Reachable(s)
    ensures Inv(s)
  {
    var steps :| Execute(INITIAL, steps) == Some(s);
    RunKeepsInv(INITIAL, steps);
  }

  /** Nobody but `c` has moved. */
  ghost predicate OnlyMoved(s: State, after: State, c: Client) {
    forall x :: x != c ==> PhaseOf(after, x) == PhaseOf(s, x)
  }

  /** A client starts the game while it is alone. */
  lemma StartsAlone(s: State, c: Client) returns (after: State)
    requires Reachable(s) && PhaseOf(s, c).Fresh? && s.table == {}
    ensures Reachable(after) && PhaseOf(after, c).Waiting? && OnlyMoved(s, after, c)
    ensures after.table == {c} && after.spawned == s.spawned
    ensures forall x :: x != c ==> LogOf(after, x) == LogOf(s, x)
  {
    var s1 := ReachNext(s, Join(c));
    assert PhaseOf(s1, c) == Announcing({});
    var s2 := ReachNext(s1, Announced(c));
    after := OneIsListed(s2, c);
  }

  /** A client starts the game while one other is in the table. */
  lemma StartsSecond(s: State, c: Client, b: Client) returns (after: State)
    requires Reachable(s) && PhaseOf(s, c).Fresh? && s.table == {b} && c != b
    ensures Reachable(after) && PhaseOf(after, c).Waiting? && OnlyMoved(s, after, c)
    ensures after.table == {b, c} && after.spawned == s.spawned
  {
    var s1 := ReachNext(s, Join(c));
    assert PhaseOf(s1, c) == Announcing({b});
    var s2 := ReachNext(s1, Announce(c, b));
    assert PhaseOf(s2, c) == Announcing({});
    var s3 := ReachNext(s2, Announced(c));
    after := OneIsListed(s3, c);
  }

  lemma OneIsListed(s: State, c: Client) returns (after: State)
    requires Reachable(s) && PhaseOf(s, c).Snapshotting?
    ensures Reachable(after) && PhaseOf(after, c).Waiting? && OnlyMoved(s, after, c)
    ensures after.table == s.table && after.spawned == s.spawned
    ensures forall x :: x != c ==> LogOf(after, x) == LogOf(s, x)
  {
    after := ReachNext(s, Snapshot(c));
    after := ReachNext(after, List(c));
  }

  /** An idle client becomes spawned and lists its peers. */
  lemma OneSpawns(s: State, c: Client) returns (after: State)
    requires Reachable(s) && IsIdle(PhaseOf(s, c)) && !PhaseOf(s, c).Playing?
    ensures var peers := s.table * s.spawned - {c};
            && Reachable(after) && PhaseOf(after, c) == Receiving(peers, peers) && OnlyMoved(s, after, c)
            && after.table == s.table && after.spawned == s.spawned + {c} && after.logs == s.logs
  {
    after := ReachNext(s, SetSpawned(c));
    after := ReachNext(after, ListPeers(c));
    assert after.table * after.spawned - {c} == s.table * s.spawned - {c};
  }

  lemma OneFinishes(s: State, c: Client) returns (after: State)
    requires Reachable(s) && PhaseOf(s, c) == Receiving({}, {})
    ensures Reachable(after) && PhaseOf(after, c).Playing? && OnlyMoved(s, after, c)
    ensures after.table == s.table && after.spawned == s.spawned && after.logs == s.logs
  {
    var s1 := ReachNext(s, Received(c));
    after := ReachNext(s1, Shown(c));
  }

  /** One client joins alone and plays. */
  lemma OnePlays(c: Client) returns (s: State)
    ensures Reachable(s) && s.table == s.spawned == {c} && PhaseOf(s, c).Playing?
    ensures forall x :: x != c ==> PhaseOf(s, x).Fresh? && LogOf(s, x) == []
  {
    assert Reachable(INITIAL) by {
      assert Execute(INITIAL, []) == Some(INITIAL);
    }
    var s1 := StartsAlone(INITIAL, c);
    var s2 := OneSpawns(s1, c);
    assert s1.table * s1.spawned - {c} == {};
    s := OneFinishes(s2, c);
    forall x | x != c
      ensures PhaseOf(s, x).Fresh? && LogOf(s, x) == []
    {
      assert PhaseOf(s1, x) == PhaseOf(INITIAL, x) == Fresh;
      assert LogOf(s1, x) == LogOf(INITIAL, x) == LogOf(s2, x);
    }
  }

  /** A client that has not started the game is shown a player, and shown to it, with no list entry on either side. */
  lemma UnlistedSpawn(a: Client, b: Client) returns (s: State)
    requires a != b
    ensures Reachable(s) && LogOf(s, a) == [AddPlayer(b, false)]
    ensures AddPlayer(a, false) in LogOf(s, b) && !HasEntry(LogOf(s, b), a)
  {
    s := OnePlays(b);
    s := OneSpawns(s, a);
    assert PhaseOf(s, a) == Receiving({b}, {b});
    s := ReachNext(s, Receive(a, b));
    s := ReachNext(s, Received(a));
    s := ReachNext(s, Show(a, b));
    ReachableInv(s);
    assert a !in s.table && PhaseFits(PhaseOf(s, a), a in s.table, a in s.joined);
    NoEntry(s, b, a);
  }

  /** A player that leaves while another is about to be shown it is shown after all, and after its removal. */
  lemma LeftPlayerIsShown(a: Client, b: Client) returns (s: State)
    requires a != b
    ensures Reachable(s) && b !in s.table
    ensures |LogOf(s, a)| >= 2 && LogOf(s, a)[|LogOf(s, a)| - 2..] == [Removal(b), AddPlayer(b, true)]
  {
    var s1 := OnePlays(b);
    var s2 := StartsSecond(s1, a, b);
    var s3 := OneSpawns(s2, a);
    assert s2.table * s2.spawned - {a} == {b};
    s := LeavesTooEarly(s3, a, b);
  }

  lemma LeavesTooEarly(s: State, a: Client, b: Client) returns (after: State)
    requires Reachable(s) && a != b && s.table == s.spawned == {a, b}
    requires PhaseOf(s, a) == Receiving({b}, {b}) && PhaseOf(s, b).Playing?
    ensures Reachable(after) && b !in after.table
    ensures LogOf(after, a) == LogOf(s, a) + [Removal(b)] + [AddPlayer(b, true)]
  {
    var s1 := ReachNext(s, Leave(b));
    assert PhaseOf(s1, b) == Leaving({a});
    var s2 := ReachNext(s1, Farewell(b, a));
    after := ReachNext(s2, Receive(a, b));
  }
}
