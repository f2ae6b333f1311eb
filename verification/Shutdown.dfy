/**
 Shutting the RakNet server down, as interleaved steps of the accept loop, of any number of
 sessions and of any number of callers of Close. A step is what one goroutine does between two
 points where another can run: a critical section, a channel or wait-group operation, or a call.
 */
module Shutdown {
  import opened Wrappers

  type Conn = nat
  type Caller = nat

  datatype Acceptor =
    | Accepting
    | Got(conn: Conn)         // a connection was accepted
    | Starting(conn: Conn)    // it is registered, its goroutine is not started yet
    | Ended                   // the loop returned and closed the done channel

  datatype Session =
    | Registered
    | Running
    | HandlerReturned
    | Removed                 // taken out of the session table
    | Finished                // the wait group was told

  /** Where a call of Close is; only the first call takes the long way. */
  datatype Closer =
    | Marked(open: set<Conn>)
    | HangingUp(open: set<Conn>)
    | AwaitingSessions
    | AwaitingLoop(first: bool)
    | Returned(first: bool)

  datatype State = State(
    closed: bool,
    listenerClosed: bool,
    acceptor: Acceptor,
    table: set<Conn>,
    waitGroup: int,
    sessions: map<Conn, Session>,
    closers: map<Caller, Closer>,
    hungUp: set<Conn>)        // connections that the first call of Close has closed

  const INITIAL := State(false, false, Accepting, {}, 0, map[], map[], {})

  datatype Step =
    | Accept(conn: Conn)
    | AcceptFails
    | AcceptClosed
    | Register
    | StartSession
    | HandlerReturns(conn: Conn)
    | Unregister(conn: Conn)
    | GroupDone(conn: Conn)
    | Close(caller: Caller)
    | CloseListener(caller: Caller)
    | HangUp(caller: Caller, conn: Conn)
    | AllHungUp(caller: Caller)
    | GroupWaited(caller: Caller)
    | LoopWaited(caller: Caller)

  predicate At(s: State, caller: Caller, closer: Closer) {
    caller in s.closers && s.closers[caller] == closer
  }

  predicate SessionAt(s: State, conn: Conn, session: Session) {
    conn in s.sessions && s.sessions[conn] == session
  }

  predicate Enabled(s: State, step: Step) {
    match step
    case Accept(conn) => s.acceptor.Accepting? && conn !in s.sessions
    case AcceptFails => s.acceptor.Accepting?
    case AcceptClosed => s.acceptor.Accepting? && s.listenerClosed
    case Register => s.acceptor.Got?
    case StartSession => s.acceptor.Starting?
    case HandlerReturns(conn) => SessionAt(s, conn, Running)
    case Unregister(conn) => SessionAt(s, conn, HandlerReturned)
    case GroupDone(conn) => SessionAt(s, conn, Removed)
    case Close(caller) => caller !in s.closers
    case CloseListener(caller) => caller in s.closers && s.closers[caller].Marked?
    case HangUp(caller, conn) => caller in s.closers && s.closers[caller].HangingUp? && conn in s.closers[caller].open
    case AllHungUp(caller) => At(s, caller, HangingUp({}))
    case GroupWaited(caller) => At(s, caller, AwaitingSessions) && s.waitGroup == 0
    case LoopWaited(caller) => caller in s.closers && s.closers[caller].AwaitingLoop? && s.acceptor.Ended?
  }

  function Next(s: State, step: Step): State
    requires Enabled(s, step)
  {
    match step
    case Accept(conn) => s.(acceptor := Got(conn))
    case AcceptFails => s
    case AcceptClosed => s.(acceptor := Ended)
    case Register =>
      var conn := s.acceptor.conn;
      if s.closed then s.(acceptor := Accepting)
      else s.(acceptor := Starting(conn), table := s.table + {conn}, waitGroup := s.waitGroup + 1,
              sessions := s.sessions[conn := Registered])
    case StartSession => s.(acceptor := Accepting, sessions := s.sessions[s.acceptor.conn := Running])
    case HandlerReturns(conn) => s.(sessions := s.sessions[conn := HandlerReturned])
    case Unregister(conn) => s.(table := s.table - {conn}, sessions := s.sessions[conn := Removed])
    case GroupDone(conn) => s.(waitGroup := s.waitGroup - 1, sessions := s.sessions[conn := Finished])
    case Close(caller) =>
      if s.closed then s.(closers := s.closers[caller := AwaitingLoop(false)])
      else s.(closed := true, closers := s.closers[caller := Marked(s.table)])
    case CloseListener(caller) =>
      s.(listenerClosed := true, closers := s.closers[caller := HangingUp(s.closers[caller].open)])
    case HangUp(caller, conn) =>
      s.(closers := s.closers[caller := HangingUp(s.closers[caller].open - {conn})], hungUp := s.hungUp + {conn})
    case AllHungUp(caller) => s.(closers := s.closers[caller := AwaitingSessions])
    case GroupWaited(caller) => s.(closers := s.closers[caller := AwaitingLoop(true)])
    case LoopWaited(caller) => s.(closers := s.closers[caller := Returned(s.closers[caller].first)])
  }

  /** The state after a run, if every step was possible when its turn came. */
  function Execute(s: State, steps: seq<Step>): Option<State>
    decreases |steps|
  {
    if steps == [] then Some(s)
    else if !Enabled(s, steps[0]) then None
    else Execute(Next(s, steps[0]), steps[1..])
  }

  // ---------- what every step keeps ----------

  /** Sessions that the wait group still counts. */
  function Live(sessions: map<Conn, Session>): set<Conn> {
    set conn | conn in sessions && !sessions[conn].Finished?
  }

  ghost predicate PastSessions(closer: Closer) {
    closer == AwaitingLoop(true) || closer == Returned(true)
  }

  ghost predicate IsFirst(closer: Closer) {
    closer != AwaitingLoop(false) && closer != Returned(false)
  }

  ghost predicate SessionsInv(s: State) {
    && s.waitGroup == |Live(s.sessions)|
    && (forall conn :: SessionAt(s, conn, Registered) <==> s.acceptor == Starting(conn))
    && (s.acceptor.Got? ==> s.acceptor.conn !in s.sessions)
    && (forall conn :: conn in s.table <==> conn in s.sessions && s.sessions[conn] !in {Removed, Finished})
  }

  ghost predicate ClosersInv(s: State) {
    && (s.listenerClosed ==> s.closed) && (s.acceptor.Ended? ==> s.listenerClosed)
    && (s.closers.Keys != {} ==> s.closed)
    && (forall caller :: caller in s.closers && !s.closers[caller].Marked? && IsFirst(s.closers[caller]) ==>
          s.listenerClosed)
    && (forall caller :: caller in s.closers && PastSessions(s.closers[caller]) ==> s.waitGroup == 0)
    && (forall caller :: caller in s.closers && s.closers[caller].Returned? ==> s.acceptor.Ended?)
  }

  /** A registered session is in the snapshot of the first call, or was hung up already. */
  ghost predicate IsCovered(s: State, closer: Closer) {
    match closer
    case Marked(open) => s.table <= open
    case HangingUp(open) => s.table <= open + s.hungUp
    case AwaitingSessions => s.table <= s.hungUp
    case AwaitingLoop(first) => first ==> s.table <= s.hungUp
    case Returned(first) => first ==> s.table <= s.hungUp
  }

  ghost predicate SnapshotInv(s: State) {
    forall caller :: caller in s.closers ==> IsCovered(s, s.closers[caller])
  }

  /** Some call of Close was the first. */
  ghost predicate HasFirst(s: State) {
    s.closed ==> exists caller :: caller in s.closers && IsFirst(s.closers[caller])
  }

  ghost predicate Inv(s: State) {
    SessionsInv(s) && ClosersInv(s) && SnapshotInv(s) && HasFirst(s)
  }

  lemma LiveChanges(sessions: map<Conn, Session>, conn: Conn, session: Session)
    ensures Live(sessions[conn := session]) == if session.Finished? then Live(sessions) - {conn}
            else Live(sessions) + {conn}
  {
  }

  /** A live session that moves on without finishing stays live. */
  lemma StaysLive(sessions: map<Conn, Session>, conn: Conn, session: Session)
    requires conn in Live(sessions) && !session.Finished?
    ensures |Live(sessions[conn := session])| == |Live(sessions)|
  {
    LiveChanges(sessions, conn, session);
    assert Live(sessions) + {conn} == Live(sessions);
  }

  lemma RegisterKeepsSessions(s: State)
    requires Inv(s) && Enabled(s, Register)
    ensures SessionsInv(Next(s, Register))
  {
    if !s.closed {
      LiveChanges(s.sessions, s.acceptor.conn, Registered);
      assert s.acceptor.conn !in Live(s.sessions);
    }
  }

  lemma StartKeepsSessions(s: State)
    requires Inv(s) && Enabled(s, StartSession)
    ensures SessionsInv(Next(s, StartSession))
  {
    assert SessionAt(s, s.acceptor.conn, Registered);
    StaysLive(s.sessions, s.acceptor.conn, Running);
  }

  lemma SessionKeepsSessions(s: State, step: Step)
    requires Inv(s) && Enabled(s, step) && (step.HandlerReturns? || step.Unregister? || step.GroupDone?)
    ensures SessionsInv(Next(s, step))
  {
    assert step.conn in Live(s.sessions);
    if step.HandlerReturns? {
      StaysLive(s.sessions, step.conn, HandlerReturned);
    } else if step.Unregister? {
      StaysLive(s.sessions, step.conn, Removed);
    } else {
      LiveChanges(s.sessions, step.conn, Finished);
    }
  }

  lemma StepKeepsSessions(s: State, step: Step)
    requires Inv(s) && Enabled(s, step)
    ensures SessionsInv(Next(s, step))
  {
    if step.Register? {
      RegisterKeepsSessions(s);
    } else if step.StartSession? {
      StartKeepsSessions(s);
    } else if step.HandlerReturns? || step.Unregister? || step.GroupDone? {
      SessionKeepsSessions(s, step);
    }
  }

  predicate IsCloserStep(step: Step) {
    step.Close? || step.CloseListener? || step.HangUp? || step.AllHungUp? || step.GroupWaited? || step.LoopWaited?
  }

  lemma OtherStepKeepsClosers(s: State, step: Step)
    requires Inv(s) && Enabled(s, step) && !IsCloserStep(step)
    ensures ClosersInv(Next(s, step)) && HasFirst(Next(s, step))
  {
    if step.GroupDone? {
      assert step.conn in Live(s.sessions);
    }
  }

  /** The caller whose call moved. */
  lemma CloserMoves(s: State, step: Step)
    requires Inv(s) && Enabled(s, step) && IsCloserStep(step)
    ensures ClosersInv(Next(s, step))
  {
    var after := Next(s, step);
    assert step.caller in after.closers.Keys;
    assert forall caller :: caller in after.closers && caller != step.caller ==>
        caller in s.closers && s.closers[caller] == after.closers[caller];
  }

  lemma CloserKeepsFirst(s: State, step: Step)
    requires Inv(s) && Enabled(s, step) && IsCloserStep(step)
    ensures HasFirst(Next(s, step))
  {
    var after := Next(s, step);
    if s.closed {
      var first :| first in s.closers && IsFirst(s.closers[first]);
      assert first in after.closers && IsFirst(after.closers[first]);
    } else {
      assert s.closers.Keys == {};
      assert step.Close?;
      assert IsFirst(after.closers[step.caller]);
    }
  }

  lemma TableStays(s: State, step: Step)
    requires Inv(s) && Enabled(s, step) && s.closers.Keys != {}
    ensures Next(s, step).table <= s.table && s.hungUp <= Next(s, step).hungUp
  {
  }

  lemma StepKeepsSnapshot(s: State, step: Step)
    requires Inv(s) && Enabled(s, step)
    ensures SnapshotInv(Next(s, step))
  {
    var after := Next(s, step);
    forall caller | caller in after.closers
      ensures IsCovered(after, after.closers[caller])
    {
      if caller in s.closers {
        assert caller in s.closers.Keys && IsCovered(s, s.closers[caller]);
        TableStays(s, step);
      }
    }
  }

  lemma StepKeepsInv(s: State, step: Step)
    requires Inv(s) && Enabled(s, step)
    ensures Inv(Next(s, step))
  {
    StepKeepsSessions(s, step);
    StepKeepsSnapshot(s, step);
    if IsCloserStep(step) {
      CloserMoves(s, step);
      CloserKeepsFirst(s, step);
    } else {
      OtherStepKeepsClosers(s, step);
    }
  }

  lemma {:induction false} RunKeepsInv(s: State, steps: seq<Step>)
    requires Inv(s)
    ensures Execute(s, steps).Some? ==> Inv(Execute(s, steps).value)
    decreases |steps|
  {
    if steps != [] && Enabled(s, steps[0]) {
      StepKeepsInv(s, steps[0]);
      RunKeepsInv(Next(s, steps[0]), steps[1..]);
    }
  }

  // ---------- what this means ----------

  /**
   In every run, the wait group counts the registered sessions that have not reached Done, and
   when the first call of Close has returned, the accept loop has ended, the session table is
   empty and every session is finished.
   */
  lemma ShutdownIsSafe(steps: seq<Step>, caller: Caller)
    requires Execute(INITIAL, steps).Some?
    ensures var s := Execute(INITIAL, steps).value;
            && s.waitGroup == |Live(s.sessions)|
            && (At(s, caller, Returned(true)) ==>
                  && s.acceptor.Ended? && s.table == {}
                  && forall conn :: conn in s.sessions ==> s.sessions[conn].Finished?)
            && (At(s, caller, Returned(false)) ==> s.acceptor.Ended?)
  {
    assert Live(INITIAL.sessions) == {};
    RunKeepsInv(INITIAL, steps);
    var s := Execute(INITIAL, steps).value;
    if At(s, caller, Returned(true)) {
      assert Live(s.sessions) == {};
      forall conn | conn in s.sessions
        ensures s.sessions[conn].Finished?
      {
        assert conn !in Live(s.sessions);
      }
    }
  }

  /** Once the server is marked closed it stays so, and no run adds a session. */
  lemma {:induction false} NoRegistrationAfterClose(s: State, steps: seq<Step>)
    requires Inv(s) && s.closed && Execute(s, steps).Some?
    ensures var after := Execute(s, steps).value;
            && after.closed && after.sessions.Keys == s.sessions.Keys
            && after.waitGroup <= s.waitGroup && after.table <= s.table
    decreases |steps|
  {
    if steps != [] {
      StepKeepsInv(s, steps[0]);
      var next := Next(s, steps[0]);
      assert next.sessions.Keys == s.sessions.Keys by {
        if steps[0].StartSession? {
          assert SessionAt(s, s.acceptor.conn, Registered);
        }
      }
      NoRegistrationAfterClose(next, steps[1..]);
    }
  }

  lemma ExecuteCons(s: State, step: Step, steps: seq<Step>)
    requires Enabled(s, step)
    ensures Execute(s, [step] + steps) == Execute(Next(s, step), steps)
  {
  }

  /** A server with one running session. */
  const SERVING := State(false, false, Accepting, {0}, 1, map[0 := Running], map[], {})

  lemma ServeOne(steps: seq<Step>)
    ensures Execute(INITIAL, [Accept(0)] + ([Register] + ([StartSession] + steps))) == Execute(SERVING, steps)
  {
    var s1 := Next(INITIAL, Accept(0));
    var s2 := Next(s1, Register);
    ExecuteCons(INITIAL, Accept(0), [Register] + ([StartSession] + steps));
    ExecuteCons(s1, Register, [StartSession] + steps);
    ExecuteCons(s2, StartSession, steps);
    assert Next(s2, StartSession) == SERVING;
  }

  /** The accept loop has ended, the first call of Close still has to wait for the session. */
  const ENDING := State(true, true, Ended, {0}, 1, map[0 := Running], map[0 := HangingUp({0})], {})

  lemma StartClosing(steps: seq<Step>)
    ensures Execute(SERVING, [Close(0)] + ([CloseListener(0)] + ([AcceptClosed] + steps))) == Execute(ENDING, steps)
  {
    var s1 := Next(SERVING, Close(0));
    var s2 := Next(s1, CloseListener(0));
    ExecuteCons(SERVING, Close(0), [CloseListener(0)] + ([AcceptClosed] + steps));
    ExecuteCons(s1, CloseListener(0), [AcceptClosed] + steps);
    ExecuteCons(s2, AcceptClosed, steps);
    assert Next(s2, AcceptClosed) == ENDING;
  }

  /** A later call of Close may return while a session handler still runs. */
  lemma LaterCloseDoesNotWaitForSessions() returns (steps: seq<Step>)
    ensures Execute(INITIAL, steps).Some?
    ensures At(Execute(INITIAL, steps).value, 1, Returned(false))
    ensures SessionAt(Execute(INITIAL, steps).value, 0, Running)
  {
    var rest := [Close(1)] + ([LoopWaited(1)] + []);
    ExecuteCons(ENDING, Close(1), [LoopWaited(1)] + []);
    ExecuteCons(Next(ENDING, Close(1)), LoopWaited(1), []);
    var closing := [Close(0)] + ([CloseListener(0)] + ([AcceptClosed] + rest));
    StartClosing(rest);
    ServeOne(closing);
    steps := [Accept(0)] + ([Register] + ([StartSession] + closing));
  }

  /**
   When the first call of Close starts to wait for the sessions, it has closed the connection of
   every session whose handler may still be running.
   */
  lemma HandlersAreHungUp(steps: seq<Step>, caller: Caller, conn: Conn)
    requires Execute(INITIAL, steps).Some?
    requires var s := Execute(INITIAL, steps).value;
             At(s, caller, AwaitingSessions) && conn in s.sessions && s.sessions[conn] !in {Removed, Finished}
    ensures conn in Execute(INITIAL, steps).value.hungUp
  {
    assert Live(INITIAL.sessions) == {};
    RunKeepsInv(INITIAL, steps);
    var s := Execute(INITIAL, steps).value;
    assert conn in s.table && IsCovered(s, s.closers[caller]);
  }

  /** Steps that do not depend on somebody from outside: no new connection, failed accept or new call. */
  predicate IsInternal(step: Step) {
    !step.Accept? && !step.AcceptFails? && !step.Close?
  }

  /** A step that is bound to come: nobody connects or calls, and a handler returns when it was hung up. */
  predicate CanHappen(s: State, step: Step) {
    Enabled(s, step) && IsInternal(step) && (step.HandlerReturns? ==> step.conn in s.hungUp)
  }

  /** While a call of Close has not returned, such a step is possible. */
  lemma NeverStuck(s: State, caller: Caller)
    requires Inv(s) && caller in s.closers && !s.closers[caller].Returned?
    ensures exists step :: CanHappen(s, step)
  {
    match s.closers[caller]
    case Marked(_) => assert CanHappen(s, CloseListener(caller));
    case HangingUp(open) =>
      if conn :| conn in open {
        assert CanHappen(s, HangUp(caller, conn));
      } else {
        assert CanHappen(s, AllHungUp(caller));
      }
    case AwaitingSessions =>
      if s.waitGroup == 0 {
        assert CanHappen(s, GroupWaited(caller));
      } else {
        assert IsCovered(s, AwaitingSessions);
        LiveCanMove(s);
      }
    case AwaitingLoop(_) =>
      assert caller in s.closers.Keys;
      var first :| first in s.closers && IsFirst(s.closers[first]);
      if s.closers[first].Marked? {
        assert CanHappen(s, CloseListener(first));
      } else {
        LoopCanMove(s, caller);
      }
  }

  lemma LiveCanMove(s: State)
    requires Inv(s) && s.waitGroup != 0 && s.table <= s.hungUp
    ensures exists step :: CanHappen(s, step)
  {
    assert Live(s.sessions) != {};
    var conn :| conn in Live(s.sessions);
    match s.sessions[conn]
    case Registered =>
      assert SessionAt(s, conn, Registered);
      assert CanHappen(s, StartSession);
    case Running => assert CanHappen(s, HandlerReturns(conn));
    case HandlerReturned => assert CanHappen(s, Unregister(conn));
    case Removed => assert CanHappen(s, GroupDone(conn));
  }

  lemma LoopCanMove(s: State, caller: Caller)
    requires Inv(s) && s.listenerClosed && caller in s.closers && s.closers[caller].AwaitingLoop?
    ensures exists step :: CanHappen(s, step)
  {
    match s.acceptor
    case Accepting => assert CanHappen(s, AcceptClosed);
    case Got(_) => assert CanHappen(s, Register);
    case Starting(_) => assert CanHappen(s, StartSession);
    case Ended => assert CanHappen(s, LoopWaited(caller));
  }

  // ---------- closing comes to an end ----------

  ghost function Pick<K>(m: map<K, nat>): (k: K)
    requires m != map[]
    ensures k in m
  {
    var k :| k in m.Keys;
    k
  }

  ghost function Sum<K(!new)>(m: map<K, nat>): nat {
    if m == map[] then 0 else m[Pick(m)] + Sum(m - {Pick(m)})
  }

  lemma {:induction false} SumWithout<K(!new)>(m: map<K, nat>, k: K)
    requires k in m
    ensures Sum(m) == m[k] + Sum(m - {k})
    decreases |m|
  {
    var first := Pick(m);
    if first != k {
      SumWithout(m - {first}, k);
      SumWithout(m - {k}, first);
      assert m - {first} - {k} == m - {k} - {first};
    }
  }

  lemma SumUpdate<K(!new)>(m: map<K, nat>, k: K, v: nat)
    ensures Sum(m[k := v]) + (if k in m then m[k] else 0) == Sum(m) + v
  {
    SumWithout(m[k := v], k);
    if k in m {
      SumWithout(m, k);
      assert m[k := v] - {k} == m - {k};
    } else {
      assert m[k := v] - {k} == m;
    }
  }

  /** An upper bound for the internal steps that are still to come from each part. */
  function AcceptorRank(acceptor: Acceptor): nat {
    match acceptor
    case Accepting => 1
    case Got(_) => 7
    case Starting(_) => 2
    case Ended => 0
  }

  function SessionRank(session: Session): nat {
    match session
    case Registered => 4
    case Running => 3
    case HandlerReturned => 2
    case Removed => 1
    case Finished => 0
  }

  function CloserRank(closer: Closer): nat {
    match closer
    case Marked(open) => 4 + |open|
    case HangingUp(open) => 3 + |open|
    case AwaitingSessions => 2
    case AwaitingLoop(_) => 1
    case Returned(_) => 0
  }

  ghost function SessionRanks(sessions: map<Conn, Session>): map<Conn, nat> {
    map conn | conn in sessions :: SessionRank(sessions[conn])
  }

  ghost function CloserRanks(closers: map<Caller, Closer>): map<Caller, nat> {
    map caller | caller in closers :: CloserRank(closers[caller])
  }

  ghost function Measure(s: State): nat {
    AcceptorRank(s.acceptor) + Sum(SessionRanks(s.sessions)) + Sum(CloserRanks(s.closers))
  }

  lemma SessionMoves(sessions: map<Conn, Session>, conn: Conn, session: Session)
    ensures Sum(SessionRanks(sessions[conn := session])) + (if conn in sessions then SessionRank(sessions[conn]) else 0)
         == Sum(SessionRanks(sessions)) + SessionRank(session)
  {
    SumUpdate(SessionRanks(sessions), conn, SessionRank(session));
    assert SessionRanks(sessions[conn := session]) == SessionRanks(sessions)[conn := SessionRank(session)];
  }

  lemma CloserAdvances(closers: map<Caller, Closer>, caller: Caller, closer: Closer)
    requires caller in closers && CloserRank(closer) < CloserRank(closers[caller])
    ensures Sum(CloserRanks(closers[caller := closer])) < Sum(CloserRanks(closers))
  {
    SumUpdate(CloserRanks(closers), caller, CloserRank(closer));
    assert CloserRanks(closers[caller := closer]) == CloserRanks(closers)[caller := CloserRank(closer)];
  }

  lemma CloserStepDecreases(s: State, step: Step)
    requires Enabled(s, step) && IsCloserStep(step) && IsInternal(step)
    ensures Measure(Next(s, step)) < Measure(s)
  {
    var after := Next(s, step).closers[step.caller];
    if step.HangUp? {
      assert s.closers[step.caller].open - {step.conn} < s.closers[step.caller].open;
    }
    CloserAdvances(s.closers, step.caller, after);
  }

  lemma LoopStepDecreases(s: State, step: Step)
    requires Inv(s) && Enabled(s, step) && (step.AcceptClosed? || step.Register? || step.StartSession?)
    ensures Measure(Next(s, step)) < Measure(s)
  {
    if step.Register? {
      SessionMoves(s.sessions, s.acceptor.conn, Registered);
    } else if step.StartSession? {
      assert SessionAt(s, s.acceptor.conn, Registered);
      SessionMoves(s.sessions, s.acceptor.conn, Running);
    }
  }

  lemma SessionStepDecreases(s: State, step: Step)
    requires Enabled(s, step) && (step.HandlerReturns? || step.Unregister? || step.GroupDone?)
    ensures Measure(Next(s, step)) < Measure(s)
  {
    var after := if step.HandlerReturns? then HandlerReturned else if step.Unregister? then Removed else Finished;
    SessionMoves(s.sessions, step.conn, after);
  }

  /** Every internal step brings the shutdown nearer to its end. */
  lemma StepDecreases(s: State, step: Step)
    requires Inv(s) && Enabled(s, step) && IsInternal(step)
    ensures Measure(Next(s, step)) < Measure(s)
  {
    if IsCloserStep(step) {
      CloserStepDecreases(s, step);
    } else if step.HandlerReturns? || step.Unregister? || step.GroupDone? {
      SessionStepDecreases(s, step);
    } else {
      LoopStepDecreases(s, step);
    }
  }

  /**
   From any reachable state, a run without new connections, failed accepts and new calls has at
   most as many steps as the measure says, and when it can go no further, but for handlers that
   were not hung up, every call has returned.
   */
  lemma {:induction false} CloseReturns(s: State, steps: seq<Step>)
    requires Inv(s) && Execute(s, steps).Some?
    requires forall i :: 0 <= i < |steps| ==> IsInternal(steps[i])
    ensures |steps| <= Measure(s)
    ensures var after := Execute(s, steps).value;
            (forall step :: !CanHappen(after, step))
            ==> forall caller :: caller in after.closers ==> after.closers[caller].Returned?
    decreases |steps|
  {
    if steps != [] {
      StepKeepsInv(s, steps[0]);
      StepDecreases(s, steps[0]);
      CloseReturns(Next(s, steps[0]), steps[1..]);
    } else if forall step :: !CanHappen(s, step) {
      forall caller | caller in s.closers
        ensures s.closers[caller].Returned?
      {
        if !s.closers[caller].Returned? {
          NeverStuck(s, caller);
          assert false;
        }
      }
    }
  }
}
