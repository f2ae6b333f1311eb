/**
 Any number of clients joining, re-initialising and leaving at the same time, one write or one
 critical section per step, among them clients that become spawned before they have started the
 game. Registered clients that end up playing have been shown to each other; a spawn packet comes
 after the player-list entry of its player exactly if the client whose initialisation wrote it was
 registered; and a player may be shown after it has left.
 */
module ConcurrentJoin {
  import opened Wrappers

  type Client = nat

  /**
   Removal stands for the two packets about a player that leaves. Whether the client whose
   initialisation wrote a spawn packet was registered is recorded with it, but not sent.
   */
  datatype Packet =
    | PlayerListAdd(entries: set<Client>)
    | AddPlayer(player: Client, registered: bool)
    | Removal(player: Client)

  /** Where a client's own goroutine is. */
  datatype Phase =
    | Fresh                           // the game has not started
    | Announcing(todo: set<Client>)   // registered; its list entry is still to be written to these
    | Snapshotting                    // about to read the player table
    | Listing(entries: set<Client>)   // about to write the player list to itself
    | Waiting                         // the game has started, the client is loading
    | Spawning                        // its state is spawned, about to list the spawned peers
    | Receiving(todo: set<Client>, peers: set<Client>)   // these peers are still to be shown to it
    | Sending(todo: set<Client>)      // it is still to be shown to these peers
    | Playing
    | Leaving(todo: set<Client>)      // out of the table; these players are still to be told
    | Gone

  /** The player table, the clients that were ever in it, those whose state is spawned, and what was sent. */
  datatype State = State(phases: map<Client, Phase>, table: set<Client>, joined: set<Client>, spawned: set<Client>,
                         logs: map<Client, seq<Packet>>)

  const INITIAL := State(map[], {}, {}, {}, map[])

  function PhaseOf(s: State, c: Client): Phase {
    if c in s.phases then s.phases[c] else Fresh
  }

  function LogOf(s: State, c: Client): seq<Packet> {
    if c in s.logs then s.logs[c] else []
  }

  function To(s: State, c: Client, phase: Phase): State {
    s.(phases := s.phases[c := phase])
  }

  function Send(s: State, to: Client, packet: Packet): State {
    s.(logs := s.logs[to := LogOf(s, to) + [packet]])
  }

  datatype Step =
    | Join(c: Client)
    | Announce(c: Client, to: Client)
    | Announced(c: Client)
    | Snapshot(c: Client)
    | List(c: Client)
    | SetSpawned(c: Client)
    | ListPeers(c: Client)
    | Receive(c: Client, peer: Client)
    | Received(c: Client)
    | Show(c: Client, peer: Client)
    | Shown(c: Client)
    | RequestRadius(c: Client)
    | Leave(c: Client)
    | Farewell(c: Client, to: Client)
    | Left(c: Client)

  /** A client that handles no packet: the server accepts the next one, whatever it is. */
  predicate IsIdle(phase: Phase) {
    phase.Fresh? || phase.Waiting? || phase.Playing?
  }

  predicate Enabled(s: State, step: Step) {
    var phase := PhaseOf(s, step.c);
    match step
    case Join(_) => phase.Fresh?
    case Announce(_, to) => phase.Announcing? && to in phase.todo
    case Announced(_) => phase == Announcing({})
    case Snapshot(_) => phase.Snapshotting?
    case List(_) => phase.Listing?
    case SetSpawned(_) => IsIdle(phase)
    case ListPeers(_) => phase.Spawning?
    case Receive(_, peer) => phase.Receiving? && peer in phase.todo
    case Received(_) => phase.Receiving? && phase.todo == {}
    case Show(_, peer) => phase.Sending? && peer in phase.todo
    case Shown(_) => phase == Sending({})
    case RequestRadius(_) => phase.Playing?
    case Leave(_) => IsIdle(phase)
    case Farewell(_, to) => phase.Leaving? && to in phase.todo
    case Left(_) => phase == Leaving({})
  }

  function Next(s: State, step: Step): State
    requires Enabled(s, step)
  {
    var c := step.c;
    var phase := PhaseOf(s, c);
    match step
    case Join(_) => To(s.(table := s.table + {c}, joined := s.joined + {c}), c, Announcing(s.table - {c}))
    case Announce(_, to) => To(Send(s, to, PlayerListAdd({c})), c, Announcing(phase.todo - {to}))
    case Announced(_) => To(s, c, Snapshotting)
    case Snapshot(_) => To(s, c, Listing(s.table))
    case List(_) => To(Send(s, c, PlayerListAdd(phase.entries)), c, Waiting)
    case SetSpawned(_) => To(s.(spawned := s.spawned + {c}), c, Spawning)
    case ListPeers(_) =>
      var peers := s.table * s.spawned - {c};
      To(s, c, Receiving(peers, peers))
    case Receive(_, peer) =>
      To(Send(s, c, AddPlayer(peer, c in s.table)), c, Receiving(phase.todo - {peer}, phase.peers))
    case Received(_) => To(s, c, Sending(phase.peers))
    case Show(_, peer) => To(Send(s, peer, AddPlayer(c, c in s.table)), c, Sending(phase.todo - {peer}))
    case Shown(_) => To(s, c, Playing)
    case RequestRadius(_) => To(s.(spawned := s.spawned - {c}), c, if c in s.table then Waiting else Fresh)
    case Leave(_) =>
      var others := s.table * s.spawned - {c};
      To(s.(table := s.table - {c}, spawned := s.spawned - {c}), c, if c in s.table then Leaving(others) else Gone)
    case Farewell(_, to) => To(Send(s, to, Removal(c)), c, Leaving(phase.todo - {to}))
    case Left(_) => To(s, c, Gone)
  }

  function Execute(s: State, steps: seq<Step>): Option<State>
    decreases |steps|
  {
    if steps == [] then Some(s)
    else if !Enabled(s, steps[0]) then None
    else Execute(Next(s, steps[0]), steps[1..])
  }

  // ---------- what a client was sent ----------

  predicate WasShown(s: State, c: Client, player: Client) {
    AddPlayer(player, true) in LogOf(s, c)
  }

  predicate HasEntry(log: seq<Packet>, player: Client) {
    exists i :: 0 <= i < |log| && log[i].PlayerListAdd? && player in log[i].entries
  }

  /** A player shown in the log was added to the player list earlier in it exactly if a registered client wrote it. */
  predicate ListedFirst(log: seq<Packet>) {
    forall i :: 0 <= i < |log| && log[i].AddPlayer? ==> (HasEntry(log[..i], log[i].player) <==> log[i].registered)
  }

  lemma EntryStays(log: seq<Packet>, packet: Packet, player: Client)
    ensures HasEntry(log, player) ==> HasEntry(log + [packet], player)
    ensures packet.PlayerListAdd? && player in packet.entries ==> HasEntry(log + [packet], player)
  {
    var more := log + [packet];
    if HasEntry(log, player) {
      var i :| 0 <= i < |log| && log[i].PlayerListAdd? && player in log[i].entries;
      assert more[i] == log[i];
    }
    assert more[|log|] == packet;
  }

  lemma ListedFirstAppend(log: seq<Packet>, packet: Packet)
    requires ListedFirst(log) && (packet.AddPlayer? ==> (HasEntry(log, packet.player) <==> packet.registered))
    ensures ListedFirst(log + [packet])
  {
    var more := log + [packet];
    forall i | 0 <= i < |more| && more[i].AddPlayer?
      ensures HasEntry(more[..i], more[i].player) <==> more[i].registered
    {
      if i < |log| {
        assert more[..i] == log[..i];
      } else {
        assert more[..i] == log;
      }
    }
  }

  // ---------- what every step keeps ----------

  /** The client's state field says spawned. */
  predicate IsSpawned(phase: Phase) {
    phase.Spawning? || phase.Receiving? || phase.Sending? || phase.Playing?
  }

  /** The client has listed its peers. */
  predicate HasListed(phase: Phase) {
    phase.Receiving? || phase.Sending? || phase.Playing?
  }

  /** Peers that the client still has to be shown to. */
  function Owed(phase: Phase): set<Client> {
    if phase.Receiving? then phase.peers else if phase.Sending? then phase.todo else {}
  }

  /** A client is in the table from the start of its game until it leaves, and never again. */
  predicate PhaseFits(phase: Phase, inTable: bool, hasJoined: bool) {
    match phase
    case Fresh => !inTable && !hasJoined
    case Leaving(_) => !inTable
    case Gone => !inTable
    case _ => (inTable <==> hasJoined) && (!IsSpawned(phase) ==> inTable)
  }

  ghost predicate TablesInv(s: State) {
    && (forall c :: PhaseFits(PhaseOf(s, c), c in s.table, c in s.joined))
    && (forall c :: c in s.spawned <==> IsSpawned(PhaseOf(s, c)))
  }

  /** Whoever is registered and has listed its peers is shown, or will be, every other such client. */
  ghost predicate Duty(s: State, c: Client, player: Client) {
    var a, b := PhaseOf(s, c), PhaseOf(s, player);
    c != player && c in s.table && player in s.table && HasListed(a) && HasListed(b) ==>
      WasShown(s, c, player) || (a.Receiving? && player in a.todo) || c in Owed(b)
  }

  /** The list entry of `player` is in the log of `c`, or its writing still lies ahead. */
  ghost predicate EntryOrAhead(s: State, c: Client, player: Client) {
    var a, b := PhaseOf(s, c), PhaseOf(s, player);
    c != player && c in s.table && player in s.table ==>
      || HasEntry(LogOf(s, c), player)
      || a.Announcing? || a.Snapshotting? || (a.Listing? && player in a.entries)
      || (b.Announcing? && c in b.todo)
  }

  /** What a registered client is about to write about players is covered by list entries. */
  ghost predicate PendingCovered(s: State, c: Client) {
    var phase := PhaseOf(s, c);
    c in s.table ==>
      && (phase.Receiving? ==> phase.todo <= phase.peers)
      && (phase.Receiving? ==> forall p :: p in phase.todo ==> HasEntry(LogOf(s, c), p))
      && (forall p :: p in Owed(phase) ==> HasEntry(LogOf(s, p), c))
  }

  /** List packets name, and go to, clients that have started the game. */
  ghost predicate ListsJoined(s: State, c: Client) {
    var phase := PhaseOf(s, c);
    && (phase.Announcing? ==> phase.todo <= s.joined)
    && (phase.Listing? ==> phase.entries <= s.joined)
    && forall i :: 0 <= i < |LogOf(s, c)| && LogOf(s, c)[i].PlayerListAdd? ==>
         c in s.joined && LogOf(s, c)[i].entries <= s.joined
  }

  ghost predicate Inv(s: State) {
    && TablesInv(s)
    && (forall c, p :: Duty(s, c, p))
    && (forall c, p :: EntryOrAhead(s, c, p))
    && (forall c :: PendingCovered(s, c))
    && (forall c :: ListsJoined(s, c))
    && (forall c :: ListedFirst(LogOf(s, c)))
  }

  /** What a step writes: at most one packet to one client. */
  function Written(s: State, step: Step): Option<(Client, Packet)>
    requires Enabled(s, step)
  {
    match step
    case Announce(c, to) => Some((to, PlayerListAdd({c})))
    case List(c) => Some((c, PlayerListAdd(PhaseOf(s, c).entries)))
    case Receive(c, peer) => Some((c, AddPlayer(peer, c in s.table)))
    case Show(c, peer) => Some((peer, AddPlayer(c, c in s.table)))
    case Farewell(c, to) => Some((to, Removal(c)))
    case _ => None
  }

  lemma LogAfter(s: State, step: Step, c: Client)
    requires Enabled(s, step)
    ensures var w := Written(s, step);
            LogOf(Next(s, step), c) == if w.Some? && w.value.0 == c then LogOf(s, c) + [w.value.1] else LogOf(s, c)
  {
  }

  lemma PhaseAfter(s: State, step: Step, c: Client)
    requires Enabled(s, step) && c != step.c
    ensures PhaseOf(Next(s, step), c) == PhaseOf(s, c)
    ensures c in Next(s, step).table <==> c in s.table
    ensures c in Next(s, step).joined <==> c in s.joined
  {
  }

  lemma EntryAfter(s: State, step: Step, c: Client, player: Client)
    requires Enabled(s, step)
    ensures HasEntry(LogOf(s, c), player) ==> HasEntry(LogOf(Next(s, step), c), player)
    ensures WasShown(s, c, player) ==> WasShown(Next(s, step), c, player)
  {
    LogAfter(s, step, c);
    var w := Written(s, step);
    if w.Some? {
      EntryStays(LogOf(s, c), w.value.1, player);
    }
  }

  lemma StepKeepsTables(s: State, step: Step)
    requires TablesInv(s) && Enabled(s, step)
    ensures TablesInv(Next(s, step))
  {
    var after := Next(s, step);
    forall c
      ensures PhaseFits(PhaseOf(after, c), c in after.table, c in after.joined)
      ensures c in after.spawned <==> IsSpawned(PhaseOf(after, c))
    {
      assert PhaseFits(PhaseOf(s, c), c in s.table, c in s.joined);
      if c != step.c {
        PhaseAfter(s, step, c);
      }
    }
  }

  /** Whoever has not started the game has no list entry anywhere, and was sent none. */
  lemma NoEntry(s: State, c: Client, player: Client)
    requires Inv(s) && (c !in s.joined || player !in s.joined)
    ensures !HasEntry(LogOf(s, c), player)
  {
    assert ListsJoined(s, c);
  }

  lemma StepKeepsLogs(s: State, step: Step, c: Client)
    requires Inv(s) && Enabled(s, step)
    ensures ListedFirst(LogOf(Next(s, step), c))
  {
    LogAfter(s, step, c);
    var w := Written(s, step);
    if w.Some? && w.value.0 == c {
      assert PendingCovered(s, step.c);
      assert PhaseFits(PhaseOf(s, step.c), step.c in s.table, step.c in s.joined);
      if w.value.1.AddPlayer? && step.c !in s.table {
        NoEntry(s, c, w.value.1.player);
      }
      ListedFirstAppend(LogOf(s, c), w.value.1);
    }
  }

  lemma StepKeepsLists(s: State, step: Step, c: Client)
    requires Inv(s) && Enabled(s, step)
    ensures ListsJoined(Next(s, step), c)
  {
    LogAfter(s, step, c);
    assert ListsJoined(s, c) && ListsJoined(s, step.c);
    assert PhaseFits(PhaseOf(s, step.c), step.c in s.table, step.c in s.joined);
    if c != step.c {
      PhaseAfter(s, step, c);
    }
    if step.Join? || step.Snapshot? {
      TableJoined(s);
    }
  }

  lemma TableJoined(s: State)
    requires TablesInv(s)
    ensures s.table <= s.joined
  {
    forall c | c in s.table
      ensures c in s.joined
    {
      assert PhaseFits(PhaseOf(s, c), c in s.table, c in s.joined);
    }
  }

  lemma StepKeepsDuty(s: State, step: Step, c: Client, player: Client)
    requires Inv(s) && Enabled(s, step)
    ensures Duty(Next(s, step), c, player)
  {
    assert Duty(s, c, player) && PendingCovered(s, step.c);
    assert PhaseFits(PhaseOf(s, step.c), step.c in s.table, step.c in s.joined);
    EntryAfter(s, step, c, player);
    LogAfter(s, step, c);
    if c != step.c {
      PhaseAfter(s, step, c);
    }
    if player != step.c {
      PhaseAfter(s, step, player);
    }
  }

  lemma StepKeepsEntries(s: State, step: Step, c: Client, player: Client)
    requires Inv(s) && Enabled(s, step)
    ensures EntryOrAhead(Next(s, step), c, player)
  {
    assert EntryOrAhead(s, c, player);
    assert PhaseFits(PhaseOf(s, step.c), step.c in s.table, step.c in s.joined);
    EntryAfter(s, step, c, player);
    LogAfter(s, step, c);
    var w := Written(s, step);
    if w.Some? {
      EntryStays(LogOf(s, c), w.value.1, player);
    }
    if c != step.c {
      PhaseAfter(s, step, c);
    }
    if player != step.c {
      PhaseAfter(s, step, player);
    }
  }

  lemma StepKeepsPending(s: State, step: Step, c: Client)
    requires Inv(s) && Enabled(s, step)
    ensures PendingCovered(Next(s, step), c)
  {
    var after := Next(s, step);
    assert PendingCovered(s, c);
    var phase := PhaseOf(after, c);
    if c != step.c {
      PhaseAfter(s, step, c);
    }
    if c in after.table {
      forall p | p in Owed(phase)
        ensures HasEntry(LogOf(after, p), c)
      {
        EntryAfter(s, step, p, c);
        if step.ListPeers? && c == step.c {
          assert EntryOrAhead(s, p, c);
        }
      }
      if phase.Receiving? {
        forall p | p in phase.todo
          ensures HasEntry(LogOf(after, c), p)
        {
          EntryAfter(s, step, c, p);
          if step.ListPeers? && c == step.c {
            assert EntryOrAhead(s, c, p);
          }
        }
      }
    }
  }

  lemma StepKeepsInv(s: State, step: Step)
    requires Inv(s) && Enabled(s, step)
    ensures Inv(Next(s, step))
  {
    StepKeepsTables(s, step);
    forall c, p
      ensures Duty(Next(s, step), c, p) && EntryOrAhead(Next(s, step), c, p)
    {
      StepKeepsDuty(s, step, c, p);
      StepKeepsEntries(s, step, c, p);
    }
    forall c
      ensures PendingCovered(Next(s, step), c) && ListedFirst(LogOf(Next(s, step), c))
      ensures ListsJoined(Next(s, step), c)
    {
      StepKeepsPending(s, step, c);
      StepKeepsLogs(s, step, c);
      StepKeepsLists(s, step, c);
    }
  }

  lemma {:induction false} RunKeepsInv(s: State, steps: seq<Step>)
    requires Inv(s)
    ensures Execute(s, steps).Some? ==> Inv(Execute(s, steps).value)
    decreases |steps|
  {
    if steps != [] && Enabled(s, steps[0]) {
      StepKeepsInv(s, steps[0]);
      RunKeepsInv(Next(s, steps[0]), steps[1..]);
    }
  }

  // ---------- what this means ----------

  /** In every interleaving, two registered clients that both finished joining were shown to each other. */
  lemma JoinedClientsSeeEachOther(steps: seq<Step>, a: Client, b: Client)
    requires Execute(INITIAL, steps).Some? && a != b
    requires var s := Execute(INITIAL, steps).value;
             PhaseOf(s, a).Playing? && PhaseOf(s, b).Playing? && a in s.table && b in s.table
    ensures var s := Execute(INITIAL, steps).value;
            WasShown(s, a, b) && WasShown(s, b, a)
  {
    RunKeepsInv(INITIAL, steps);
    var s := Execute(INITIAL, steps).value;
    assert Duty(s, a, b) && Duty(s, b, a);
  }

  /**
   In every interleaving, a client is shown a player after its player list got the player's entry
   if and only if the client whose initialisation wrote the spawn packet was registered.
   */
  lemma ListedFirstIff(steps: seq<Step>, c: Client, i: nat)
    requires Execute(INITIAL, steps).Some?
    requires i < |LogOf(Execute(INITIAL, steps).value, c)| && LogOf(Execute(INITIAL, steps).value, c)[i].AddPlayer?
    ensures var log := LogOf(Execute(INITIAL, steps).value, c);
            HasEntry(log[..i], log[i].player) <==> log[i].registered
  {
    RunKeepsInv(INITIAL, steps);
    assert ListedFirst(LogOf(Execute(INITIAL, steps).value, c));
  }
}
