/** Facts about every run of the memory system. */
module SystemRuns {
  import opened Options
  import opened LegalTrace
  import opened Packets
  import opened Pipeline
  import opened RowProtocol
  import opened QueueTimers
  import Ledger
  import Conservation

  /** A request is added, of any size that fits an unsigned word, or a cycle passes in which the scheduler picks some
      ready queue or none. */
  datatype Move = Add(requestor: nat, address: nat, isRead: bool, size: nat) | Cycle(pick: Option<nat>)

  ghost predicate Moves(c: Config, s: State, m: Move, t: State)
    requires c.Valid()
  {
    && Good(c, s)
    && match m
       case Add(requestor, address, isRead, size) =>
         size < WORD && t == AddRequest(c, s, requestor, address, isRead, size)
       case Cycle(pick) =>
         && (pick.Some? ==> Ready(c, Offered(c, s), pick.value))
         && t == Finish(c, Offered(c, s), pick)
  }

  ghost predicate Run(c: Config, states: seq<State>, moves: seq<Move>)
    requires c.Valid()
  {
    && |states| == |moves| + 1
    && states[0] == Start(c)
    && forall i | 0 <= i < |moves| :: Moves(c, states[i], moves[i], states[i + 1])
  }

  ghost predicate Safe(c: Config, s: State)
    requires c.Valid()
  {
    Good(c, s) && RowInv(c, s) && TimeInv(c, s)
  }

  lemma AddSafe(c: Config, s: State, requestor: nat, address: nat, isRead: bool, size: nat)
    requires c.Valid() && Safe(c, s)
    ensures Safe(c, AddRequest(c, s, requestor, address, isRead, size))
  {
    AddGood(c, s, requestor, address, isRead, size);
    SameRows(c, s, AddRequest(c, s, requestor, address, isRead, size));
  }

  lemma OfferedRows(c: Config, s: State)
    requires c.Valid() && Good(c, s) && RowInv(c, s)
    ensures RowInv(c, Offered(c, s))
  {
    ScheduleAllRows(c, s, |s.queues|);
    EnqueueAllRows(c, ScheduleAll(c, s, |s.queues|));
  }

  lemma HeadIsRouted(c: Config, s: State, pick: Option<nat>)
    requires c.Valid() && Good(c, s) && Routed(c, s.cmds) && (pick.Some? ==> Ready(c, s, pick.value))
    ensures pick.Some? ==> c.commandQueueOf(s.cmds[pick.value][0].bank) == pick.value
  {
    if pick.Some? {
      assert s.cmds[pick.value][0] in s.cmds[pick.value];
    }
  }

  lemma CycleSafe(c: Config, s: State, pick: Option<nat>)
    requires c.Valid() && Safe(c, s) && (pick.Some? ==> Ready(c, Offered(c, s), pick.value))
    ensures Safe(c, Finish(c, Offered(c, s), pick))
  {
    OfferedRows(c, s);
    OfferedTimers(c, s);
    HeadIsRouted(c, Offered(c, s), pick);
    FinishRows(c, Offered(c, s), pick);
    FinishTimers(c, Offered(c, s), pick);
  }

  ghost predicate SafeStep(c: Config, s: State, m: Move, t: State) {
    c.Valid() && Safe(c, s) && Moves(c, s, m, t)
  }

  lemma MoveSafe(c: Config, s: State, m: Move, t: State)
    requires SafeStep(c, s, m, t)
    ensures Safe(c, t)
  {
    match m
    case Add(requestor, address, isRead, size) => AddSafe(c, s, requestor, address, isRead, size);
    case Cycle(pick) => CycleSafe(c, s, pick);
  }

  lemma NextSafe(c: Config, states: seq<State>, moves: seq<Move>, i: nat)
    requires c.Valid() && Run(c, states, moves) && i < |moves| && Safe(c, states[i])
    ensures Safe(c, states[i + 1])
  {
    assert Moves(c, states[i], moves[i], states[i + 1]);
    MoveSafe(c, states[i], moves[i], states[i + 1]);
  }

  lemma {:induction false} RunIsSafe(c: Config, states: seq<State>, moves: seq<Move>, i: nat)
    requires c.Valid() && Run(c, states, moves) && i < |states|
    ensures Safe(c, states[i])
  {
    if i == 0 {
      StartRows(c);
      StartTimers(c);
    } else {
      RunIsSafe(c, states, moves, i - 1);
      NextSafe(c, states, moves, i - 1);
    }
  }

  /** In every run, whatever is sent to the device keeps the bank protocol, is a legal trace of the DDR3
      rule set, and is spaced in each queue as the timers demand. */
  lemma EveryRunIsLegal(c: Config, states: seq<State>, moves: seq<Move>, i: nat)
    requires c.Valid() && Run(c, states, moves) && i < |states|
    ensures IssuesOk(c, states[i].history)
    ensures forall b: nat | b < 8 :: Replay(Idle, OfBank(Trace(states[i].history), b)) != Broken
    ensures Legal(c.Device(), Events(c, states[i].history))
    ensures Disciplined(c, states[i].history)
  {
    RunIsSafe(c, states, moves, i);
    forall b: nat | b < 8 ensures Replay(Idle, OfBank(Trace(states[i].history), b)) != Broken {
      IssuedKeepsProtocol(c, states[i], b);
    }
    IssuedIsLegal(c, states[i].history);
  }

  /** In every run any two commands, `gap` cycles apart, keep the spacing of the rank, and in one bank that of the
      bank. */
  lemma EveryRunIsSpaced(c: Config, states: seq<State>, moves: seq<Move>, n: nat, i: nat, k: nat)
    requires c.Valid() && Run(c, states, moves) && n < |states| && i < k < |states[n].history|
    ensures var s, h := c.speed, states[n].history;
            var first, second, gap := h[i].packet, h[k].packet, h[k].clk - h[i].clk;
            && (first.kind == ACT && second.kind == ACT ==> s.nRRD <= gap)
            && (first.kind == RD && second.kind == RD ==> s.nCCD <= gap && s.nBL <= gap)
            && (first.kind == WR && second.kind == WR ==> s.nCCD <= gap && s.nBL <= gap)
            && (first.kind == RD && second.kind == WR ==> s.nCL + s.nCCD + 2 - s.nCWL <= gap)
            && (first.kind == WR && second.kind == RD ==> s.nCWL + s.nBL + s.nWTR <= gap)
            && (first.bank == second.bank ==>
                  && (first.kind == ACT && second.kind == ACT ==> s.nRC <= gap)
                  && (first.kind == PRE && second.kind == ACT ==> s.nRP <= gap)
                  && (first.kind == ACT && (second.kind == RD || second.kind == WR) ==> s.nRCD <= gap)
                  && (first.kind == ACT && second.kind == PRE ==> s.nRAS <= gap)
                  && (first.kind == RD && second.kind == PRE ==> s.nRTP <= gap)
                  && (first.kind == WR && second.kind == PRE ==> s.nCWL + s.nBL + s.nWR <= gap))
  {
    RunIsSafe(c, states, moves, n);
    var h := states[n].history;
    RankSpacing(c, h, i, k);
    DeviceSpacing(c, h, i, k);
    if h[i].packet.bank == h[k].packet.bank {
      BankSpacing(c, h, i, k);
    }
  }

  // ---------- conservation ----------

  lemma CycleConserved(c: Config, s: State, pick: Option<nat>)
    requires c.Valid() && Good(c, s) && Conservation.Conserved(c, s)
    requires pick.Some? ==> Ready(c, Offered(c, s), pick.value)
    ensures Conservation.Conserved(c, Finish(c, Offered(c, s), pick))
  {
    Conservation.ScheduleAllConserved(c, s, |s.queues|);
    Conservation.EnqueueAllConserved(c, ScheduleAll(c, s, |s.queues|));
    Conservation.FinishConserved(c, Offered(c, s), pick);
  }

  ghost predicate Accounted(c: Config, s: State)
    requires c.Valid()
  {
    Good(c, s) && Conservation.Conserved(c, s)
  }

  lemma StartAccounted(c: Config)
    requires c.Valid()
    ensures Accounted(c, Start(c))
  {
    Conservation.StartConserved(c);
  }

  lemma MoveAccounted(c: Config, s: State, m: Move, t: State)
    requires c.Valid() && Accounted(c, s) && Moves(c, s, m, t)
    ensures Accounted(c, t)
  {
    match m
    case Add(requestor, address, isRead, size) =>
      Conservation.AddConserved(c, s, requestor, address, isRead, size);
    case Cycle(pick) =>
      CycleConserved(c, s, pick);
  }

  lemma {:induction false} RunIsAccounted(c: Config, states: seq<State>, moves: seq<Move>, i: nat)
    requires c.Valid() && Run(c, states, moves) && i < |states|
    ensures Accounted(c, states[i])
  {
    if i == 0 {
      StartAccounted(c);
    } else {
      RunIsAccounted(c, states, moves, i - 1);
      assert Moves(c, states[i - 1], moves[i - 1], states[i - 1 + 1]);
      MoveAccounted(c, states[i - 1], moves[i - 1], states[i]);
    }
  }

  lemma RunIsBalanced(c: Config, states: seq<State>, moves: seq<Move>, i: nat, k: Conservation.Key)
    requires c.Valid() && Run(c, states, moves) && i < |states|
    ensures Good(c, states[i]) && Ledger.Balanced(c.dataBus, Conservation.AccountOf(c, states[i], k))
  {
    RunIsAccounted(c, states, moves, i);
  }

  /** In every run, for every requestor, address and direction: the requests come back in the order they were
      added, each at most once, and the `n`-th of them has been called back if and only if the packets
      delivered cover it and its predecessors, each of which takes as many packets as bring its size as an
      unsigned word. */
  lemma EveryRunCallsBackOnce(c: Config, states: seq<State>, moves: seq<Move>, i: nat, k: Conservation.Key, n: nat)
    requires c.Valid() && Run(c, states, moves) && i < |states|
    requires n < |Conservation.OfKey(states[i].accepted, k)|
    ensures var accepted := Conservation.OfKey(states[i].accepted, k);
            var done := Conservation.OfKey(states[i].done, k);
            && done <= accepted
            && (n < |done| <==>
                  Ledger.Covered(c.dataBus, accepted[..n + 1], Conservation.Count(states[i].delivered, k)))
  {
    RunIsBalanced(c, states, moves, i, k);
    Ledger.CalledBackIff(c.dataBus, Conservation.AccountOf(c, states[i], k), n);
  }

  /** In every run, while the packets of a key do not overflow a word: request `n` of the key has been called
      back if and only if it and all its predecessors of that key are positive multiples of the bus width,
      and as many packets have been delivered as they need.  Other keys do not matter. */
  lemma EveryRunCallsBackIff(c: Config, states: seq<State>, moves: seq<Move>, i: nat, k: Conservation.Key, n: nat)
    requires c.Valid() && Run(c, states, moves) && i < |states|
    requires n < |Conservation.OfKey(states[i].accepted, k)|
    requires Ledger.Short(c.dataBus, Conservation.Count(states[i].delivered, k))
    ensures var rs := Conservation.OfKey(states[i].accepted, k)[..n + 1];
            n < |Conservation.OfKey(states[i].done, k)| <==>
            Ledger.AllWhole(c.dataBus, rs)
            && Ledger.Sum(Ledger.Needs(c.dataBus, rs)) <= Conservation.Count(states[i].delivered, k)
  {
    RunIsBalanced(c, states, moves, i, k);
    Ledger.CalledBackIffWhole(c.dataBus, Conservation.AccountOf(c, states[i], k), n);
  }

  ghost predicate Drained(c: Config, s: State, k: Conservation.Key)
    requires c.Valid()
  {
    && |s.queues| == c.requestQueues && |s.cmds| == c.commandQueues
    && Conservation.Queued(c, s, k) == [] && Conservation.Flight(c, s, k) == 0
  }

  /** In every run: when a key has nothing queued and nothing on its way, exactly its requests before the first
      one that is not a positive multiple of the bus width have been called back. */
  lemma EveryRunDrains(c: Config, states: seq<State>, moves: seq<Move>, i: nat, k: Conservation.Key)
    requires c.Valid() && Run(c, states, moves) && i < |states| && Drained(c, states[i], k)
    requires Ledger.Short(c.dataBus, Conservation.Count(states[i].delivered, k))
    ensures Ledger.LongestWhole(c.dataBus, Conservation.OfKey(states[i].done, k),
                                Conservation.OfKey(states[i].accepted, k))
  {
    RunIsBalanced(c, states, moves, i, k);
    Ledger.DrainedIff(c.dataBus, Conservation.AccountOf(c, states[i], k));
  }

  /** That the packets do not overflow a word follows from the sizes asked for. */
  lemma ShortIfAsked(c: Config, states: seq<State>, moves: seq<Move>, i: nat, k: Conservation.Key)
    requires c.Valid() && Run(c, states, moves) && i < |states|
    requires Ledger.Bytes(Conservation.OfKey(states[i].accepted, k)) < WORD
    ensures Ledger.Short(c.dataBus, Conservation.Count(states[i].delivered, k))
  {
    RunIsBalanced(c, states, moves, i, k);
    Ledger.ShortIfAsked(c.dataBus, Conservation.AccountOf(c, states[i], k));
  }
}
