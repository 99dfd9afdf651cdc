/** The controller always finishes: without new requests, every queue and every data line empties. */
module Progress {
  import opened Options
  import opened Packets
  import opened Pipeline
  import opened SystemRuns
  import opened DataTiming
  import T = DramTiming
  import R = DramTree
  import Ledger
  import Conservation

  /** A state that all invariants hold of. */
  ghost predicate Sound(c: Config, s: State) {
    c.Valid() && 0 < ReadDelay(c) && Safe(c, s) && Punctual(c, s) && Accounted(c, s)
  }

  lemma ReachedIsSound(c: Config, states: seq<State>, moves: seq<Move>, i: nat)
    requires c.Valid() && Run(c, states, moves) && i < |states| && 0 < ReadDelay(c)
    ensures Sound(c, states[i])
  {
    RunIsSafe(c, states, moves, i);
    RunIsPunctual(c, states, moves, i);
    RunIsAccounted(c, states, moves, i);
  }

  /** The cycle that the controller performs in `s`: the scheduler issues the oldest ready head. */
  ghost predicate CycleTo(c: Config, s: State, t: State)
    requires c.Valid()
  {
    && Good(c, s)
    && exists pick: Option<nat> :: Oldest(c, Offered(c, s), pick) && t == Finish(c, Offered(c, s), pick)
  }

  /** The states of consecutive cycles. */
  ghost predicate Cycles(c: Config, run: seq<State>)
    requires c.Valid()
  {
    run != [] && forall i | 0 <= i < |run| - 1 :: CycleTo(c, run[i], run[i + 1])
  }

  // ---------- there is exactly one next state ----------

  lemma OldestIsUnique(cmds: seq<seq<Packet>>, ready: set<nat>, p: Option<nat>, q: Option<nat>)
    requires OldestIn(cmds, ready, p) && OldestIn(cmds, ready, q)
    ensures p == q
  {
    if p.Some? && q.Some? {
      assert Older(cmds, p.value, q.value) && Older(cmds, q.value, p.value);
    }
  }

  lemma CycleIsUnique(c: Config, s: State, t: State, u: State)
    requires c.Valid() && CycleTo(c, s, t) && CycleTo(c, s, u)
    ensures t == u
  {
    var o := Offered(c, s);
    var p: Option<nat> :| Oldest(c, o, p) && t == Finish(c, o, p);
    var q: Option<nat> :| Oldest(c, o, q) && u == Finish(c, o, q);
    OldestIsUnique(o.cmds, ReadyQueues(c, o), p, q);
  }

  lemma {:induction false} OldestExists(cmds: seq<seq<Packet>>, ready: set<nat>) returns (pick: Option<nat>)
    requires forall i | i in ready :: i < |cmds| && cmds[i] != []
    ensures OldestIn(cmds, ready, pick)
    decreases |ready|
  {
    if ready == {} {
      pick := None;
    } else {
      var i :| i in ready;
      var best := OldestExists(cmds, ready - {i});
      if best.None? || Older(cmds, i, best.value) {
        pick := Some(i);
        forall x | x in ready ensures Older(cmds, i, x) {
          if x != i {
            assert x in ready - {i};
            assert Older(cmds, best.value, x);
          }
        }
      } else {
        pick := best;
      }
    }
  }

  lemma NextCycle(c: Config, s: State) returns (t: State, pick: Option<nat>)
    requires Sound(c, s)
    ensures Oldest(c, Offered(c, s), pick) && t == Finish(c, Offered(c, s), pick) && CycleTo(c, s, t)
    ensures Sound(c, t) && t.accepted == s.accepted
  {
    var o := Offered(c, s);
    pick := OldestExists(o.cmds, ReadyQueues(c, o));
    t := Finish(c, o, pick);
    CycleSafe(c, s, pick);
    CyclePunctual(c, s, pick);
    CycleConserved(c, s, pick);
    KeepsAccepted(c, s, pick);
  }

  lemma KeepsAccepted(c: Config, s: State, pick: Option<nat>)
    requires c.Valid() && Good(c, s) && (pick.Some? ==> Ready(c, Offered(c, s), pick.value))
    ensures Finish(c, Offered(c, s), pick).accepted == s.accepted
  {
    ScheduleAllKeepsAccepted(c, s, |s.queues|);
    EnqueueAllKeeps(c, ScheduleAll(c, s, |s.queues|));
    FinishKeepsCommands(c, Offered(c, s), pick);
  }

  lemma {:induction false} ScheduleAllKeepsAccepted(c: Config, s: State, n: nat)
    requires c.Valid() && Good(c, s) && n <= |s.queues|
    ensures ScheduleAll(c, s, n).accepted == s.accepted
  {
    if n > 0 {
      ScheduleAllKeepsAccepted(c, s, n - 1);
    }
  }

  lemma {:induction false} EnqueueAllKeeps(c: Config, s: State)
    requires c.Valid() && Good(c, s)
    ensures EnqueueAll(c, s).accepted == s.accepted && EnqueueAll(c, s).queues == s.queues
    decreases |s.buffer|
  {
    if s.buffer != [] {
      EnqueueGood(c, s);
      EnqueueAllKeeps(c, Enqueue(c, s));
    }
  }

  lemma Join(c: Config, s: State, run: seq<State>)
    requires c.Valid() && Cycles(c, run) && CycleTo(c, s, run[0])
    ensures Cycles(c, [s] + run)
  {
    var all := [s] + run;
    forall i | 0 <= i < |all| - 1 ensures CycleTo(c, all[i], all[i + 1]) {
      if i > 0 {
        assert CycleTo(c, run[i - 1], run[i - 1 + 1]);
      }
    }
  }

  /** Cycles from `s` on lead to a state in which nothing is left to schedule. */
  ghost predicate Ends(c: Config, s: State, run: seq<State>) {
    && c.Valid() && Cycles(c, run) && run[0] == s
    && var t := run[|run| - 1];
       Sound(c, t) && NoRequests(t) && t.accepted == s.accepted
  }

  lemma Extend(c: Config, s: State, t: State, rest: seq<State>) returns (run: seq<State>)
    requires Ends(c, t, rest) && CycleTo(c, s, t) && t.accepted == s.accepted
    ensures Ends(c, s, run) && run[|run| - 1] == rest[|rest| - 1]
  {
    Join(c, s, rest);
    run := [s] + rest;
  }

  lemma Chain(c: Config, p: seq<State>, q: seq<State>)
    requires c.Valid() && Cycles(c, p) && Cycles(c, q) && p[|p| - 1] == q[0]
    ensures Cycles(c, p + q[1..])
  {
    var all := p + q[1..];
    forall i | 0 <= i < |all| - 1 ensures CycleTo(c, all[i], all[i + 1]) {
      if i < |p| - 1 {
        assert all[i] == p[i] && all[i + 1] == p[i + 1];
      } else {
        var k := i - |p| + 1;
        assert all[i] == q[k] && all[i + 1] == q[k + 1];
      }
    }
  }

  // ---------- the request queues empty ----------

  function Total<X>(qs: seq<seq<X>>): nat {
    if qs == [] then 0 else Total(qs[..|qs| - 1]) + |qs[|qs| - 1]|
  }

  lemma {:induction false} TotalUpdate<X>(qs: seq<seq<X>>, i: nat, q: seq<X>)
    requires i < |qs|
    ensures Total(qs[i := q]) == Total(qs) - |qs[i]| + |q|
  {
    var last := |qs| - 1;
    if i == last {
      assert qs[i := q][..last] == qs[..last];
    } else {
      assert qs[i := q][..last] == qs[..last][i := q];
      TotalUpdate(qs[..last], i, q);
    }
  }

  lemma {:induction false} TotalZero<X>(qs: seq<seq<X>>)
    ensures Total(qs) == 0 <==> forall i | 0 <= i < |qs| :: qs[i] == []
  {
    if qs != [] {
      TotalZero(qs[..|qs| - 1]);
    }
  }

  lemma ScheduleShrinks(c: Config, s: State, i: nat)
    requires c.Valid() && Good(c, s) && i < |s.queues|
    ensures var t := Schedule(c, s, i);
            && |t.queues| == |s.queues|
            && Total(t.queues) == Total(s.queues) - (if s.queues[i] == [] then 0 else 1)
            && forall j | 0 <= j < |s.queues| && j != i :: t.queues[j] == s.queues[j]
  {
    if s.queues[i] != [] {
      var k := FirstReady(s.bankTable, s.queues[i], 0);
      TotalUpdate(s.queues, i, Without(s.queues[i], k));
    }
  }

  /** One request has been taken from each of the first `n` queues that had one. */
  ghost predicate Shrunk(p: seq<seq<Request>>, q: seq<seq<Request>>, n: nat) {
    && |q| == |p| && n <= |p|
    && Total(q) <= Total(p)
    && ((exists i :: 0 <= i < n && p[i] != []) ==> Total(q) < Total(p))
    && forall j | n <= j < |p| :: q[j] == p[j]
  }

  lemma ShrinkNext(c: Config, p: seq<seq<Request>>, s: State, n: nat)
    requires c.Valid() && Good(c, s) && n < |p| && Shrunk(p, s.queues, n)
    ensures Shrunk(p, Schedule(c, s, n).queues, n + 1)
  {
    ScheduleShrinks(c, s, n);
  }

  lemma {:induction false} ScheduleAllShrinks(c: Config, s: State, n: nat)
    requires c.Valid() && Good(c, s) && n <= |s.queues|
    ensures Shrunk(s.queues, ScheduleAll(c, s, n).queues, n)
  {
    if n > 0 {
      ScheduleAllShrinks(c, s, n - 1);
      ShrinkNext(c, s.queues, ScheduleAll(c, s, n - 1), n - 1);
    }
  }

  /** Nothing is left to schedule. */
  ghost predicate NoRequests(s: State) {
    Total(s.queues) == 0 && s.buffer == []
  }

  lemma CycleTakesRequests(c: Config, s: State, t: State, pick: Option<nat>)
    requires c.Valid() && Good(c, s) && (pick.Some? ==> Ready(c, Offered(c, s), pick.value))
    requires t == Finish(c, Offered(c, s), pick)
    ensures t.buffer == [] && Total(t.queues) <= Total(s.queues)
    ensures Total(s.queues) > 0 ==> Total(t.queues) < Total(s.queues)
  {
    ScheduleAllShrinks(c, s, |s.queues|);
    TotalZero(s.queues);
    EnqueueAllKeeps(c, ScheduleAll(c, s, |s.queues|));
    FinishKeepsCommands(c, Offered(c, s), pick);
  }

  lemma {:induction false} RequestsEnd(c: Config, s: State) returns (run: seq<State>)
    requires Sound(c, s)
    ensures Ends(c, s, run)
    decreases Total(s.queues), |s.buffer|
  {
    if NoRequests(s) {
      run := [s];
    } else {
      var t, pick := NextCycle(c, s);
      CycleTakesRequests(c, s, t, pick);
      var rest := RequestsEnd(c, t);
      run := Extend(c, s, t, rest);
    }
  }

  // ---------- the command queues empty ----------

  lemma {:induction false} NothingScheduled(c: Config, s: State, n: nat)
    requires c.Valid() && Good(c, s) && n <= |s.queues| && forall i | 0 <= i < |s.queues| :: s.queues[i] == []
    ensures ScheduleAll(c, s, n) == s
  {
    if n > 0 {
      NothingScheduled(c, s, n - 1);
    }
  }

  lemma NothingOffered(c: Config, s: State)
    requires c.Valid() && Good(c, s) && NoRequests(s)
    ensures Offered(c, s) == s
  {
    TotalZero(s.queues);
    NothingScheduled(c, s, |s.queues|);
  }

  /** For a fixed history the device accepts a command at every time from some time on. */
  lemma {:induction false} LevelsAllow(d: T.Standard, h: seq<T.Event>, cmd: nat, addr: seq<int>, levels: nat)
    returns (from: nat)
    requires d.WellFormed() && T.HistoryOk(d, h) && cmd < d.commands && R.AddrOk(d, addr) && levels <= d.row
    ensures forall l: nat, clk: int | l < levels && from <= clk :: R.LevelAllows(d, h, cmd, addr, clk, l)
  {
    from := 0;
    if levels > 0 {
      var l := levels - 1;
      var before := LevelsAllow(d, h, cmd, addr, l);
      var path := addr[..l + 1];
      T.NodeAgrees(d, path, h, cmd, 0);
      var next := T.Run(d, path, h).next[cmd];
      from := if before < next then next else before;
      forall clk: int | from <= clk ensures R.LevelAllows(d, h, cmd, addr, clk, l) {
        T.NodeAgrees(d, path, h, cmd, clk);
      }
    }
  }

  lemma DeviceAllowsFrom(c: Config, h: seq<Issue>, p: Packet) returns (from: nat)
    requires c.Valid() && PacketOk(c, p) && IssuesOk(c, h)
    ensures forall clk: nat | from <= clk :: DeviceAllows(c, h, p, clk)
  {
    AddressesOk(c, h, p);
    var d := c.Device();
    from := LevelsAllow(d, Events(c, h), Convert(p.kind), AddrOf(p), d.row);
    forall clk: nat | from <= clk ensures DeviceAllows(c, h, p, clk) {
      assert R.LastLevel(d, Convert(p.kind), AddrOf(p), 0) < d.row;
    }
  }

  lemma HeadIsOk(c: Config, s: State, j: nat)
    requires c.Valid() && Good(c, s) && j < |s.cmds| && s.cmds[j] != []
    ensures PacketOk(c, s.cmds[j][0])
  {
    assert s.cmds[j][0] in s.cmds[j];
  }

  /** How long the head of queue `j` has to wait at most, if the device accepts it from `from` on. */
  function Wait(s: State, j: nat, from: nat): nat
    requires j < |s.cmds| && j < |s.timers| && s.cmds[j] != []
  {
    var timer := Timer(s.timers[j], s.cmds[j][0].kind);
    var device := if s.clock < from then from - s.clock else 0;
    if timer < device then device else timer
  }

  /** What a cycle does when nothing is scheduled any more: it issues a command, or only time passes. */
  lemma CycleWaits(c: Config, s: State, t: State, pick: Option<nat>)
    requires Sound(c, s) && NoRequests(s) && (pick.Some? ==> Ready(c, s, pick.value)) && t == Finish(c, s, pick)
    ensures NoRequests(t)
    ensures pick.None? ==> t.history == s.history && t.cmds == s.cmds && t.clock == s.clock + 1
                           && t.timers == Tick(s).timers
    ensures pick.Some? ==> Total(t.cmds) < Total(s.cmds)
  {
    FinishKeepsCommands(c, s, pick);
    if pick.Some? {
      TotalUpdate(s.cmds, pick.value, s.cmds[pick.value][1..]);
    }
  }

  lemma IdleCycle(c: Config, s: State) returns (t: State, pick: Option<nat>)
    requires Sound(c, s) && NoRequests(s)
    ensures Oldest(c, s, pick) && CycleTo(c, s, t) && Sound(c, t) && NoRequests(t) && t.accepted == s.accepted
    ensures pick.None? ==> t.history == s.history && t.cmds == s.cmds && t.clock == s.clock + 1
                           && t.timers == Tick(s).timers && t == Finish(c, s, None)
    ensures pick.Some? ==> Total(t.cmds) < Total(s.cmds)
  {
    NothingOffered(c, s);
    t, pick := NextCycle(c, s);
    CycleWaits(c, s, t, pick);
  }

  /** The device accepts the head of queue `j` from `from` on. */
  ghost predicate HeadAllowedFrom(c: Config, s: State, j: nat, from: nat)
    requires c.Valid() && Good(c, s)
  {
    && j < |s.cmds| && s.cmds[j] != []
    && PacketOk(c, s.cmds[j][0])
    && forall clk: nat | from <= clk :: DeviceAllows(c, s.history, s.cmds[j][0], clk)
  }

  /** A cycle in which nothing is ready brings the head of queue `j` nearer. */
  lemma WaitFalls(c: Config, s: State, t: State, j: nat, from: nat)
    requires c.Valid() && Good(c, s) && Good(c, t) && HeadAllowedFrom(c, s, j, from) && Oldest(c, s, None)
    requires t.history == s.history && t.cmds == s.cmds && t.clock == s.clock + 1 && t.timers == Tick(s).timers
    ensures HeadAllowedFrom(c, t, j, from) && Wait(t, j, from) < Wait(s, j, from)
  {
    assert j !in ReadyQueues(c, s);
    var kind := s.cmds[j][0].kind;
    assert Timer(t.timers[j], kind) == CountDown(Timer(s.timers[j], kind));
  }

  lemma {:induction false} NextIssue(c: Config, s: State, j: nat, from: nat) returns (run: seq<State>)
    requires Sound(c, s) && NoRequests(s) && HeadAllowedFrom(c, s, j, from)
    ensures Ends(c, s, run) && Total(run[|run| - 1].cmds) < Total(s.cmds)
    decreases Wait(s, j, from)
  {
    var t, pick := IdleCycle(c, s);
    if pick.Some? {
      run := Extend(c, s, t, [t]);
    } else {
      WaitFalls(c, s, t, j, from);
      var rest := NextIssue(c, t, j, from);
      run := Extend(c, s, t, rest);
    }
  }

  lemma {:induction false} CommandsEnd(c: Config, s: State) returns (run: seq<State>)
    requires Sound(c, s) && NoRequests(s)
    ensures Ends(c, s, run) && Total(run[|run| - 1].cmds) == 0
    decreases Total(s.cmds)
  {
    if Total(s.cmds) == 0 {
      run := [s];
    } else {
      TotalZero(s.cmds);
      var j :| 0 <= j < |s.cmds| && s.cmds[j] != [];
      HeadIsOk(c, s, j);
      var from := DeviceAllowsFrom(c, s.history, s.cmds[j][0]);
      var first := NextIssue(c, s, j, from);
      var rest := CommandsEnd(c, first[|first| - 1]);
      Chain(c, first, rest);
      run := first + rest[1..];
    }
  }

  // ---------- the data lines empty ----------

  function Ahead(flying: seq<Packet>, counters: seq<nat>): nat {
    |flying| + Ledger.Sum(counters)
  }

  lemma {:induction false} SumFalls(p: seq<nat>, q: seq<nat>)
    requires |p| == |q| && forall i | 0 <= i < |p| :: q[i] <= p[i]
    ensures Ledger.Sum(q) <= Ledger.Sum(p)
    ensures (exists i :: 0 <= i < |p| && q[i] < p[i]) ==> Ledger.Sum(q) < Ledger.Sum(p)
  {
    if p != [] {
      SumFalls(p[..|p| - 1], q[..|q| - 1]);
    }
  }

  lemma SumTail(q: seq<nat>)
    requires q != []
    ensures Ledger.Sum(q) == q[0] + Ledger.Sum(q[1..])
  {
    assert q == [q[0]] + q[1..];
    assert [q[0]][..0] == [];
    Ledger.SumAppend([q[0]], q[1..]);
  }

  lemma ReadStageAdvances(c: Config, s: State)
    requires c.Valid() && Good(c, s)
    ensures var t := ReadStage(c, s);
            && t.writing == s.writing && t.writeCounters == s.writeCounters
            && (if s.reading == [] then t.reading == []
                else Ahead(t.reading, t.readCycles) < Ahead(s.reading, s.readCycles))
  {
    if s.reading != [] {
      var cycles := Each(CountDown, s.readCycles);
      SumFalls(s.readCycles, cycles);
      SumTail(cycles);
    }
  }

  lemma WriteStageAdvances(c: Config, s: State)
    requires c.Valid() && Good(c, s) && WritesOnTime(c, s) && Rising(OfKind(s.history, WR))
    ensures var t := WriteStage(c, s);
            && t.reading == s.reading && t.readCycles == s.readCycles
            && (if s.writing == [] then t.writing == []
                else Ahead(t.writing, t.writeCounters) < Ahead(s.writing, s.writeCounters))
  {
    if s.writing != [] {
      LaterFlies(OfKind(s.history, WR), Delivered(s.delivered, WR), s.writing, s.writeCounters, WriteDelay(c), 0,
                 s.clock);
      SumTail(s.writeCounters);
      if s.writeCounters[0] == 0 {
        SumFalls(s.writeCounters[1..], Each(Decrement, s.writeCounters[1..]));
      } else {
        SumFalls(s.writeCounters, Each(Decrement, s.writeCounters));
      }
    }
  }

  /** What is left to move. */
  function Moving(s: State): nat {
    Ahead(s.reading, s.readCycles) + Ahead(s.writing, s.writeCounters)
  }

  lemma CycleMovesData(c: Config, s: State, t: State)
    requires Sound(c, s) && t == Finish(c, s, None)
    requires s.reading != [] || s.writing != []
    ensures Moving(t) < Moving(s)
  {
    HistoryRises(c, s, WR);
    WriteStageGood(c, s);
    WriteStageAdvances(c, s);
    ReadStageAdvances(c, Tick(WriteStage(c, s)));
  }

  lemma {:induction false} DataEnds(c: Config, s: State) returns (run: seq<State>)
    requires Sound(c, s) && NoRequests(s) && Total(s.cmds) == 0
    ensures Ends(c, s, run) && Empty(run[|run| - 1])
    decreases Moving(s)
  {
    if s.reading == [] && s.writing == [] {
      run := [s];
    } else {
      var t, pick := IdleCycle(c, s);
      assert pick.None?;
      CycleMovesData(c, s, t);
      var rest := DataEnds(c, t);
      run := Extend(c, s, t, rest);
    }
  }

  // ---------- everything ends ----------

  ghost predicate Empty(s: State) {
    NoRequests(s) && Total(s.cmds) == 0 && s.reading == [] && s.writing == []
  }

  /** From every state with the invariants, the controller's cycles without new requests lead in finitely many
      steps to a state in which nothing is queued or on its way. */
  lemma EverythingEnds(c: Config, s: State) returns (run: seq<State>)
    requires Sound(c, s)
    ensures Cycles(c, run) && run[0] == s
    ensures var t := run[|run| - 1]; Sound(c, t) && Empty(t) && t.accepted == s.accepted
  {
    var a := RequestsEnd(c, s);
    var b := CommandsEnd(c, a[|a| - 1]);
    var d := DataEnds(c, b[|b| - 1]);
    Chain(c, a, b);
    var ab := a + b[1..];
    assert ab[|ab| - 1] == b[|b| - 1];
    Chain(c, ab, d);
    run := ab + d[1..];
    assert run[|run| - 1] == d[|d| - 1];
  }

  lemma EmptyIsDrained(c: Config, s: State, k: Conservation.Key)
    requires Sound(c, s) && Empty(s)
    ensures Drained(c, s, k)
  {
    TotalZero(s.queues);
    TotalZero(s.cmds);
  }

  /** So after every run, once requests stop coming, the controller reaches a state in which, for every key whose
      packets do not overflow a word, exactly the requests before the first that is not a positive multiple
      of the bus width have been called back. */
  lemma EveryRunFinishes(c: Config, states: seq<State>, moves: seq<Move>, i: nat) returns (run: seq<State>)
    requires c.Valid() && Run(c, states, moves) && i < |states| && 0 < ReadDelay(c)
    ensures Cycles(c, run) && run[0] == states[i]
    ensures var t := run[|run| - 1];
            && Good(c, t) && Empty(t) && t.accepted == states[i].accepted
            && forall k | Ledger.Short(c.dataBus, Conservation.Count(t.delivered, k)) ::
                 Ledger.LongestWhole(c.dataBus, Conservation.OfKey(t.done, k), Conservation.OfKey(t.accepted, k))
  {
    ReachedIsSound(c, states, moves, i);
    run := EverythingEnds(c, states[i]);
    var t := run[|run| - 1];
    forall k | Ledger.Short(c.dataBus, Conservation.Count(t.delivered, k))
      ensures Ledger.LongestWhole(c.dataBus, Conservation.OfKey(t.done, k), Conservation.OfKey(t.accepted, k))
    {
      EmptyIsDrained(c, t, k);
      Ledger.DrainedIff(c.dataBus, Conservation.AccountOf(c, t, k));
    }
  }
}
