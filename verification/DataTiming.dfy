/** When data moves: the delay lines deliver every read and write in order and exactly on time. */
module DataTiming {
  import opened Options
  import opened Packets
  import opened Pipeline
  import opened QueueTimers
  import opened SystemRuns

  /** The issued commands of a kind. */
  function OfKind(h: seq<Issue>, kind: PacketType): (r: seq<Issue>)
    ensures forall i | 0 <= i < |r| :: r[i].packet.kind == kind
  {
    if h == [] then []
    else OfKind(h[..|h| - 1], kind) + if h[|h| - 1].packet.kind == kind then [h[|h| - 1]] else []
  }

  function PacketsOf(sent: seq<Issue>): (r: seq<Packet>)
    ensures |r| == |sent| && forall i | 0 <= i < |r| :: r[i] == sent[i].packet
  {
    seq(|sent|, i requires 0 <= i < |sent| => sent[i].packet)
  }

  function Delivered(ps: seq<Packet>, kind: PacketType): seq<Packet> {
    if ps == [] then []
    else Delivered(ps[..|ps| - 1], kind) + if ps[|ps| - 1].kind == kind then [ps[|ps| - 1]] else []
  }

  ghost predicate Rising(sent: seq<Issue>) {
    forall i, k | 0 <= i < k < |sent| :: sent[i].clk < sent[k].clk
  }

  /** A delay line at clock `now`: the oldest commands, those issued more than `delay` cycles ago, have been
      delivered; the others are in flight, and their counters show the time left, up to `bias`. */
  ghost predicate OnTime(sent: seq<Issue>, got: seq<Packet>, flying: seq<Packet>, counters: seq<nat>,
                         delay: int, bias: nat, now: nat)
  {
    && |flying| == |counters| <= |sent|
    && got == PacketsOf(sent[..|sent| - |flying|])
    && (forall i | 0 <= i < |flying| :: Flies(sent[|sent| - |flying| + i], flying[i], counters[i], delay, bias, now))
    && (forall i | 0 <= i < |sent| - |flying| :: sent[i].clk + delay < now)
  }

  ghost predicate Flies(e: Issue, p: Packet, counter: nat, delay: int, bias: nat, now: nat) {
    && p == e.packet.(kind := DATA)
    && counter == e.clk + delay - now + bias
    && now <= e.clk + delay
  }

  // ---------- one delay line ----------

  lemma Launch(sent: seq<Issue>, got: seq<Packet>, flying: seq<Packet>, counters: seq<nat>,
               delay: int, bias: nat, now: nat, e: Issue)
    requires OnTime(sent, got, flying, counters, delay, bias, now) && e.clk == now && 0 <= delay
    ensures OnTime(sent + [e], got, flying + [e.packet.(kind := DATA)], counters + [delay + bias], delay, bias, now)
  {
    assert (sent + [e])[..|sent| - |flying|] == sent[..|sent| - |flying|];
  }

  /** What is in flight behind the front has time left, as it was issued later. */
  lemma LaterFlies(sent: seq<Issue>, got: seq<Packet>, flying: seq<Packet>, counters: seq<nat>,
                   delay: int, bias: nat, now: nat)
    requires OnTime(sent, got, flying, counters, delay, bias, now) && Rising(sent) && flying != []
    ensures forall i | 0 < i < |counters| :: counters[0] < counters[i]
  {
    var n := |sent| - |flying|;
    forall i | 0 < i < |counters| ensures counters[0] < counters[i] {
      assert Flies(sent[n + 0], flying[0], counters[0], delay, bias, now);
      assert Flies(sent[n + i], flying[i], counters[i], delay, bias, now);
    }
  }

  /** A cycle in which nothing is due. */
  lemma Wait(sent: seq<Issue>, got: seq<Packet>, flying: seq<Packet>, counters: seq<nat>, later: seq<nat>,
             delay: int, bias: nat, now: nat)
    requires OnTime(sent, got, flying, counters, delay, bias, now) && Rising(sent)
    requires |later| == |counters|
    requires forall i | 0 <= i < |counters| :: counters[i] > bias && later[i] == counters[i] - 1
    ensures OnTime(sent, got, flying, later, delay, bias, now + 1)
  {
  }

  /** A cycle in which the front is due. */
  lemma Arrive(sent: seq<Issue>, got: seq<Packet>, flying: seq<Packet>, counters: seq<nat>, later: seq<nat>,
               delay: int, bias: nat, now: nat)
    requires OnTime(sent, got, flying, counters, delay, bias, now) && Rising(sent)
    requires flying != [] && counters[0] == bias
    requires |later| == |counters| - 1 && forall i | 0 <= i < |later| :: later[i] == counters[i + 1] - 1
    ensures OnTime(sent, got + [sent[|sent| - |flying|].packet], flying[1..], later, delay, bias, now + 1)
  {
    var n := |sent| - |flying|;
    LaterFlies(sent, got, flying, counters, delay, bias, now);
    assert Flies(sent[n + 0], flying[0], counters[0], delay, bias, now);
    forall i | 0 <= i < |later| ensures Flies(sent[n + 1 + i], flying[1..][i], later[i], delay, bias, now + 1) {
      assert Flies(sent[n + (i + 1)], flying[i + 1], counters[i + 1], delay, bias, now);
    }
    assert sent[..n + 1] == sent[..n] + [sent[n]];
  }

  // ---------- both lines of a state ----------

  function ReadDelay(c: Config): nat {
    c.speed.nCL + c.speed.nBL
  }

  function WriteDelay(c: Config): nat {
    c.speed.nCWL + c.speed.nBL
  }

  ghost predicate ReadsOnTime(c: Config, s: State) {
    OnTime(OfKind(s.history, RD), Delivered(s.delivered, RD), s.reading, s.readCycles, ReadDelay(c) - 1, 1, s.clock)
  }

  ghost predicate WritesOnTime(c: Config, s: State) {
    OnTime(OfKind(s.history, WR), Delivered(s.delivered, WR), s.writing, s.writeCounters, WriteDelay(c), 0, s.clock)
  }

  ghost predicate Punctual(c: Config, s: State) {
    ReadsOnTime(c, s) && WritesOnTime(c, s)
  }

  ghost predicate SameData(s: State, t: State) {
    && t.history == s.history && t.delivered == s.delivered && t.clock == s.clock
    && t.reading == s.reading && t.readCycles == s.readCycles
    && t.writing == s.writing && t.writeCounters == s.writeCounters
  }

  lemma {:induction false} ScheduleAllSameData(c: Config, s: State, n: nat)
    requires c.Valid() && Good(c, s) && n <= |s.queues|
    ensures SameData(s, ScheduleAll(c, s, n))
  {
    if n > 0 {
      ScheduleAllSameData(c, s, n - 1);
    }
  }

  lemma {:induction false} EnqueueAllSameData(c: Config, s: State)
    requires c.Valid() && Good(c, s)
    ensures SameData(s, EnqueueAll(c, s))
    decreases |s.buffer|
  {
    if s.buffer != [] {
      EnqueueGood(c, s);
      EnqueueAllSameData(c, Enqueue(c, s));
    }
  }

  lemma OfferedSameData(c: Config, s: State)
    requires c.Valid() && Good(c, s)
    ensures SameData(s, Offered(c, s))
  {
    ScheduleAllSameData(c, s, |s.queues|);
    EnqueueAllSameData(c, ScheduleAll(c, s, |s.queues|));
  }

  lemma {:induction false} RisingOfKind(h: seq<Issue>, kind: PacketType, now: nat)
    requires forall i, k | 0 <= i < k < |h| :: h[i].clk < h[k].clk
    requires forall i | 0 <= i < |h| :: h[i].clk < now
    ensures Rising(OfKind(h, kind)) && forall i | 0 <= i < |OfKind(h, kind)| :: OfKind(h, kind)[i].clk < now
  {
    if h != [] {
      RisingOfKind(h[..|h| - 1], kind, h[|h| - 1].clk);
    }
  }

  lemma HistoryRises(c: Config, s: State, kind: PacketType)
    requires c.Valid() && Good(c, s) && TimeInv(c, s)
    ensures Rising(OfKind(s.history, kind))
  {
    var h := s.history;
    forall i, k | 0 <= i < k < |h| ensures h[i].clk < h[k].clk {
      ClocksIncrease(c, h, i, k);
    }
    RisingOfKind(h, kind, s.clock);
  }

  // ---------- one cycle ----------

  /** The line of a kind of command when `e` is issued. */
  lemma LaunchKind(h: seq<Issue>, got: seq<Packet>, flying: seq<Packet>, counters: seq<nat>,
                   delay: int, bias: nat, now: nat, e: Issue, kind: PacketType)
    requires OnTime(OfKind(h, kind), got, flying, counters, delay, bias, now) && e.clk == now && 0 <= delay
    ensures OnTime(OfKind(h + [e], kind), got,
                   flying + (if e.packet.kind == kind then [e.packet.(kind := DATA)] else []),
                   counters + (if e.packet.kind == kind then [delay + bias] else []), delay, bias, now)
  {
    OfKindSnoc(h, e, kind);
    if e.packet.kind == kind {
      Launch(OfKind(h, kind), got, flying, counters, delay, bias, now, e);
    } else {
      assert flying + [] == flying && counters + [] == counters && OfKind(h, kind) + [] == OfKind(h, kind);
    }
  }

  lemma IssueOnTime(c: Config, s: State, j: nat, t: State)
    requires c.Valid() && Shape(c, s) && j < |s.cmds| && s.cmds[j] != [] && 0 < ReadDelay(c) && t == IssueHead(c, s, j)
    requires Punctual(c, s)
    ensures Punctual(c, t)
  {
    ReadsIssued(c, s, Issue(j, s.cmds[j][0], s.clock), t);
    WritesIssued(c, s, Issue(j, s.cmds[j][0], s.clock), t);
  }

  lemma ReadsIssued(c: Config, s: State, e: Issue, t: State)
    requires ReadsOnTime(c, s) && e.clk == s.clock && 0 < ReadDelay(c)
    requires t.history == s.history + [e] && t.delivered == s.delivered && t.clock == s.clock
    requires t.reading == s.reading + if e.packet.kind == RD then [e.packet.(kind := DATA)] else []
    requires t.readCycles == s.readCycles + if e.packet.kind == RD then [ReadDelay(c)] else []
    ensures ReadsOnTime(c, t)
  {
    LaunchKind(s.history, Delivered(s.delivered, RD), s.reading, s.readCycles, ReadDelay(c) - 1, 1, s.clock, e, RD);
  }

  lemma WritesIssued(c: Config, s: State, e: Issue, t: State)
    requires WritesOnTime(c, s) && e.clk == s.clock
    requires t.history == s.history + [e] && t.delivered == s.delivered && t.clock == s.clock
    requires t.writing == s.writing + if e.packet.kind == WR then [e.packet.(kind := DATA)] else []
    requires t.writeCounters == s.writeCounters + if e.packet.kind == WR then [WriteDelay(c)] else []
    ensures WritesOnTime(c, t)
  {
    LaunchKind(s.history, Delivered(s.delivered, WR), s.writing, s.writeCounters, WriteDelay(c), 0, s.clock, e, WR);
  }

  lemma OfKindSnoc(h: seq<Issue>, e: Issue, kind: PacketType)
    ensures OfKind(h + [e], kind) == OfKind(h, kind) + if e.packet.kind == kind then [e] else []
  {
    assert (h + [e])[..|h|] == h;
  }

  lemma DeliveredSnoc(ps: seq<Packet>, p: Packet, kind: PacketType)
    ensures Delivered(ps + [p], kind) == Delivered(ps, kind) + if p.kind == kind then [p] else []
  {
    assert (ps + [p])[..|ps|] == ps;
  }

  lemma WriteDue(c: Config, s: State)
    requires c.Valid() && Good(c, s) && s.writing != [] && s.writeCounters[0] == 0
    ensures var t := Tick(WriteStage(c, s));
            && t.history == s.history && t.clock == s.clock + 1
            && t.writing == s.writing[1..] && t.writeCounters == Each(Decrement, s.writeCounters[1..])
            && Delivered(t.delivered, WR) == Delivered(s.delivered, WR) + [s.writing[0].(kind := WR)]
  {
    DeliveredSnoc(s.delivered, s.writing[0].(kind := WR), WR);
  }

  lemma WriteArrives(c: Config, s: State)
    requires c.Valid() && Good(c, s) && WritesOnTime(c, s) && Rising(OfKind(s.history, WR))
    requires s.writing != [] && s.writeCounters[0] == 0
    ensures WritesOnTime(c, Tick(WriteStage(c, s)))
  {
    WriteDue(c, s);
    FrontArrives(s.history, WR, Delivered(s.delivered, WR), s.writing, s.writeCounters,
                 Each(Decrement, s.writeCounters[1..]), WriteDelay(c), 0, s.clock);
  }

  /** The front of the line of a kind of command is due. */
  lemma FrontArrives(h: seq<Issue>, kind: PacketType, got: seq<Packet>, flying: seq<Packet>, counters: seq<nat>,
                     later: seq<nat>, delay: int, bias: nat, now: nat)
    requires var sent := OfKind(h, kind); OnTime(sent, got, flying, counters, delay, bias, now) && Rising(sent)
    requires flying != [] && counters[0] == bias && |later| == |counters| - 1
    requires forall i | 0 <= i < |later| && counters[0] < counters[i + 1] :: later[i] == counters[i + 1] - 1
    ensures OnTime(OfKind(h, kind), got + [flying[0].(kind := kind)], flying[1..], later, delay, bias, now + 1)
  {
    var sent := OfKind(h, kind);
    var n := |sent| - |flying|;
    LaterFlies(sent, got, flying, counters, delay, bias, now);
    assert Flies(sent[n + 0], flying[0], counters[0], delay, bias, now);
    assert sent[n].packet.kind == kind;
    Arrive(sent, got, flying, counters, later, delay, bias, now);
  }

  /** The write line after its stage and the tick. */
  lemma WriteStageOnTime(c: Config, s: State)
    requires c.Valid() && Good(c, s) && WritesOnTime(c, s) && Rising(OfKind(s.history, WR))
    ensures WritesOnTime(c, Tick(WriteStage(c, s)))
  {
    var sent, got := OfKind(s.history, WR), Delivered(s.delivered, WR);
    if s.writing != [] && s.writeCounters[0] == 0 {
      WriteArrives(c, s);
    } else {
      if s.writing != [] {
        LaterFlies(sent, got, s.writing, s.writeCounters, WriteDelay(c), 0, s.clock);
      }
      Wait(sent, got, s.writing, s.writeCounters, WriteStage(c, s).writeCounters, WriteDelay(c), 0, s.clock);
    }
  }

  lemma WriteStageKeepsReads(c: Config, s: State)
    requires c.Valid() && Good(c, s)
    ensures var t := WriteStage(c, s);
            && t.history == s.history && t.reading == s.reading && t.readCycles == s.readCycles && t.clock == s.clock
            && Delivered(t.delivered, RD) == Delivered(s.delivered, RD)
  {
    if s.writing != [] {
      DeliveredSnoc(s.delivered, s.writing[0].(kind := WR), RD);
    }
  }

  lemma ReadStageKeepsWrites(c: Config, s: State)
    requires c.Valid() && Good(c, s)
    ensures var t := ReadStage(c, s);
            && t.history == s.history && t.writing == s.writing && t.writeCounters == s.writeCounters
            && t.clock == s.clock
            && Delivered(t.delivered, WR) == Delivered(s.delivered, WR)
  {
    if s.reading != [] {
      DeliveredSnoc(s.delivered, s.reading[0].(kind := RD), WR);
    }
  }

  ghost predicate ReadsBehind(c: Config, s: State, now: nat) {
    OnTime(OfKind(s.history, RD), Delivered(s.delivered, RD), s.reading, s.readCycles, ReadDelay(c) - 1, 1, now)
  }

  lemma ReadArrives(c: Config, s: State, now: nat)
    requires c.Valid() && Good(c, s) && s.clock == now + 1 && Rising(OfKind(s.history, RD)) && ReadsBehind(c, s, now)
    requires s.reading != [] && s.readCycles[0] == 1
    ensures ReadsOnTime(c, ReadStage(c, s))
  {
    DeliveredSnoc(s.delivered, s.reading[0].(kind := RD), RD);
    FrontArrives(s.history, RD, Delivered(s.delivered, RD), s.reading, s.readCycles,
                 Each(CountDown, s.readCycles)[1..], ReadDelay(c) - 1, 1, now);
  }

  /** The read line after its stage; `s` is the state after the tick, whose line is still that of `now`. */
  lemma ReadStageOnTime(c: Config, s: State, now: nat)
    requires c.Valid() && Good(c, s) && s.clock == now + 1 && Rising(OfKind(s.history, RD)) && ReadsBehind(c, s, now)
    ensures ReadsOnTime(c, ReadStage(c, s))
  {
    var sent, got := OfKind(s.history, RD), Delivered(s.delivered, RD);
    var delay := ReadDelay(c) - 1;
    if s.reading != [] && s.readCycles[0] == 1 {
      ReadArrives(c, s, now);
    } else {
      if s.reading != [] {
        LaterFlies(sent, got, s.reading, s.readCycles, delay, 1, now);
        assert Flies(sent[|sent| - |s.reading| + 0], s.reading[0], s.readCycles[0], delay, 1, now);
      }
      Wait(sent, got, s.reading, s.readCycles, Each(CountDown, s.readCycles), delay, 1, now);
    }
  }

  lemma FinishOnTime(c: Config, s: State, pick: Option<nat>)
    requires c.Valid() && Good(c, s) && (pick.Some? ==> Ready(c, s, pick.value)) && 0 < ReadDelay(c)
    requires ReadsOnTime(c, s) && WritesOnTime(c, s)
    requires Rising(OfKind(IssuePicked(c, s, pick).history, RD)) && Rising(OfKind(IssuePicked(c, s, pick).history, WR))
    ensures ReadsOnTime(c, Finish(c, s, pick)) && WritesOnTime(c, Finish(c, s, pick))
  {
    if pick.Some? {
      IssueOnTime(c, s, pick.value, IssueHead(c, s, pick.value));
    }
    var issued := IssuePicked(c, s, pick);
    WriteStageGood(c, issued);
    WriteStageOnTime(c, issued);
    WriteStageKeepsReads(c, issued);
    var ticked := Tick(WriteStage(c, issued));
    ReadStageOnTime(c, ticked, issued.clock);
    ReadStageKeepsWrites(c, ticked);
  }

  // ---------- runs ----------

  lemma CyclePunctual(c: Config, s: State, pick: Option<nat>)
    requires c.Valid() && Safe(c, s) && Punctual(c, s) && 0 < ReadDelay(c)
    requires pick.Some? ==> Ready(c, Offered(c, s), pick.value)
    ensures Punctual(c, Finish(c, Offered(c, s), pick))
  {
    OfferedSameData(c, s);
    var t := Finish(c, Offered(c, s), pick);
    CycleSafe(c, s, pick);
    FinishKeepsCommands(c, Offered(c, s), pick);
    HistoryRises(c, t, RD);
    HistoryRises(c, t, WR);
    FinishOnTime(c, Offered(c, s), pick);
  }

  lemma MovePunctual(c: Config, s: State, m: Move, t: State)
    requires SafeStep(c, s, m, t) && Punctual(c, s) && 0 < ReadDelay(c)
    ensures Punctual(c, t)
  {
    match m
    case Add(requestor, address, isRead, size) =>
      assert SameData(s, t);
    case Cycle(pick) =>
      CyclePunctual(c, s, pick);
  }

  lemma StartPunctual(c: Config)
    requires c.Valid()
    ensures Punctual(c, Start(c))
  {
  }

  lemma SafeMove(c: Config, states: seq<State>, moves: seq<Move>, i: nat)
    requires c.Valid() && Run(c, states, moves) && i < |moves|
    ensures SafeStep(c, states[i], moves[i], states[i + 1])
  {
    RunIsSafe(c, states, moves, i);
    assert Moves(c, states[i], moves[i], states[i + 1]);
  }

  lemma NextPunctual(c: Config, states: seq<State>, moves: seq<Move>, i: nat)
    requires c.Valid() && Run(c, states, moves) && i < |moves| && 0 < ReadDelay(c) && Punctual(c, states[i])
    ensures Punctual(c, states[i + 1])
  {
    SafeMove(c, states, moves, i);
    MovePunctual(c, states[i], moves[i], states[i + 1]);
  }

  lemma {:induction false} RunIsPunctual(c: Config, states: seq<State>, moves: seq<Move>, i: nat)
    requires c.Valid() && Run(c, states, moves) && i < |states| && 0 < ReadDelay(c)
    ensures Punctual(c, states[i])
  {
    if i == 0 {
      StartPunctual(c);
    } else {
      RunIsPunctual(c, states, moves, i - 1);
      NextPunctual(c, states, moves, i - 1);
    }
  }

  /** In every run: what has been delivered at any time are, in order, exactly the reads issued at least
      `nCL + nBL` cycles ago, and the writes issued more than `nCWL + nBL` cycles ago. */
  lemma EveryRunDeliversOnTime(c: Config, states: seq<State>, moves: seq<Move>, i: nat)
    returns (readsDone: nat, writesDone: nat)
    requires c.Valid() && Run(c, states, moves) && i < |states|
    requires 0 < c.speed.nCL + c.speed.nBL
    ensures var s := states[i];
            var rs, ws := OfKind(s.history, RD), OfKind(s.history, WR);
            && readsDone <= |rs| && writesDone <= |ws|
            && Delivered(s.delivered, RD) == PacketsOf(rs[..readsDone])
            && Delivered(s.delivered, WR) == PacketsOf(ws[..writesDone])
            && (forall k | 0 <= k < |rs| :: k < readsDone <==> rs[k].clk + c.speed.nCL + c.speed.nBL <= s.clock)
            && (forall k | 0 <= k < |ws| :: k < writesDone <==> ws[k].clk + c.speed.nCWL + c.speed.nBL < s.clock)
  {
    RunIsPunctual(c, states, moves, i);
    var s := states[i];
    var rs, ws := OfKind(s.history, RD), OfKind(s.history, WR);
    readsDone, writesDone := |rs| - |s.reading|, |ws| - |s.writing|;
    forall k | readsDone <= k < |rs| ensures s.clock < rs[k].clk + ReadDelay(c) {
      assert Flies(rs[readsDone + (k - readsDone)], s.reading[k - readsDone], s.readCycles[k - readsDone],
                   ReadDelay(c) - 1, 1, s.clock);
    }
    forall k | writesDone <= k < |ws| ensures s.clock <= ws[k].clk + WriteDelay(c) {
      assert Flies(ws[writesDone + (k - writesDone)], s.writing[k - writesDone], s.writeCounters[k - writesDone],
                   WriteDelay(c), 0, s.clock);
    }
  }
}
