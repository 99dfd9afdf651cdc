/** The countdown timers of the command scheduler, and what they and the device check enforce together. */
module QueueTimers {
  import opened Options
  import opened DramTiming
  import opened DramTree
  import opened LegalTrace
  import opened Packets
  import opened Pipeline
  import D = Ddr3
  import S = Ddr3Spacing

  /** Cycles until queue `j` may issue a `t` again, read off the commands it has issued. */
  ghost function Remaining(s: D.Speed, h: seq<Issue>, j: nat, t: PacketType, now: nat): nat
    requires s.nCWL <= s.nCL + s.nBL + 2
  {
    if h == [] then 0
    else
      var e := h[|h| - 1];
      var before := Remaining(s, h[..|h| - 1], j, t, now);
      var due := e.clk + CommandTiming(s, e.packet.kind, t);
      if e.queue == j && now + before < due then due - now else before
  }

  /** Every timer shows the time left until the latest deadline that its queue has ever set. */
  ghost predicate TimersExact(c: Config, s: State)
    requires c.Valid()
  {
    forall j, t | 0 <= j < |s.timers| && t in TIMED ::
      Timer(s.timers[j], t) == Remaining(c.speed, s.history, j, t, s.clock)
  }

  /** Command `i` of the history was ready in its queue, accepted by the device, and alone in its cycle. */
  ghost predicate Proper(c: Config, h: seq<Issue>, i: nat)
    requires c.Valid() && IssuesOk(c, h) && i < |h|
  {
    && h[i].queue == c.commandQueueOf(h[i].packet.bank)
    && Remaining(c.speed, h[..i], h[i].queue, h[i].packet.kind, h[i].clk) == 0
    && DeviceAllows(c, h[..i], h[i].packet, h[i].clk)
    && (i > 0 ==> h[i - 1].clk < h[i].clk)
  }

  ghost predicate Disciplined(c: Config, h: seq<Issue>)
    requires c.Valid() && IssuesOk(c, h)
  {
    forall i | 0 <= i < |h| :: Proper(c, h, i)
  }

  ghost predicate TimeInv(c: Config, s: State)
    requires c.Valid() && Good(c, s)
  {
    && TimersExact(c, s)
    && Disciplined(c, s.history)
    && (s.history != [] ==> s.history[|s.history| - 1].clk < s.clock)
  }

  // ---------- timers against deadlines ----------

  lemma {:induction false} RemainingTicks(s: D.Speed, h: seq<Issue>, j: nat, t: PacketType, now: nat)
    requires s.nCWL <= s.nCL + s.nBL + 2
    ensures Remaining(s, h, j, t, now + 1) == CountDown(Remaining(s, h, j, t, now))
  {
    if h != [] {
      RemainingTicks(s, h[..|h| - 1], j, t, now);
    }
  }

  /** No deadline is forgotten. */
  lemma {:induction false} RemainingCovers(s: D.Speed, h: seq<Issue>, j: nat, t: PacketType, now: nat, i: nat)
    requires s.nCWL <= s.nCL + s.nBL + 2 && i < |h| && h[i].queue == j
    ensures h[i].clk + CommandTiming(s, h[i].packet.kind, t) <= now + Remaining(s, h, j, t, now)
  {
    if i < |h| - 1 {
      RemainingCovers(s, h[..|h| - 1], j, t, now, i);
    }
  }

  lemma RemainingAfter(s: D.Speed, h: seq<Issue>, e: Issue, j: nat, t: PacketType)
    requires s.nCWL <= s.nCL + s.nBL + 2
    ensures var before := Remaining(s, h, j, t, e.clk);
            var wait := CommandTiming(s, e.packet.kind, t);
            Remaining(s, h + [e], j, t, e.clk) == if e.queue == j && before < wait then wait else before
  {
    assert (h + [e])[..|h|] == h;
  }

  // ---------- the invariant, part by part ----------

  lemma StartTimers(c: Config)
    requires c.Valid()
    ensures Good(c, Start(c)) && TimeInv(c, Start(c))
  {
    StartGood(c);
  }

  /** Nothing before the command scheduler touches timers or history. */
  lemma OfferedTimers(c: Config, s: State)
    requires c.Valid() && Good(c, s) && TimeInv(c, s)
    ensures TimeInv(c, Offered(c, s))
  {
    var t := Offered(c, s);
    assert t.timers == s.timers && t.history == s.history && t.clock == s.clock;
  }

  lemma RaiseExact(s: D.Speed, m: map<PacketType, nat>, k: PacketType, t: PacketType)
    requires s.nCWL <= s.nCL + s.nBL + 2 && t in TIMED
    ensures Timer(Raise(s, m, k), t) ==
            if Timer(m, t) < CommandTiming(s, k, t) then CommandTiming(s, k, t) else Timer(m, t)
  {
  }

  lemma TimersAfterIssue(c: Config, s: State, j: nat, e: Issue)
    requires c.Valid() && j < |s.timers| && TimersExact(c, s) && e.queue == j && e.clk == s.clock
    ensures var raised := s.timers[j := Raise(c.speed, s.timers[j], e.packet.kind)];
            forall i, t | 0 <= i < |raised| && t in TIMED ::
              Timer(raised[i], t) == Remaining(c.speed, s.history + [e], i, t, s.clock)
  {
    var raised := s.timers[j := Raise(c.speed, s.timers[j], e.packet.kind)];
    forall i, t | 0 <= i < |raised| && t in TIMED
      ensures Timer(raised[i], t) == Remaining(c.speed, s.history + [e], i, t, s.clock)
    {
      RemainingAfter(c.speed, s.history, e, i, t);
      RaiseExact(c.speed, s.timers[j], e.packet.kind, t);
    }
  }

  lemma {:induction false} DisciplinedAfter(c: Config, h: seq<Issue>, e: Issue)
    requires c.Valid() && IssuesOk(c, h) && Disciplined(c, h) && PacketOk(c, e.packet)
    requires e.queue == c.commandQueueOf(e.packet.bank)
    requires Remaining(c.speed, h, e.queue, e.packet.kind, e.clk) == 0
    requires DeviceAllows(c, h, e.packet, e.clk)
    requires h != [] ==> h[|h| - 1].clk < e.clk
    ensures IssuesOk(c, h + [e]) && Disciplined(c, h + [e])
  {
    var g := h + [e];
    assert g[..|h|] == h;
    forall i | 0 <= i < |g| ensures Proper(c, g, i) {
      if i < |h| {
        assert Proper(c, h, i);
        assert g[..i] == h[..i];
      }
    }
  }

  lemma TickExact(c: Config, s: State)
    requires c.Valid() && TimersExact(c, s)
    ensures TimersExact(c, Tick(s))
  {
    var u := Tick(s);
    forall j, t | 0 <= j < |u.timers| && t in TIMED
      ensures Timer(u.timers[j], t) == Remaining(c.speed, u.history, j, t, u.clock)
    {
      RemainingTicks(c.speed, s.history, j, t, s.clock);
    }
  }

  lemma IssueTimers(c: Config, s: State, j: nat)
    requires c.Valid() && Good(c, s) && TimeInv(c, s) && Ready(c, s, j)
    requires c.commandQueueOf(s.cmds[j][0].bank) == j
    ensures var t := IssueHead(c, s, j);
            && TimersExact(c, t) && IssuesOk(c, t.history) && Disciplined(c, t.history)
            && t.history[|t.history| - 1].clk == t.clock == s.clock
  {
    var e := Issue(j, s.cmds[j][0], s.clock);
    assert s.cmds[j][0] in s.cmds[j];
    assert PacketOk(c, s.cmds[j][0]);
    TimersAfterIssue(c, s, j, e);
    DisciplinedAfter(c, s.history, e);
  }

  lemma AfterTick(c: Config, s: State, t: State)
    requires c.Valid() && Good(c, t) && TimersExact(c, s) && s.history == t.history && Disciplined(c, t.history)
    requires s.history != [] ==> s.history[|s.history| - 1].clk <= s.clock
    requires t.timers == Tick(s).timers && t.clock == s.clock + 1
    ensures TimeInv(c, t)
  {
    TickExact(c, s);
    assert t.clock == Tick(s).clock && t.history == Tick(s).history;
  }

  lemma FinishTimers(c: Config, s: State, pick: Option<nat>)
    requires c.Valid() && Good(c, s) && TimeInv(c, s) && (pick.Some? ==> Ready(c, s, pick.value))
    requires pick.Some? ==> c.commandQueueOf(s.cmds[pick.value][0].bank) == pick.value
    ensures TimeInv(c, Finish(c, s, pick))
  {
    FinishKeepsCommands(c, s, pick);
    match pick
    case None =>
      AfterTick(c, s, Finish(c, s, pick));
    case Some(j) =>
      IssueTimers(c, s, j);
      AfterTick(c, IssueHead(c, s, j), Finish(c, s, pick));
  }

  // ---------- consequences ----------

  lemma {:induction false} ClocksIncrease(c: Config, h: seq<Issue>, i: nat, k: nat)
    requires c.Valid() && IssuesOk(c, h) && Disciplined(c, h) && i < k < |h|
    ensures h[i].clk < h[k].clk
  {
    assert Proper(c, h, k);
    if i < k - 1 {
      ClocksIncrease(c, h, i, k - 1);
    }
  }

  /** The issued commands are a legal trace of the device's rule set. */
  lemma IssuedIsLegal(c: Config, h: seq<Issue>)
    requires c.Valid() && IssuesOk(c, h) && Disciplined(c, h)
    ensures Legal(c.Device(), Events(c, h))
  {
    var g := Events(c, h);
    forall j | 0 <= j < |g| ensures EventOk(c.Device(), g[j]) && AddrOk(c.Device(), g[j].addr) {
      AddressesOk(c, h, h[j].packet);
    }
    forall j | 0 <= j < |g| ensures AllowedAt(c.Device(), g, j) {
      assert Proper(c, h, j);
      assert Events(c, h[..j]) == g[..j];
    }
  }

  /** Two commands of one queue are at least `CommandTiming` apart. */
  lemma QueueSpacing(c: Config, h: seq<Issue>, i: nat, k: nat)
    requires c.Valid() && IssuesOk(c, h) && Disciplined(c, h) && i < k < |h| && h[i].queue == h[k].queue
    ensures h[i].clk + CommandTiming(c.speed, h[i].packet.kind, h[k].packet.kind) <= h[k].clk
  {
    assert Proper(c, h, k);
    RemainingCovers(c.speed, h[..k], h[k].queue, h[k].packet.kind, h[k].clk, i);
  }

  /** The bank timing that the device check misses for ACT (`Ddr3.BankRulesEnforcedIff`) still holds:
      the timers of the bank's queue enforce it. */
  lemma BankSpacing(c: Config, h: seq<Issue>, i: nat, k: nat)
    requires c.Valid() && IssuesOk(c, h) && Disciplined(c, h) && i < k < |h|
    requires h[i].packet.bank == h[k].packet.bank
    ensures var gap := h[k].clk - h[i].clk;
            var first, second := h[i].packet.kind, h[k].packet.kind;
            && (first == ACT && second == ACT ==> c.speed.nRC <= gap)
            && (first == PRE && second == ACT ==> c.speed.nRP <= gap)
            && (first == ACT && second == PRE ==> c.speed.nRAS <= gap)
            && (first == ACT && (second == RD || second == WR) ==> c.speed.nRCD <= gap)
            && (first == RD && second == PRE ==> c.speed.nRTP <= gap)
            && (first == WR && second == PRE ==> c.speed.nCWL + 4 + c.speed.nWR <= gap)
  {
    assert Proper(c, h, i) && Proper(c, h, k);
    QueueSpacing(c, h, i, k);
  }

  // ---------- what is accepted, in numbers ----------

  /** What the device wants between two commands of the controller, `gap` cycles apart. */
  predicate DeviceGap(s: D.Speed, first: Packet, second: Packet, gap: int) {
    && (first.kind == ACT && second.kind == ACT ==> s.nRRD <= gap)
    && (first.kind == RD && second.kind == RD ==> s.nCCD <= gap && s.nBL <= gap)
    && (first.kind == WR && second.kind == WR ==> s.nCCD <= gap && s.nBL <= gap)
    && (first.kind == RD && second.kind == WR ==> s.nCL + s.nCCD + 2 - s.nCWL <= gap)
    && (first.kind == WR && second.kind == RD ==> s.nCWL + s.nBL + s.nWTR <= gap)
    && (first.bank == second.bank ==>
          && (first.kind == ACT && (second.kind == RD || second.kind == WR) ==> s.nRCD <= gap)
          && (first.kind == ACT && second.kind == PRE ==> s.nRAS <= gap)
          && (first.kind == RD && second.kind == PRE ==> s.nRTP <= gap)
          && (first.kind == WR && second.kind == PRE ==> s.nCWL + s.nBL + s.nWR <= gap))
  }

  /** Issue `i` of the history is an activate. */
  predicate IsAct(h: seq<Issue>, i: nat) {
    i < |h| && h[i].packet.kind == ACT
  }

  /** The first of four activates is nFAW cycles old. */
  ghost predicate WindowGap(s: D.Speed, h: seq<Issue>, clk: int) {
    forall i: nat, j: nat, k: nat, l: nat |
      i < j < k < l && IsAct(h, i) && IsAct(h, j) && IsAct(h, k) && IsAct(h, l) :: h[i].clk + s.nFAW <= clk
  }

  lemma ActsAre(c: Config, h: seq<Issue>, addr: seq<int>, from: nat, i: nat)
    requires c.Valid() && IssuesOk(c, h) && 5 <= |addr| && addr[0] == 0 && addr[1] == 0
    requires HistoryOk(c.Device(), Events(c, h))
    ensures S.InRank(c.Device(), addr, D.ACT, Events(c, h), i) <==> IsAct(h, i)
    ensures S.ActivatesAlike(from, D.ACT) ==> from == D.ACT
  {
    if i < |h| {
      assert Events(c, h)[i] == ToEvent(h[i]);
    }
  }

  lemma WindowSays(c: Config, h: seq<Issue>, addr: seq<int>, clk: nat)
    requires c.Valid() && IssuesOk(c, h) && HistoryOk(c.Device(), Events(c, h))
    requires 5 <= |addr| && addr[0] == 0 && addr[1] == 0
    requires S.WindowOk(c.speed, c.Device(), addr, Events(c, h), D.ACT, clk)
    ensures WindowGap(c.speed, h, clk)
  {
    var g := Events(c, h);
    forall i: nat, j: nat, k: nat, l: nat |
      i < j < k < l && IsAct(h, i) && IsAct(h, j) && IsAct(h, k) && IsAct(h, l)
      ensures h[i].clk + c.speed.nFAW <= clk
    {
      ActsAre(c, h, addr, D.ACT, i);
      ActsAre(c, h, addr, D.ACT, j);
      ActsAre(c, h, addr, D.ACT, k);
      ActsAre(c, h, addr, D.ACT, l);
      assert g[i].clk == h[i].clk;
    }
  }

  lemma WindowSaid(c: Config, h: seq<Issue>, addr: seq<int>, clk: nat)
    requires c.Valid() && IssuesOk(c, h) && HistoryOk(c.Device(), Events(c, h))
    requires 5 <= |addr| && addr[0] == 0 && addr[1] == 0 && WindowGap(c.speed, h, clk)
    ensures S.WindowOk(c.speed, c.Device(), addr, Events(c, h), D.ACT, clk)
  {
    var g := Events(c, h);
    forall from: nat, i: nat, j: nat, k: nat, l: nat |
      && from < D.COMMANDS && S.ActivatesAlike(from, D.ACT) && i < j < k < l
      && S.InRank(c.Device(), addr, from, g, i) && S.InRank(c.Device(), addr, from, g, j)
      && S.InRank(c.Device(), addr, from, g, k) && S.InRank(c.Device(), addr, from, g, l)
      ensures g[i].clk + c.speed.nFAW <= clk
    {
      ActsAre(c, h, addr, from, i);
      ActsAre(c, h, addr, from, j);
      ActsAre(c, h, addr, from, k);
      ActsAre(c, h, addr, from, l);
      assert IsAct(h, i) && IsAct(h, j) && IsAct(h, k) && IsAct(h, l);
    }
  }

  lemma WindowIs(c: Config, h: seq<Issue>, p: Packet, clk: nat)
    requires c.Valid() && PacketOk(c, p) && IssuesOk(c, h) && HistoryOk(c.Device(), Events(c, h))
    ensures S.WindowOk(c.speed, c.Device(), AddrOf(p), Events(c, h), Convert(p.kind), clk) <==>
            (p.kind == ACT ==> WindowGap(c.speed, h, clk))
  {
    if p.kind == ACT {
      if WindowGap(c.speed, h, clk) {
        WindowSaid(c, h, AddrOf(p), clk);
      }
      if S.WindowOk(c.speed, c.Device(), AddrOf(p), Events(c, h), D.ACT, clk) {
        WindowSays(c, h, AddrOf(p), clk);
      }
    }
  }

  lemma GapIs(c: Config, e: Issue, p: Packet, clk: nat)
    requires c.Valid() && PacketOk(c, p) && PacketOk(c, e.packet)
    ensures S.FarEnough(c.speed, c.ranks, c.banks, ToEvent(e), Convert(p.kind), AddrOf(p), clk) <==>
            DeviceGap(c.speed, e.packet, p, clk - e.clk)
  {
  }

  ghost predicate AllGaps(c: Config, h: seq<Issue>, p: Packet, clk: nat) {
    forall i | 0 <= i < |h| :: DeviceGap(c.speed, h[i].packet, p, clk - h[i].clk)
  }

  lemma GapsAre(c: Config, h: seq<Issue>, p: Packet, clk: nat)
    requires c.Valid() && PacketOk(c, p) && IssuesOk(c, h) && HistoryOk(c.Device(), Events(c, h))
    ensures S.AllFarEnough(c.speed, c.Device(), c.ranks, c.banks, Events(c, h), Convert(p.kind), AddrOf(p), clk) <==>
            AllGaps(c, h, p, clk)
  {
    var g := Events(c, h);
    forall i | 0 <= i < |h|
      ensures S.FarEnough(c.speed, c.ranks, c.banks, g[i], Convert(p.kind), AddrOf(p), clk) <==>
              DeviceGap(c.speed, h[i].packet, p, clk - h[i].clk)
    {
      GapIs(c, h[i], p, clk);
    }
  }

  lemma DeviceAllowsGaps(c: Config, h: seq<Issue>, p: Packet, clk: nat)
    requires c.Valid() && PacketOk(c, p) && IssuesOk(c, h)
    ensures DeviceAllows(c, h, p, clk) <==> AllGaps(c, h, p, clk) && (p.kind == ACT ==> WindowGap(c.speed, h, clk))
  {
    AddressesOk(c, h, p);
    S.AcceptsAll(c.speed, c.Device(), c.ranks, c.banks, c.rows, c.columns, Events(c, h), Convert(p.kind), AddrOf(p),
                 clk);
    WindowIs(c, h, p, clk);
    GapsAre(c, h, p, clk);
    assert S.SeesRank(c.ranks, Convert(p.kind), AddrOf(p));
  }

  /** The device accepts a command exactly if it is as far behind every issued one as the numbers say, and an
      activate does not make a fifth within nFAW cycles. */
  lemma DeviceAllowsIff(c: Config, h: seq<Issue>, p: Packet, clk: nat)
    requires c.Valid() && PacketOk(c, p) && IssuesOk(c, h)
    ensures DeviceAllows(c, h, p, clk) <==>
            && (forall i | 0 <= i < |h| :: DeviceGap(c.speed, h[i].packet, p, clk - h[i].clk))
            && (p.kind == ACT ==> WindowGap(c.speed, h, clk))
  {
    DeviceAllowsGaps(c, h, p, clk);
  }

  /** Any two commands that the controller issues, whatever their banks and queues, are as far apart as the device
      wants. */
  lemma DeviceSpacing(c: Config, h: seq<Issue>, i: nat, k: nat)
    requires c.Valid() && IssuesOk(c, h) && Disciplined(c, h) && i < k < |h|
    ensures DeviceGap(c.speed, h[i].packet, h[k].packet, h[k].clk - h[i].clk)
  {
    assert Proper(c, h, k);
    DeviceAllowsIff(c, h[..k], h[k].packet, h[k].clk);
    assert h[..k][i] == h[i];
  }

  /** So they keep the spacing of the rank. */
  lemma RankSpacing(c: Config, h: seq<Issue>, i: nat, k: nat)
    requires c.Valid() && IssuesOk(c, h) && Disciplined(c, h) && i < k < |h|
    ensures var gap := h[k].clk - h[i].clk;
            var first, second, s := h[i].packet.kind, h[k].packet.kind, c.speed;
            && (first == ACT && second == ACT ==> s.nRRD <= gap)
            && (first == RD && second == RD ==> s.nCCD <= gap && s.nBL <= gap)
            && (first == WR && second == WR ==> s.nCCD <= gap && s.nBL <= gap)
            && (first == RD && second == WR ==> s.nCL + s.nCCD + 2 - s.nCWL <= gap)
            && (first == WR && second == RD ==> s.nCWL + s.nBL + s.nWTR <= gap)
  {
    DeviceSpacing(c, h, i, k);
  }

  /** What a queue wants between two of its commands, `gap` cycles apart. */
  predicate QueueGap(s: D.Speed, first: PacketType, second: PacketType, gap: int) {
    && (second == ACT ==> (if first == ACT then s.nRC else if first == PRE then s.nRP else 1) <= gap)
    && (second == PRE ==>
          (if first == ACT then s.nRAS else if first == RD then s.nRTP
           else if first == WR then s.nCWL + 4 + s.nWR else 0) <= gap)
    && (second == RD ==>
          (if first == ACT then s.nRCD else if first == RD then 4 else if first == WR then s.nCWL + 10 else 0) <= gap)
    && (second == WR ==>
          (if first == ACT then s.nRCD else if first == RD then s.nCL + s.nBL + 2 - s.nCWL
           else if first == WR then 4 else 0) <= gap)
  }

  lemma {:induction false} RemainingIff(s: D.Speed, h: seq<Issue>, j: nat, t: PacketType, now: nat)
    requires s.nCWL <= s.nCL + s.nBL + 2
    ensures Remaining(s, h, j, t, now) == 0 <==>
            forall i | 0 <= i < |h| && h[i].queue == j :: h[i].clk + CommandTiming(s, h[i].packet.kind, t) <= now
  {
    if h != [] {
      var init := h[..|h| - 1];
      RemainingIff(s, init, j, t, now);
      assert forall i | 0 <= i < |init| :: init[i] == h[i];
    }
  }

  lemma QueueGapIs(s: D.Speed, k: PacketType, t: PacketType, clk: nat, now: nat)
    requires s.nCWL <= s.nCL + s.nBL + 2 && (k == ACT || k == PRE || k == RD || k == WR)
    requires t == ACT || t == PRE || t == RD || t == WR
    ensures clk + CommandTiming(s, k, t) <= now <==> QueueGap(s, k, t, now - clk)
  {
  }

  /** The timer of a queue has run out for a command exactly if all that was issued from the queue is as far away as
      the numbers say. */
  lemma QueueReadyIff(c: Config, s: State, j: nat, t: PacketType)
    requires c.Valid() && Good(c, s) && TimersExact(c, s) && j < |s.timers|
    requires t == ACT || t == PRE || t == RD || t == WR
    ensures Timer(s.timers[j], t) == 0 <==>
            forall i | 0 <= i < |s.history| && s.history[i].queue == j ::
              QueueGap(c.speed, s.history[i].packet.kind, t, s.clock - s.history[i].clk)
  {
    assert t in TIMED;
    RemainingIff(c.speed, s.history, j, t, s.clock);
    forall i | 0 <= i < |s.history|
      ensures s.history[i].clk + CommandTiming(c.speed, s.history[i].packet.kind, t) <= s.clock <==>
              QueueGap(c.speed, s.history[i].packet.kind, t, s.clock - s.history[i].clk)
    {
      assert PacketOk(c, s.history[i].packet);
      QueueGapIs(c.speed, s.history[i].packet.kind, t, s.history[i].clk, s.clock);
    }
  }

  /** Five activates issued by the controller never fit into less than nFAW cycles. */
  lemma ActivateWindow(c: Config, h: seq<Issue>, at: seq<nat>)
    requires c.Valid() && IssuesOk(c, h) && Disciplined(c, h)
    requires |at| == 5 && forall a, b | 0 <= a < b < 5 :: at[a] < at[b]
    requires forall a | 0 <= a < 5 :: at[a] < |h| && h[at[a]].packet.kind == ACT
    ensures h[at[0]].clk + c.speed.nFAW <= h[at[4]].clk
  {
    var g := Events(c, h);
    IssuedIsLegal(c, h);
    forall a | 0 <= a < 5 ensures at[a] < |g| && Hit(c.Device(), [0, 0], D.ACT, g, at[a], Target) {
      assert [0, 0][..1] == [0] == g[at[a]].addr[..1];
    }
    D.FourActivateWindow(c.speed, c.Device(), c.ranks, c.banks, c.rows, c.columns, g, at, 0);
  }
}
