/** What the DDR3 device accepts, in numbers: the cycles that it wants between two commands to one channel, to one
    rank, to different ranks and to one bank.

    The numbers are listed by the command that has to wait, and know nothing of the rule table.  `AcceptsIff` proves
    that the table, read against the whole history, says exactly this.
  */
module Ddr3Spacing {
  import opened DramTiming
  import opened DramTree
  import opened LegalTrace
  import opened Ddr3

  predicate IsRead(cmd: nat) {
    cmd == RD || cmd == RDA
  }

  predicate IsWrite(cmd: nat) {
    cmd == WR || cmd == WRA
  }

  predicate IsActivate(cmd: nat) {
    cmd == ACT || cmd == ACT_R || cmd == ACT_W
  }

  /** Plain activates and the two special ones do not know of each other. */
  predicate ActivatesAlike(first: nat, second: nat) {
    IsActivate(first) && IsActivate(second) && (first == ACT <==> second == ACT)
  }

  // ---------- the numbers ----------

  /** Bursts in one direction follow each other on the channel. */
  predicate ChannelGap(s: Speed, first: nat, second: nat, gap: int) {
    (IsRead(first) && IsRead(second)) || (IsWrite(first) && IsWrite(second)) ==> s.nBL <= gap
  }

  predicate RankGap(s: Speed, first: nat, second: nat, gap: int) {
    && RankColumnGap(s, first, second, gap)
    && RankRowGap(s, first, second, gap)
    && RankPowerGap(s, first, second, gap)
  }

  predicate RankColumnGap(s: Speed, first: nat, second: nat, gap: int) {
    && (IsRead(first) && IsRead(second) ==> s.nCCD <= gap)
    && (IsWrite(first) && IsWrite(second) ==> s.nCCD <= gap)
    && (IsRead(first) && IsWrite(second) ==> s.nCL + s.nCCD + 2 - s.nCWL <= gap)
    && (IsWrite(first) && IsRead(second) ==> s.nCWL + s.nBL + s.nWTR <= gap)
  }

  predicate RankRowGap(s: Speed, first: nat, second: nat, gap: int) {
    && (ActivatesAlike(first, second) ==> s.nRRD <= gap)
    && (second == PREA ==>
          && (IsActivate(first) ==> s.nRAS <= gap)
          && (first == RD ==> s.nRTP <= gap)
          && (first == WR ==> s.nCWL + s.nBL + s.nWR <= gap))
    && (first == PREA && (IsActivate(second) || second == REF || second == SRE) ==> s.nRP <= gap)
    && (first == PRE && (second == REF || second == SRE) ==> s.nRP <= gap)
    && (first == REF && (IsActivate(second) || second == REF) ==> s.nRFC <= gap)
  }

  predicate RankPowerGap(s: Speed, first: nat, second: nat, gap: int) {
    && (second == PDE ==>
          && (IsRead(first) ==> s.nCL + s.nBL + 1 <= gap)
          && (first == WR ==> s.nCWL + s.nBL + s.nWR <= gap)
          && (first == WRA ==> s.nCWL + s.nBL + s.nWR + 1 <= gap)
          && (IsActivate(first) || first == REF ==> 1 <= gap))
    && (first == PDE && second == PDX ==> s.nPD <= gap)
    && (first == PDX && second != PDX && second != SRX ==> s.nXP <= gap)
    && (first == SRE && second == SRX ==> s.nCKESR <= gap)
    && (first == SRX && (IsActivate(second) || second == REF || second == PDE || second == SRE) ==> s.nXS <= gap)
  }

  /** Changing the rank, and the direction with it. */
  predicate OtherRankGap(s: Speed, first: nat, second: nat, gap: int) {
    && (IsRead(first) && (IsRead(second) || IsWrite(second)) ==> s.nBL + s.nRTRS <= gap)
    && (IsRead(first) && IsWrite(second) ==> s.nCL + s.nBL + s.nRTRS - s.nCWL <= gap)
    && (IsWrite(first) && IsRead(second) ==> s.nCWL + s.nBL + s.nRTRS - s.nCL <= gap)
  }

  predicate BankGap(s: Speed, first: nat, second: nat, gap: int) {
    && (IsActivate(first) && (IsRead(second) || IsWrite(second)) ==> s.nRCD <= gap)
    && (ActivatesAlike(first, second) ==> s.nRC <= gap)
    && (IsActivate(second) ==>
          && (first == PRE ==> s.nRP <= gap)
          && (first == RDA ==> s.nRTP + s.nRP <= gap)
          && (first == WRA ==> s.nCWL + s.nBL + s.nWR + s.nRP <= gap))
    && (second == PRE ==>
          && (IsActivate(first) ==> s.nRAS <= gap)
          && (first == RD ==> s.nRTP <= gap)
          && (first == WR ==> s.nCWL + s.nBL + s.nWR <= gap))
  }

  /** The numbers that hold at a level, for a node that was the target of `first`, or a sibling of it. */
  predicate LevelGap(s: Speed, level: nat, role: Role, first: nat, second: nat, gap: int) {
    match role
    case Target =>
      if level == CHANNEL then ChannelGap(s, first, second, gap)
      else if level == RANK then RankGap(s, first, second, gap)
      else if level == BANK then BankGap(s, first, second, gap)
      else true
    case Sibling => level == RANK ==> OtherRankGap(s, first, second, gap)
    case Unrelated => true
  }

  // ---------- the table says the same ----------

  predicate EntryClears(t: TimingEntry, role: Role, cmd: nat, gap: int) {
    t.dist == 1 && t.cmd == cmd && role == (if t.sibling then Sibling else Target) ==> t.val <= gap
  }

  predicate RowClears(rules: seq<TimingEntry>, role: Role, cmd: nat, gap: int) {
    forall k | 0 <= k < |rules| :: EntryClears(rules[k], role, cmd, gap)
  }

  lemma RowsAppend(p: seq<TimingEntry>, q: seq<TimingEntry>, role: Role, cmd: nat, gap: int)
    ensures RowClears(p + q, role, cmd, gap) <==> RowClears(p, role, cmd, gap) && RowClears(q, role, cmd, gap)
  {
    var r := p + q;
    assert forall k | 0 <= k < |p| :: r[k] == p[k];
    assert forall k | 0 <= k < |q| :: r[|p| + k] == q[k];
    if RowClears(r, role, cmd, gap) {
      forall k | 0 <= k < |q| ensures EntryClears(q[k], role, cmd, gap) {
        assert EntryClears(r[|p| + k], role, cmd, gap);
      }
    }
  }

  lemma RowOfTwo(r: seq<TimingEntry>, role: Role, cmd: nat, gap: int)
    requires |r| == 2
    ensures RowClears(r, role, cmd, gap) <==> EntryClears(r[0], role, cmd, gap) && EntryClears(r[1], role, cmd, gap)
  {
  }

  lemma RowOfOne(r: seq<TimingEntry>, role: Role, cmd: nat, gap: int)
    requires |r| == 1
    ensures RowClears(r, role, cmd, gap) <==> EntryClears(r[0], role, cmd, gap)
  {
  }

  lemma RowOfThree(r: seq<TimingEntry>, role: Role, cmd: nat, gap: int)
    requires |r| == 3
    ensures RowClears(r, role, cmd, gap) <==>
            EntryClears(r[0], role, cmd, gap) && EntryClears(r[1], role, cmd, gap) && EntryClears(r[2], role, cmd, gap)
  {
  }

  lemma RowOfFour(r: seq<TimingEntry>, role: Role, cmd: nat, gap: int)
    requires |r| == 4
    ensures RowClears(r, role, cmd, gap) <==>
            EntryClears(r[0], role, cmd, gap) && EntryClears(r[1], role, cmd, gap)
            && EntryClears(r[2], role, cmd, gap) && EntryClears(r[3], role, cmd, gap)
  {
  }

  lemma RowOfSix(r: seq<TimingEntry>, role: Role, cmd: nat, gap: int)
    requires |r| == 6
    ensures RowClears(r, role, cmd, gap) <==> RowClears(r[..4], role, cmd, gap) && RowClears(r[4..], role, cmd, gap)
  {
    assert r == r[..4] + r[4..];
    RowsAppend(r[..4], r[4..], role, cmd, gap);
  }

  lemma ChannelRow(s: Speed, from: nat, role: Role, cmd: nat, gap: int)
    requires from < COMMANDS && cmd < COMMANDS
    ensures RowClears(ChannelRules(s, from), role, cmd, gap) <==> LevelGap(s, CHANNEL, role, from, cmd, gap)
  {
    var r := ChannelRules(s, from);
    if |r| == 2 {
      RowOfTwo(r, role, cmd, gap);
    }
  }

  lemma ReadRow(s: Speed, from: nat, role: Role, cmd: nat, gap: int)
    requires IsRead(from) && cmd < COMMANDS
    ensures RowClears(ReadRank(s), role, cmd, gap) <==>
            (role == Target ==> RankColumnGap(s, from, cmd, gap))
            && (role == Sibling ==> OtherRankGap(s, from, cmd, gap))
  {
    var r := ReadRank(s);
    RowOfFour(r[..4], role, cmd, gap);
    RowOfFour(r[4..8], role, cmd, gap);
    RowOfTwo(r[8..], role, cmd, gap);
    assert r == r[..4] + (r[4..8] + r[8..]);
    RowsAppend(r[..4], r[4..8] + r[8..], role, cmd, gap);
    RowsAppend(r[4..8], r[8..], role, cmd, gap);
  }

  lemma WriteRow(s: Speed, from: nat, role: Role, cmd: nat, gap: int)
    requires IsWrite(from) && cmd < COMMANDS
    ensures RowClears(WriteRank(s), role, cmd, gap) <==>
            (role == Target ==> RankColumnGap(s, from, cmd, gap))
            && (role == Sibling ==> OtherRankGap(s, from, cmd, gap))
  {
    var r := WriteRank(s);
    RowOfFour(r[..4], role, cmd, gap);
    RowOfTwo(r[4..], role, cmd, gap);
    RowOfSix(r, role, cmd, gap);
  }

  lemma RankColumnRow(s: Speed, from: nat, role: Role, cmd: nat, gap: int)
    requires (IsRead(from) || IsWrite(from)) && cmd < COMMANDS
    ensures RowClears(RankRules(s, from), role, cmd, gap) <==> LevelGap(s, RANK, role, from, cmd, gap)
  {
    var r := RankRules(s, from);
    if IsRead(from) {
      ReadRow(s, from, role, cmd, gap);
      RowsAppend(ReadRank(s), r[10..], role, cmd, gap);
      assert r == ReadRank(s) + r[10..];
      if from == RD {
        RowOfTwo(r[10..], role, cmd, gap);
      } else {
        RowOfOne(r[10..], role, cmd, gap);
      }
    } else {
      WriteRow(s, from, role, cmd, gap);
      RowsAppend(WriteRank(s), r[6..], role, cmd, gap);
      assert r == WriteRank(s) + r[6..];
      if from == WR {
        RowOfTwo(r[6..], role, cmd, gap);
      } else {
        RowOfOne(r[6..], role, cmd, gap);
      }
    }
  }

  lemma RankActivateRow(s: Speed, from: nat, role: Role, cmd: nat, gap: int)
    requires IsActivate(from) && cmd < COMMANDS
    ensures RowClears(RankRules(s, from), role, cmd, gap) <==> LevelGap(s, RANK, role, from, cmd, gap)
  {
    var r := RankRules(s, from);
    if from == ACT {
      RowOfFour(r, role, cmd, gap);
    } else {
      RowOfFour(r[..4], role, cmd, gap);
      RowOfTwo(r[4..], role, cmd, gap);
      RowOfSix(r, role, cmd, gap);
    }
  }

  lemma RankOtherRow(s: Speed, from: nat, role: Role, cmd: nat, gap: int)
    requires from < COMMANDS && !IsRead(from) && !IsWrite(from) && !IsActivate(from) && from != PDX && cmd < COMMANDS
    ensures RowClears(RankRules(s, from), role, cmd, gap) <==> LevelGap(s, RANK, role, from, cmd, gap)
  {
    var r := RankRules(s, from);
    if |r| == 1 {
      RowOfOne(r, role, cmd, gap);
    } else if |r| == 2 {
      RowOfTwo(r, role, cmd, gap);
    } else if |r| == 5 {
      RowOfFour(r[..4], role, cmd, gap);
      assert r == r[..4] + r[4..];
      RowOfOne(r[4..], role, cmd, gap);
      RowsAppend(r[..4], r[4..], role, cmd, gap);
    } else if |r| == 6 {
      RowOfFour(r[..4], role, cmd, gap);
      RowOfTwo(r[4..], role, cmd, gap);
      RowOfSix(r, role, cmd, gap);
    }
  }

  lemma RowOfTwelve(r: seq<TimingEntry>, role: Role, cmd: nat, gap: int)
    requires |r| == 12
    ensures RowClears(r, role, cmd, gap) <==>
            && EntryClears(r[0], role, cmd, gap) && EntryClears(r[1], role, cmd, gap)
            && EntryClears(r[2], role, cmd, gap) && EntryClears(r[3], role, cmd, gap)
            && EntryClears(r[4], role, cmd, gap) && EntryClears(r[5], role, cmd, gap)
            && EntryClears(r[6], role, cmd, gap) && EntryClears(r[7], role, cmd, gap)
            && EntryClears(r[8], role, cmd, gap) && EntryClears(r[9], role, cmd, gap)
            && EntryClears(r[10], role, cmd, gap) && EntryClears(r[11], role, cmd, gap)
  {
  }

  lemma RankWakeRow(s: Speed, role: Role, cmd: nat, gap: int)
    requires cmd < COMMANDS
    ensures RowClears(RankRules(s, PDX), role, cmd, gap) <==> LevelGap(s, RANK, role, PDX, cmd, gap)
  {
    RowOfTwelve(RankRules(s, PDX), role, cmd, gap);
  }

  lemma BankRow(s: Speed, from: nat, role: Role, cmd: nat, gap: int)
    requires from < COMMANDS && cmd < COMMANDS
    ensures RowClears(BankRules(s, from), role, cmd, gap) <==> LevelGap(s, BANK, role, from, cmd, gap)
  {
    var r := BankRules(s, from);
    if IsActivate(from) {
      assert r == Opened(s) + r[4..];
      RowOfFour(Opened(s), role, cmd, gap);
      RowsAppend(Opened(s), r[4..], role, cmd, gap);
      if from == ACT {
        RowOfTwo(r[4..], role, cmd, gap);
      } else {
        RowOfThree(r[4..], role, cmd, gap);
      }
    } else if |r| == 2 {
      RowOfTwo(r, role, cmd, gap);
    } else if |r| == 3 {
      RowOfThree(r, role, cmd, gap);
    }
  }

  /** Every row of the table, read for rules that look back by one, is the list of numbers. */
  lemma TableRowIs(s: Speed, level: nat, from: nat, role: Role, cmd: nat, gap: int)
    requires from < COMMANDS && cmd < COMMANDS
    ensures RowClears(TableRow(s, level, from), role, cmd, gap) <==> LevelGap(s, level, role, from, cmd, gap)
  {
    if level == CHANNEL {
      ChannelRow(s, from, role, cmd, gap);
    } else if level == BANK {
      BankRow(s, from, role, cmd, gap);
    } else if level == RANK {
      if IsRead(from) || IsWrite(from) {
        RankColumnRow(s, from, role, cmd, gap);
      } else if IsActivate(from) {
        RankActivateRow(s, from, role, cmd, gap);
      } else if from == PDX {
        RankWakeRow(s, role, cmd, gap);
      } else {
        RankOtherRow(s, from, role, cmd, gap);
      }
    }
  }

  // ---------- what one node lets through ----------

  ghost predicate EventClears(d: Standard, path: seq<int>, e: Event, cmd: nat, clk: int)
    requires d.WellFormed() && 0 < |path| <= |d.timing| && EventOk(d, e)
  {
    RowClears(d.Rules(|path| - 1, e.cmd), RoleOf(path, e.addr), cmd, clk - e.clk)
  }

  predicate AllUpTo(times: seq<int>, bound: int) {
    forall i | 0 <= i < |times| :: times[i] <= bound
  }

  lemma AllUpToSnoc(times: seq<int>, x: int, bound: int)
    ensures AllUpTo(times + [x], bound) <==> AllUpTo(times, bound) && x <= bound
  {
    var all := times + [x];
    assert all[|times|] == x;
    assert forall i | 0 <= i < |times| :: all[i] == times[i];
  }

  ghost predicate HitsUpTo(d: Standard, path: seq<int>, role: Role, from: nat, h: seq<Event>, bound: int)
    requires 0 < |path| <= |d.timing| && HistoryOk(d, h)
  {
    forall i | 0 <= i < |h| && h[i].cmd == from && RoleOf(path, h[i].addr) == role :: h[i].clk <= bound
  }

  lemma {:induction false} IssuedEach(d: Standard, path: seq<int>, role: Role, from: nat, h: seq<Event>, bound: int)
    requires 0 < |path| <= |d.timing| && HistoryOk(d, h)
    ensures AllUpTo(Issued(d, path, role, from, h), bound) <==> HitsUpTo(d, path, role, from, h, bound)
  {
    if h != [] {
      var init, e := h[..|h| - 1], h[|h| - 1];
      IssuedEach(d, path, role, from, init, bound);
      AllUpToSnoc(Issued(d, path, role, from, init), e.clk, bound);
      assert forall i | 0 <= i < |init| :: init[i] == h[i];
    }
  }

  lemma LastOnly(t: TimingEntry, times: seq<int>, clk: int)
    requires t.dist == 1
    ensures RuleHolds(t, times, clk) <==> AllUpTo(times, clk - t.val)
  {
  }

  /** A rule that looks back by one is a rule on each past command. */
  lemma NearRule(d: Standard, path: seq<int>, h: seq<Event>, cmd: nat, clk: int, from: nat, k: nat)
    requires d.WellFormed() && 0 < |path| <= |d.timing| && HistoryOk(d, h)
    requires from < d.commands && k < |d.Rules(|path| - 1, from)| && d.Rules(|path| - 1, from)[k].dist == 1
    ensures Clears(d, path, h, cmd, clk, from, k) <==>
            forall i | 0 <= i < |h| && h[i].cmd == from ::
              EntryClears(d.Rules(|path| - 1, from)[k], RoleOf(path, h[i].addr), cmd, clk - h[i].clk)
  {
    var t := d.Rules(|path| - 1, from)[k];
    IssuedEach(d, path, if t.sibling then Sibling else Target, from, h, clk - t.val);
    LastOnly(t, TimesFor(d, path, t, from, h), clk);
  }

  /** The rules that look back further hold. */
  ghost predicate FarRules(d: Standard, path: seq<int>, h: seq<Event>, cmd: nat, clk: int)
    requires d.WellFormed() && 0 < |path| <= |d.timing| && HistoryOk(d, h)
  {
    var level := |path| - 1;
    forall from: nat, k: nat | from < d.commands && k < |d.Rules(level, from)| :: FarRule(d, path, h, cmd, clk, from, k)
  }

  ghost predicate FarRule(d: Standard, path: seq<int>, h: seq<Event>, cmd: nat, clk: int, from: nat, k: nat)
    requires d.WellFormed() && 0 < |path| <= |d.timing| && HistoryOk(d, h)
    requires from < d.commands && k < |d.Rules(|path| - 1, from)|
  {
    d.Rules(|path| - 1, from)[k].dist != 1 ==> Clears(d, path, h, cmd, clk, from, k)
  }

  lemma NodeSplits(d: Standard, path: seq<int>, h: seq<Event>, cmd: nat, clk: int)
    requires d.WellFormed() && 0 < |path| <= |d.timing| && HistoryOk(d, h)
    ensures NodeAllows(d, path, h, cmd, clk) <==> AllEventsClear(d, path, h, cmd, clk) && FarRules(d, path, h, cmd, clk)
  {
    if NodeAllows(d, path, h, cmd, clk) {
      forall i | 0 <= i < |h| ensures EventClears(d, path, h[i], cmd, clk) {
        var row := d.Rules(|path| - 1, h[i].cmd);
        forall k | 0 <= k < |row| ensures EntryClears(row[k], RoleOf(path, h[i].addr), cmd, clk - h[i].clk) {
          if row[k].dist == 1 {
            assert Clears(d, path, h, cmd, clk, h[i].cmd, k);
            NearRule(d, path, h, cmd, clk, h[i].cmd, k);
          }
        }
      }
    }
    if AllEventsClear(d, path, h, cmd, clk) && FarRules(d, path, h, cmd, clk) {
      forall from: nat, k: nat | from < d.commands && k < |d.Rules(|path| - 1, from)|
        ensures Clears(d, path, h, cmd, clk, from, k)
      {
        if d.Rules(|path| - 1, from)[k].dist == 1 {
          forall i | 0 <= i < |h| && h[i].cmd == from
            ensures EntryClears(d.Rules(|path| - 1, from)[k], RoleOf(path, h[i].addr), cmd, clk - h[i].clk)
          {
            assert EventClears(d, path, h[i], cmd, clk);
          }
          NearRule(d, path, h, cmd, clk, from, k);
        } else {
          assert FarRule(d, path, h, cmd, clk, from, k);
        }
      }
    }
  }

  // ---------- the activate window ----------

  /** Positions of four commands `from` that went through the node, in order. */
  ghost predicate FourHits(d: Standard, path: seq<int>, from: nat, h: seq<Event>, a: nat, b: nat, c: nat, e: nat)
    requires 0 < |path| <= |d.timing| && HistoryOk(d, h)
  {
    && a < b < c < e < |h|
    && Hit(d, path, from, h, a, Target) && Hit(d, path, from, h, b, Target)
    && Hit(d, path, from, h, c, Target) && Hit(d, path, from, h, e, Target)
  }

  /** Where the `i`-th of the issue times comes from. */
  lemma {:induction false} NthHit(d: Standard, path: seq<int>, from: nat, h: seq<Event>, i: nat) returns (p: nat)
    requires 0 < |path| <= |d.timing| && HistoryOk(d, h) && i < |Issued(d, path, Target, from, h)|
    ensures p < |h| && Hit(d, path, from, h, p, Target)
    ensures Issued(d, path, Target, from, h)[i] == h[p].clk && |Issued(d, path, Target, from, h[..p])| == i
  {
    var init := h[..|h| - 1];
    if i < |Issued(d, path, Target, from, init)| {
      p := NthHit(d, path, from, init, i);
      assert init[..p] == h[..p];
    } else {
      p := |h| - 1;
    }
  }

  lemma HitsInOrder(d: Standard, path: seq<int>, from: nat, h: seq<Event>, p: nat, q: nat)
    requires 0 < |path| <= |d.timing| && HistoryOk(d, h) && p < |h| && q < |h|
    requires |Issued(d, path, Target, from, h[..p])| < |Issued(d, path, Target, from, h[..q])|
    ensures p < q
  {
    if q <= p {
      IssuedGrows(d, path, Target, from, h, q, p);
    }
  }

  lemma FourTimes(d: Standard, path: seq<int>, from: nat, h: seq<Event>, i: nat)
    returns (a: nat, b: nat, c: nat, e: nat)
    requires 0 < |path| <= |d.timing| && HistoryOk(d, h) && i + 4 <= |Issued(d, path, Target, from, h)|
    ensures FourHits(d, path, from, h, a, b, c, e) && Issued(d, path, Target, from, h)[i] == h[a].clk
  {
    a := NthHit(d, path, from, h, i);
    b := NthHit(d, path, from, h, i + 1);
    c := NthHit(d, path, from, h, i + 2);
    e := NthHit(d, path, from, h, i + 3);
    HitsInOrder(d, path, from, h, a, b);
    HitsInOrder(d, path, from, h, b, c);
    HitsInOrder(d, path, from, h, c, e);
  }

  lemma FourCount(d: Standard, path: seq<int>, from: nat, h: seq<Event>, a: nat, b: nat, c: nat, e: nat)
    requires 0 < |path| <= |d.timing| && HistoryOk(d, h) && FourHits(d, path, from, h, a, b, c, e)
    ensures var times := Issued(d, path, Target, from, h);
            var i := |Issued(d, path, Target, from, h[..a])|;
            i + 4 <= |times| && times[i] == h[a].clk
  {
    var at := [a, b, c, e];
    assert h[..|h|] == h;
    HitsCount(d, path, Target, from, h, at, |h|);
    HitIsIssued(d, path, Target, from, h, a, |h|);
  }

  ghost predicate WindowFits(d: Standard, path: seq<int>, from: nat, h: seq<Event>, val: int, clk: int)
    requires 0 < |path| <= |d.timing| && HistoryOk(d, h)
  {
    forall a: nat, b: nat, c: nat, e: nat | FourHits(d, path, from, h, a, b, c, e) :: h[a].clk + val <= clk
  }

  lemma FourRule(d: Standard, path: seq<int>, from: nat, h: seq<Event>, t: TimingEntry, clk: int)
    requires 0 < |path| <= |d.timing| && HistoryOk(d, h) && t.dist == 4 && !t.sibling
    ensures RuleHolds(t, TimesFor(d, path, t, from, h), clk) <==> WindowFits(d, path, from, h, t.val, clk)
  {
    var times := Issued(d, path, Target, from, h);
    if RuleHolds(t, times, clk) {
      forall a: nat, b: nat, c: nat, e: nat | FourHits(d, path, from, h, a, b, c, e) ensures h[a].clk + t.val <= clk {
        FourCount(d, path, from, h, a, b, c, e);
      }
    }
    if WindowFits(d, path, from, h, t.val, clk) {
      forall i {:trigger times[i]} | 0 <= i < |times| && i + t.dist <= |times| ensures times[i] + t.val <= clk {
        var a, b, c, e := FourTimes(d, path, from, h, i);
      }
    }
  }

  /** The nFAW windows that hold back `cmd` in the rank at `path`. */
  ghost predicate RankWindows(s: Speed, d: Standard, path: seq<int>, h: seq<Event>, cmd: nat, clk: int)
    requires 0 < |path| <= |d.timing| && HistoryOk(d, h)
  {
    forall from: nat | from < COMMANDS && ActivatesAlike(from, cmd) :: WindowFits(d, path, from, h, s.nFAW, clk)
  }

  /** Where in the rows of a rank the activate windows are. */
  lemma FarEntries(s: Speed, level: nat, from: nat, k: nat)
    requires level < 5 && from < COMMANDS && k < |TableRow(s, level, from)|
    ensures var t := TableRow(s, level, from)[k];
            t.dist != 1 ==> level == RANK && t.dist == 4 && !t.sibling && t.val == s.nFAW && ActivatesAlike(from, t.cmd)
  {
  }

  lemma WindowEntry(s: Speed, from: nat, cmd: nat) returns (k: nat)
    requires from < COMMANDS && ActivatesAlike(from, cmd)
    ensures k < |RankRules(s, from)| && RankRules(s, from)[k] == TimingEntry(cmd, 4, s.nFAW, false)
  {
    k := if cmd == ACT then 1 else if cmd == ACT_W then 2 else 3;
  }

  lemma FarRulesAre(s: Speed, d: Standard, ranks: nat, banks: nat, rows: nat, columns: nat, path: seq<int>,
                    h: seq<Event>, cmd: nat, clk: int)
    requires d == Device(s, ranks, banks, rows, columns) && d.WellFormed() && HistoryOk(d, h) && 0 < |path| <= 4
    ensures FarRules(d, path, h, cmd, clk) <==> (|path| == 2 ==> RankWindows(s, d, path, h, cmd, clk))
  {
    DeviceOk(s, ranks, banks, rows, columns);
    var level := |path| - 1;
    if FarRules(d, path, h, cmd, clk) && |path| == 2 {
      forall from: nat | from < COMMANDS && ActivatesAlike(from, cmd)
        ensures WindowFits(d, path, from, h, s.nFAW, clk)
      {
        var k := WindowEntry(s, from, cmd);
        assert FarRule(d, path, h, cmd, clk, from, k);
        FourRule(d, path, from, h, d.Rules(level, from)[k], clk);
      }
    }
    if |path| == 2 ==> RankWindows(s, d, path, h, cmd, clk) {
      forall from: nat, k: nat | from < d.commands && k < |d.Rules(level, from)|
        ensures FarRule(d, path, h, cmd, clk, from, k)
      {
        FarEntries(s, level, from, k);
        var t := d.Rules(level, from)[k];
        if t.dist != 1 && t.cmd == cmd {
          FourRule(d, path, from, h, t, clk);
        }
      }
    }
  }

  /** At the node of `path` the past command `e` is far enough away. */
  ghost predicate EventGap(s: Speed, path: seq<int>, e: Event, cmd: nat, clk: int)
    requires 0 < |path| <= |e.addr|
  {
    LevelGap(s, |path| - 1, RoleOf(path, e.addr), e.cmd, cmd, clk - e.clk)
  }

  /** A row of rules says for `from` at a level what the numbers say. */
  ghost predicate RowIs(s: Speed, level: nat, rules: seq<TimingEntry>, from: nat) {
    forall role: Role, cmd: nat, gap: int | cmd < COMMANDS ::
      RowClears(rules, role, cmd, gap) <==> LevelGap(s, level, role, from, cmd, gap)
  }

  lemma RulesAre(s: Speed, d: Standard, ranks: nat, banks: nat, rows: nat, columns: nat, level: nat, from: nat)
    requires d == Device(s, ranks, banks, rows, columns) && d.WellFormed() && level < 5 && from < COMMANDS
    ensures RowIs(s, level, d.Rules(level, from), from)
  {
    DeviceOk(s, ranks, banks, rows, columns);
    forall role: Role, cmd: nat, gap: int | cmd < COMMANDS
      ensures RowClears(TableRow(s, level, from), role, cmd, gap) <==> LevelGap(s, level, role, from, cmd, gap)
    {
      TableRowIs(s, level, from, role, cmd, gap);
    }
  }

  lemma EventIs(s: Speed, d: Standard, path: seq<int>, e: Event, cmd: nat, clk: int)
    requires d.WellFormed() && EventOk(d, e) && 0 < |path| <= |d.timing| && cmd < COMMANDS
    requires RowIs(s, |path| - 1, d.Rules(|path| - 1, e.cmd), e.cmd)
    ensures EventClears(d, path, e, cmd, clk) <==> EventGap(s, path, e, cmd, clk)
  {
  }

  ghost predicate AllEventsClear(d: Standard, path: seq<int>, h: seq<Event>, cmd: nat, clk: int)
    requires d.WellFormed() && 0 < |path| <= |d.timing| && HistoryOk(d, h)
  {
    forall i | 0 <= i < |h| :: EventClears(d, path, h[i], cmd, clk)
  }

  ghost predicate AllEventsGap(s: Speed, d: Standard, path: seq<int>, h: seq<Event>, cmd: nat, clk: int)
    requires 0 < |path| <= |d.timing| && HistoryOk(d, h)
  {
    forall i | 0 <= i < |h| :: EventGap(s, path, h[i], cmd, clk)
  }

  lemma AllEventsAre(s: Speed, d: Standard, ranks: nat, banks: nat, rows: nat, columns: nat, path: seq<int>,
                     h: seq<Event>, cmd: nat, clk: int)
    requires d == Device(s, ranks, banks, rows, columns) && d.WellFormed() && HistoryOk(d, h) && 0 < |path| <= 4
    requires cmd < COMMANDS
    ensures AllEventsClear(d, path, h, cmd, clk) <==> AllEventsGap(s, d, path, h, cmd, clk)
  {
    forall i | 0 <= i < |h| ensures EventClears(d, path, h[i], cmd, clk) <==> EventGap(s, path, h[i], cmd, clk) {
      RulesAre(s, d, ranks, banks, rows, columns, |path| - 1, h[i].cmd);
      EventIs(s, d, path, h[i], cmd, clk);
    }
  }

  /** The node at `path` lets `cmd` through exactly if every past command is far enough away, and the windows fit. */
  lemma NodeIs(s: Speed, d: Standard, ranks: nat, banks: nat, rows: nat, columns: nat, path: seq<int>,
               h: seq<Event>, cmd: nat, clk: int)
    requires d == Device(s, ranks, banks, rows, columns) && d.WellFormed() && HistoryOk(d, h) && 0 < |path| <= 4
    requires cmd < COMMANDS
    ensures NodeAllows(d, path, h, cmd, clk) <==>
            AllEventsGap(s, d, path, h, cmd, clk) && (|path| == 2 ==> RankWindows(s, d, path, h, cmd, clk))
  {
    NodeSplits(d, path, h, cmd, clk);
    FarRulesAre(s, d, ranks, banks, rows, columns, path, h, cmd, clk);
    AllEventsAre(s, d, ranks, banks, rows, columns, path, h, cmd, clk);
  }

  // ---------- what the device accepts ----------

  /** The check of `cmd` looks at the rank of the address. */
  predicate SeesRank(ranks: nat, cmd: nat, addr: seq<int>)
    requires 1 < |addr|
  {
    cmd != SRE && cmd != SRX && 0 <= addr[1] && 0 < ranks
  }

  /** The check looks at the bank; those of ACT, RDA and WRA never do. */
  predicate SeesBank(ranks: nat, banks: nat, cmd: nat, addr: seq<int>)
    requires 2 < |addr|
  {
    && SeesRank(ranks, cmd, addr) && 0 <= addr[2] && 0 < banks
    && (cmd == ACT_R || cmd == ACT_W || cmd == PRE || cmd == PREA || cmd == RD || cmd == WR)
  }

  /** `cmd` at `clk` is far enough from the past command `e`. */
  ghost predicate FarEnough(s: Speed, ranks: nat, banks: nat, e: Event, cmd: nat, addr: seq<int>, clk: int)
    requires 5 <= |addr| && 5 <= |e.addr|
  {
    var gap := clk - e.clk;
    e.addr[0] == addr[0] ==>
      && ChannelGap(s, e.cmd, cmd, gap)
      && (SeesRank(ranks, cmd, addr) ==>
            if e.addr[1] == addr[1] then RankGap(s, e.cmd, cmd, gap) else OtherRankGap(s, e.cmd, cmd, gap))
      && (SeesBank(ranks, banks, cmd, addr) && e.addr[1] == addr[1] && e.addr[2] == addr[2] ==>
            BankGap(s, e.cmd, cmd, gap))
  }

  /** Event `i` is a `from` to the rank of `addr`. */
  ghost predicate InRank(d: Standard, addr: seq<int>, from: nat, h: seq<Event>, i: nat)
    requires 5 <= |addr| && |d.timing| == 5 && HistoryOk(d, h)
  {
    i < |h| && h[i].cmd == from && h[i].addr[0] == addr[0] && h[i].addr[1] == addr[1]
  }

  /** Four activates of the same kind in the rank of `addr`, in order: the first of them is nFAW old. */
  ghost predicate WindowOk(s: Speed, d: Standard, addr: seq<int>, h: seq<Event>, cmd: nat, clk: int)
    requires 5 <= |addr| && |d.timing| == 5 && HistoryOk(d, h)
  {
    forall from: nat, i: nat, j: nat, k: nat, l: nat |
      && from < COMMANDS && ActivatesAlike(from, cmd) && i < j < k < l
      && InRank(d, addr, from, h, i) && InRank(d, addr, from, h, j)
      && InRank(d, addr, from, h, k) && InRank(d, addr, from, h, l) :: h[i].clk + s.nFAW <= clk
  }

  lemma SameNode(e: Event, addr: seq<int>)
    requires 5 <= |addr| && 5 <= |e.addr|
    ensures RoleOf(addr[..1], e.addr) == if e.addr[0] == addr[0] then Target else Sibling
    ensures RoleOf(addr[..2], e.addr) == if e.addr[0] != addr[0] then Unrelated
                                         else if e.addr[1] == addr[1] then Target else Sibling
    ensures RoleOf(addr[..3], e.addr) == if e.addr[0] != addr[0] || e.addr[1] != addr[1] then Unrelated
                                         else if e.addr[2] == addr[2] then Target else Sibling
  {
    assert addr[..2][..1] == [addr[0]] && e.addr[..1] == [e.addr[0]];
    assert addr[..3][..2] == [addr[0], addr[1]] && e.addr[..2] == [e.addr[0], e.addr[1]];
    assert addr[..1][..0] == e.addr[..0];
  }

  lemma LevelsSeen(s: Speed, d: Standard, ranks: nat, banks: nat, rows: nat, columns: nat, cmd: nat, addr: seq<int>)
    requires d == Device(s, ranks, banks, rows, columns) && d.WellFormed() && cmd < COMMANDS && AddrOk(d, addr)
    ensures LastLevel(d, cmd, addr, 0) ==
            if SeesBank(ranks, banks, cmd, addr) then BANK else if SeesRank(ranks, cmd, addr) then RANK else CHANNEL
  {
    assert d.Fanout(0) == ranks && d.Fanout(1) == banks && d.Fanout(2) == 0;
    assert LastLevel(d, cmd, addr, 2) == 2;
  }

  lemma WindowsAre(s: Speed, d: Standard, addr: seq<int>, h: seq<Event>, cmd: nat, clk: int)
    requires 5 <= |addr| && |d.timing| == 5 && HistoryOk(d, h)
    ensures RankWindows(s, d, addr[..2], h, cmd, clk) <==> WindowOk(s, d, addr, h, cmd, clk)
  {
    forall from: nat, i: nat | i < |h| ensures Hit(d, addr[..2], from, h, i, Target) <==> InRank(d, addr, from, h, i) {
      SameNode(h[i], addr);
    }
    if WindowOk(s, d, addr, h, cmd, clk) {
      forall from: nat | from < COMMANDS && ActivatesAlike(from, cmd)
        ensures WindowFits(d, addr[..2], from, h, s.nFAW, clk)
      {
      }
    }
    if RankWindows(s, d, addr[..2], h, cmd, clk) {
      forall from: nat, i: nat, j: nat, k: nat, l: nat |
        && from < COMMANDS && ActivatesAlike(from, cmd) && i < j < k < l
        && InRank(d, addr, from, h, i) && InRank(d, addr, from, h, j)
        && InRank(d, addr, from, h, k) && InRank(d, addr, from, h, l)
        ensures h[i].clk + s.nFAW <= clk
      {
        assert WindowFits(d, addr[..2], from, h, s.nFAW, clk);
        assert FourHits(d, addr[..2], from, h, i, j, k, l);
      }
    }
  }

  /** One past command, at all levels that the check looks at. */
  lemma LevelsOfEvent(s: Speed, ranks: nat, banks: nat, e: Event, cmd: nat, addr: seq<int>, clk: int, last: nat)
    requires 5 <= |addr| && 5 <= |e.addr|
    requires last == if SeesBank(ranks, banks, cmd, addr) then BANK else if SeesRank(ranks, cmd, addr) then RANK else 0
    ensures FarEnough(s, ranks, banks, e, cmd, addr, clk) <==>
            && EventGap(s, addr[..1], e, cmd, clk)
            && (RANK <= last ==> EventGap(s, addr[..2], e, cmd, clk))
            && (BANK <= last ==> EventGap(s, addr[..3], e, cmd, clk))
  {
    SameNode(e, addr);
  }

  /** All levels of all past commands. */
  lemma LevelsOfAll(s: Speed, d: Standard, ranks: nat, banks: nat, h: seq<Event>, cmd: nat, addr: seq<int>, clk: int,
                    last: nat)
    requires 5 <= |addr| && |d.timing| == 5 && HistoryOk(d, h)
    requires last == if SeesBank(ranks, banks, cmd, addr) then BANK else if SeesRank(ranks, cmd, addr) then RANK else 0
    ensures AllFarEnough(s, d, ranks, banks, h, cmd, addr, clk) <==>
            && AllEventsGap(s, d, addr[..1], h, cmd, clk)
            && (RANK <= last ==> AllEventsGap(s, d, addr[..2], h, cmd, clk))
            && (BANK <= last ==> AllEventsGap(s, d, addr[..3], h, cmd, clk))
  {
    forall i | 0 <= i < |h|
      ensures FarEnough(s, ranks, banks, h[i], cmd, addr, clk) <==>
              && EventGap(s, addr[..1], h[i], cmd, clk)
              && (RANK <= last ==> EventGap(s, addr[..2], h[i], cmd, clk))
              && (BANK <= last ==> EventGap(s, addr[..3], h[i], cmd, clk))
    {
      LevelsOfEvent(s, ranks, banks, h[i], cmd, addr, clk, last);
    }
  }

  ghost predicate AllFarEnough(s: Speed, d: Standard, ranks: nat, banks: nat, h: seq<Event>, cmd: nat,
                               addr: seq<int>, clk: int)
    requires 5 <= |addr| && |d.timing| == 5 && HistoryOk(d, h)
  {
    forall i | 0 <= i < |h| :: FarEnough(s, ranks, banks, h[i], cmd, addr, clk)
  }

  lemma AllowedByLevel(d: Standard, h: seq<Event>, cmd: nat, addr: seq<int>, clk: int, last: nat)
    requires d.WellFormed() && |d.timing| == 5 && HistoryOk(d, h) && cmd < d.commands && AddrOk(d, addr)
    requires last == LastLevel(d, cmd, addr, 0) && last <= BANK
    ensures Allowed(d, h, cmd, addr, clk) <==>
            && NodeAllows(d, addr[..1], h, cmd, clk)
            && (RANK <= last ==> NodeAllows(d, addr[..2], h, cmd, clk))
            && (BANK <= last ==> NodeAllows(d, addr[..3], h, cmd, clk))
  {
    assert LevelAllows(d, h, cmd, addr, clk, 0) <==> NodeAllows(d, addr[..1], h, cmd, clk);
    if RANK <= last {
      assert LevelAllows(d, h, cmd, addr, clk, 1) <==> NodeAllows(d, addr[..2], h, cmd, clk);
    }
    if BANK <= last {
      assert LevelAllows(d, h, cmd, addr, clk, 2) <==> NodeAllows(d, addr[..3], h, cmd, clk);
    }
  }

  lemma AcceptsAll(s: Speed, d: Standard, ranks: nat, banks: nat, rows: nat, columns: nat, h: seq<Event>, cmd: nat,
                   addr: seq<int>, clk: int)
    requires d == Device(s, ranks, banks, rows, columns) && d.WellFormed() && HistoryOk(d, h)
    requires cmd < COMMANDS && AddrOk(d, addr)
    ensures Allowed(d, h, cmd, addr, clk) <==>
            && AllFarEnough(s, d, ranks, banks, h, cmd, addr, clk)
            && (SeesRank(ranks, cmd, addr) ==> WindowOk(s, d, addr, h, cmd, clk))
  {
    var last := LastLevel(d, cmd, addr, 0);
    LevelsSeen(s, d, ranks, banks, rows, columns, cmd, addr);
    AllowedByLevel(d, h, cmd, addr, clk, last);
    NodeIs(s, d, ranks, banks, rows, columns, addr[..1], h, cmd, clk);
    NodeIs(s, d, ranks, banks, rows, columns, addr[..2], h, cmd, clk);
    NodeIs(s, d, ranks, banks, rows, columns, addr[..3], h, cmd, clk);
    LevelsOfAll(s, d, ranks, banks, h, cmd, addr, clk, last);
    WindowsAre(s, d, addr, h, cmd, clk);
  }

  /** The device accepts a command exactly if every past command is as far away as the numbers say, at every level
      that the check looks at, and the activate windows fit. */
  lemma AcceptsIff(s: Speed, d: Standard, ranks: nat, banks: nat, rows: nat, columns: nat, h: seq<Event>, cmd: nat,
                   addr: seq<int>, clk: int)
    requires d == Device(s, ranks, banks, rows, columns) && d.WellFormed() && HistoryOk(d, h)
    requires cmd < COMMANDS && AddrOk(d, addr)
    ensures Allowed(d, h, cmd, addr, clk) <==>
            && (forall i | 0 <= i < |h| :: FarEnough(s, ranks, banks, h[i], cmd, addr, clk))
            && (SeesRank(ranks, cmd, addr) ==> WindowOk(s, d, addr, h, cmd, clk))
  {
    AcceptsAll(s, d, ranks, banks, rows, columns, h, cmd, addr, clk);
  }

  /** So any two commands of a legal trace are as far apart as the numbers say. */
  lemma LegalIsSpaced(s: Speed, d: Standard, ranks: nat, banks: nat, rows: nat, columns: nat, h: seq<Event>,
                      i: nat, j: nat)
    requires d == Device(s, ranks, banks, rows, columns) && d.WellFormed() && Legal(d, h) && i < j < |h|
    ensures FarEnough(s, ranks, banks, h[i], h[j].cmd, h[j].addr, h[j].clk)
    ensures var first, second, gap := h[i].cmd, h[j].cmd, h[j].clk - h[i].clk;
            0 < ranks && 0 <= h[j].addr[1] == h[i].addr[1] && h[i].addr[0] == 0 ==>
              && (first == ACT && second == ACT ==> s.nRRD <= gap)
              && (first == RD && second == RD ==> s.nCCD <= gap && s.nBL <= gap)
              && (first == WR && second == WR ==> s.nCCD <= gap && s.nBL <= gap)
              && (first == RD && second == WR ==> s.nCL + s.nCCD + 2 - s.nCWL <= gap)
              && (first == WR && second == RD ==> s.nCWL + s.nBL + s.nWTR <= gap)
    ensures var first, second, gap := h[i].cmd, h[j].cmd, h[j].clk - h[i].clk;
            0 < ranks && 0 <= h[j].addr[1] != h[i].addr[1] && h[i].addr[0] == 0 ==>
              && (first == RD && second == RD ==> s.nBL + s.nRTRS <= gap)
              && (first == RD && second == WR ==>
                    s.nBL + s.nRTRS <= gap && s.nCL + s.nBL + s.nRTRS - s.nCWL <= gap)
              && (first == WR && second == RD ==> s.nCWL + s.nBL + s.nRTRS - s.nCL <= gap)
  {
    assert AllowedAt(d, h, j);
    AcceptsIff(s, d, ranks, banks, rows, columns, h[..j], h[j].cmd, h[j].addr, h[j].clk);
    assert h[..j][i] == h[i];
  }
}
