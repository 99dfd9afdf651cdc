/** The concrete DDR3 rule table, and what it does and does not enforce. */
module Ddr3 {
  import opened DramTiming
  import opened DramTree
  import opened LegalTrace

  const ACT_R := 0
  const ACT_W := 1
  const ACT := 2
  const PRE := 3
  const PREA := 4
  const RD := 5
  const WR := 6
  const RDA := 7
  const WRA := 8
  const REF := 9
  const PDE := 10
  const PDX := 11
  const SRE := 12
  const SRX := 13
  const COMMANDS := 14

  const CHANNEL := 0
  const RANK := 1
  const BANK := 2
  const ROW := 3
  const COLUMN := 4

  datatype Speed = Speed(
    nBL: nat, nCCD: nat, nRTRS: nat, nCL: nat, nRCD: nat, nRP: nat, nCWL: nat, nRAS: nat, nRC: nat,
    nRTP: nat, nWTR: nat, nWR: nat, nRRD: nat, nFAW: nat, nRFC: nat, nPD: nat, nXP: nat, nCKESR: nat, nXS: nat)

  function One(cmd: nat, val: int): TimingEntry {
    TimingEntry(cmd, 1, val, false)
  }

  function Sib(cmd: nat, val: int): TimingEntry {
    TimingEntry(cmd, 1, val, true)
  }

  function ChannelRules(s: Speed, from: nat): seq<TimingEntry> {
    if from == RD || from == RDA then [One(RD, s.nBL), One(RDA, s.nBL)]
    else if from == WR || from == WRA then [One(WR, s.nBL), One(WRA, s.nBL)]
    else []
  }

  function ReadRank(s: Speed): seq<TimingEntry> {
    [One(RD, s.nCCD), One(RDA, s.nCCD),
     One(WR, s.nCL + s.nCCD + 2 - s.nCWL), One(WRA, s.nCL + s.nCCD + 2 - s.nCWL),
     Sib(RD, s.nBL + s.nRTRS), Sib(RDA, s.nBL + s.nRTRS), Sib(WR, s.nBL + s.nRTRS), Sib(WRA, s.nBL + s.nRTRS),
     Sib(WR, s.nCL + s.nBL + s.nRTRS - s.nCWL), Sib(WRA, s.nCL + s.nBL + s.nRTRS - s.nCWL)]
  }

  function WriteRank(s: Speed): seq<TimingEntry> {
    [One(WR, s.nCCD), One(WRA, s.nCCD),
     One(RD, s.nCWL + s.nBL + s.nWTR), One(RDA, s.nCWL + s.nBL + s.nWTR),
     Sib(RD, s.nCWL + s.nBL + s.nRTRS - s.nCL), Sib(RDA, s.nCWL + s.nBL + s.nRTRS - s.nCL)]
  }

  function RankRules(s: Speed, from: nat): seq<TimingEntry> {
    if from == RD then ReadRank(s) + [One(PREA, s.nRTP), One(PDE, s.nCL + s.nBL + 1)]
    else if from == RDA then ReadRank(s) + [One(PDE, s.nCL + s.nBL + 1)]
    else if from == WR then
      WriteRank(s) + [One(PREA, s.nCWL + s.nBL + s.nWR), One(PDE, s.nCWL + s.nBL + s.nWR)]
    else if from == WRA then WriteRank(s) + [One(PDE, s.nCWL + s.nBL + s.nWR + 1)]
    else if from == ACT then
      [One(ACT, s.nRRD), TimingEntry(ACT, 4, s.nFAW, false), One(PREA, s.nRAS), One(PDE, 1)]
    else if from == ACT_R then
      [One(ACT_R, s.nRRD), One(ACT_W, s.nRRD), TimingEntry(ACT_W, 4, s.nFAW, false),
       TimingEntry(ACT_R, 4, s.nFAW, false), One(PREA, s.nRAS), One(PDE, 1)]
    else if from == ACT_W then
      [One(ACT_W, s.nRRD), One(ACT_R, s.nRRD), TimingEntry(ACT_W, 4, s.nFAW, false),
       TimingEntry(ACT_R, 4, s.nFAW, false), One(PREA, s.nRAS), One(PDE, 1)]
    else if from == PRE then [One(REF, s.nRP), One(SRE, s.nRP)]
    else if from == PREA then
      [One(ACT, s.nRP), One(ACT_R, s.nRP), One(ACT_W, s.nRP), One(REF, s.nRP), One(SRE, s.nRP)]
    else if from == REF then
      [One(ACT, s.nRFC), One(ACT_R, s.nRFC), One(ACT_W, s.nRFC), One(REF, s.nRFC), One(PDE, 1)]
    else if from == PDE then [One(PDX, s.nPD)]
    else if from == PDX then
      [One(RD, s.nXP), One(RDA, s.nXP), One(WR, s.nXP), One(WRA, s.nXP), One(ACT_R, s.nXP), One(ACT_W, s.nXP),
       One(ACT, s.nXP), One(PRE, s.nXP), One(PREA, s.nXP), One(REF, s.nXP), One(PDE, s.nXP), One(SRE, s.nXP)]
    else if from == SRE then [One(SRX, s.nCKESR)]
    else if from == SRX then
      [One(ACT, s.nXS), One(ACT_R, s.nXS), One(ACT_W, s.nXS), One(REF, s.nXS), One(PDE, s.nXS), One(SRE, s.nXS)]
    else []
  }

  function Opened(s: Speed): seq<TimingEntry> {
    [One(RD, s.nRCD), One(RDA, s.nRCD), One(WR, s.nRCD), One(WRA, s.nRCD)]
  }

  function BankRules(s: Speed, from: nat): seq<TimingEntry> {
    if from == ACT then Opened(s) + [One(ACT, s.nRC), One(PRE, s.nRAS)]
    else if from == ACT_R || from == ACT_W then
      Opened(s) + [One(ACT_R, s.nRC), One(ACT_W, s.nRC), One(PRE, s.nRAS)]
    else if from == RD then [One(PRE, s.nRTP), One(PRE, s.nRTP)]
    else if from == WR then [One(PRE, s.nCWL + s.nBL + s.nWR), One(PRE, s.nCWL + s.nBL + s.nWR)]
    else if from == RDA then [One(ACT_R, s.nRTP + s.nRP), One(ACT_W, s.nRTP + s.nRP), One(ACT, s.nRTP + s.nRP)]
    else if from == WRA then
      [One(ACT_R, s.nCWL + s.nBL + s.nWR + s.nRP), One(ACT_W, s.nCWL + s.nBL + s.nWR + s.nRP),
       One(ACT, s.nCWL + s.nBL + s.nWR + s.nRP)]
    else if from == PRE then [One(ACT, s.nRP), One(ACT_R, s.nRP), One(ACT_W, s.nRP)]
    else []
  }

  function TableRow(s: Speed, level: nat, from: nat): seq<TimingEntry> {
    if level == CHANNEL then ChannelRules(s, from)
    else if level == RANK then RankRules(s, from)
    else if level == BANK then BankRules(s, from)
    else []
  }

  /** The initializer of `scope` has twelve rows for fourteen commands: it was written for an enum
      that starts with ACT, so from ACT_R on every command has the row of another one, and the last
      two commands have the enum's zero value. */
  const SCOPE: seq<nat> :=
    [ROW, BANK, RANK, COLUMN, COLUMN, COLUMN, COLUMN, RANK, RANK, RANK, RANK, RANK, CHANNEL, CHANNEL]

  function Table(s: Speed): seq<seq<seq<TimingEntry>>> {
    seq(5, l requires 0 <= l < 5 => seq(COMMANDS, c requires 0 <= c < COMMANDS => TableRow(s, l, c)))
  }

  function Device(s: Speed, ranks: nat, banks: nat, rows: nat, columns: nat): Standard {
    Standard(COMMANDS, Table(s), SCOPE, [0, ranks, banks, rows, columns], ROW)
  }

  lemma RowOk(s: Speed, d: Standard, level: nat, from: nat, k: nat)
    requires d.commands == COMMANDS && level < 5 && from < COMMANDS && k < |TableRow(s, level, from)|
    ensures d.EntryOk(TableRow(s, level, from)[k])
  {
  }

  lemma DeviceOk(s: Speed, ranks: nat, banks: nat, rows: nat, columns: nat)
    ensures Device(s, ranks, banks, rows, columns).WellFormed()
    ensures var d := Device(s, ranks, banks, rows, columns);
            forall l: nat, c: nat | l < 5 && c < COMMANDS :: d.Rules(l, c) == TableRow(s, l, c)
  {
    var d := Device(s, ranks, banks, rows, columns);
    forall l, c, k | 0 <= l < |d.timing| && 0 <= c < d.commands && 0 <= k < |d.timing[l][c]|
      ensures d.EntryOk(d.timing[l][c][k])
    {
      RowOk(s, d, l, c, k);
    }
  }

  /** Five activates of one rank never fit into less than nFAW cycles. */
  lemma FourActivateWindow(s: Speed, d: Standard, ranks: nat, banks: nat, rows: nat, columns: nat,
                           h: seq<Event>, at: seq<nat>, rank: nat)
    requires d == Device(s, ranks, banks, rows, columns) && d.WellFormed() && Legal(d, h) && 0 < ranks
    requires |at| == 5 && forall a, b | 0 <= a < b < 5 :: at[a] < at[b]
    requires forall a | 0 <= a < 5 :: at[a] < |h| && Hit(d, [0, rank], ACT, h, at[a], Target)
    ensures h[at[0]].clk + s.nFAW <= h[at[4]].clk
  {
    DeviceOk(s, ranks, banks, rows, columns);
    var j := at[4];
    var addr := h[j].addr;
    assert [0, rank][..1] == [0];
    assert addr[..1] == [addr[0]];
    assert addr[..2] == [0, rank];
    assert AllowedAt(d, h, j);
    LastLevelIs(s, d, ranks, banks, rows, columns, ACT, addr);
    WindowRule(d, h, RANK, ACT, 1, at[..4], j);
  }

  /** How deep the device check of a command looks. */
  function Reach(cmd: nat): nat {
    if cmd == SRE || cmd == SRX then CHANNEL
    else if cmd == ACT || cmd == RDA || cmd == WRA || cmd == REF || cmd == PDE || cmd == PDX then RANK
    else BANK
  }

  lemma LastLevelIs(s: Speed, d: Standard, ranks: nat, banks: nat, rows: nat, columns: nat, cmd: nat, addr: seq<int>)
    requires d == Device(s, ranks, banks, rows, columns) && d.WellFormed()
    requires cmd < COMMANDS && AddrOk(d, addr) && 0 <= addr[1] && 0 < ranks
    ensures Reach(cmd) <= RANK || (0 <= addr[2] && 0 < banks) ==> LastLevel(d, cmd, addr, 0) == Reach(cmd)
  {
    assert d.Fanout(0) == ranks && d.Fanout(1) == banks && d.Fanout(2) == 0;
    assert LastLevel(d, cmd, addr, 2) == 2;
    if d.scope[cmd] != CHANNEL {
      assert LastLevel(d, cmd, addr, 0) == LastLevel(d, cmd, addr, 1);
    }
  }

  /** The bank's own rules let `cmd` through. */
  ghost predicate BankAllows(d: Standard, h: seq<Event>, cmd: nat, addr: seq<int>, clk: int)
    requires d.WellFormed() && |d.timing| == 5 && HistoryOk(d, h) && 5 <= |addr|
  {
    NodeAllows(d, addr[..3], h, cmd, clk)
  }

  /** After a single `first`, a level without rules from `first` to `cmd` does not hold `cmd` back. */
  lemma OtherRulesClear(d: Standard, addr: seq<int>, first: nat, cmd: nat, level: nat)
    requires d.WellFormed() && first < d.commands && level < |d.timing| <= |addr|
    requires forall i | 0 <= i < |d.Rules(level, first)| :: d.Rules(level, first)[i].cmd != cmd
    ensures HistoryOk(d, [Event(first, addr, 0)])
    ensures NodeAllows(d, addr[..level + 1], [Event(first, addr, 0)], cmd, 1)
  {
    var h := [Event(first, addr, 0)];
    var path := addr[..level + 1];
    forall from: nat, i: nat | from < d.commands && i < |d.Rules(|path| - 1, from)|
      ensures Clears(d, path, h, cmd, 1, from, i)
    {
      var role := if d.Rules(|path| - 1, from)[i].sibling then Sibling else Target;
      assert h[..|h| - 1] == [];
      assert Issued(d, path, role, from, []) == [];
      assert from != first ==> Issued(d, path, role, from, h) == [];
    }
  }

  /** One command right after another to the same bank, where the bank wants `val` cycles between. */
  lemma Slips(s: Speed, d: Standard, ranks: nat, banks: nat, rows: nat, columns: nat, first: nat, k: nat, cmd: nat)
    requires d == Device(s, ranks, banks, rows, columns) && d.WellFormed() && 0 < ranks && 0 < banks
    requires first < COMMANDS && cmd < COMMANDS && Reach(cmd) == RANK
    requires k < |BankRules(s, first)| && BankRules(s, first)[k].cmd == cmd
    requires !BankRules(s, first)[k].sibling && BankRules(s, first)[k].dist == 1 && 1 < BankRules(s, first)[k].val
    requires forall i | 0 <= i < |RankRules(s, first)| :: RankRules(s, first)[i].cmd != cmd
    requires forall i | 0 <= i < |ChannelRules(s, first)| :: ChannelRules(s, first)[i].cmd != cmd
    ensures var addr := [0, 0, 0, 0, 0];
            var h := [Event(first, addr, 0)];
            HistoryOk(d, h) && AddrOk(d, addr)
            && Allowed(d, h, cmd, addr, 1) && !BankAllows(d, h, cmd, addr, 1)
  {
    DeviceOk(s, ranks, banks, rows, columns);
    var addr := [0, 0, 0, 0, 0];
    var h := [Event(first, addr, 0)];
    assert h[..0] == [];
    LastLevelIs(s, d, ranks, banks, rows, columns, cmd, addr);
    forall l: nat | l <= 1 ensures LevelAllows(d, h, cmd, addr, 1, l) {
      OtherRulesClear(d, addr, first, cmd, l);
    }
    var t := d.Rules(BANK, first)[k];
    assert Issued(d, addr[..3], Target, first, h) == [0];
    assert !Clears(d, addr[..3], h, cmd, 1, first, k);
  }

  /** The device check enforces the rules of the bank exactly for the commands whose scope row reaches
      the bank; ACT, RDA and WRA slip through, because they sit in a row that ends at the rank. */
  lemma BankRulesEnforcedIff(s: Speed, d: Standard, ranks: nat, banks: nat, rows: nat, columns: nat, cmd: nat)
    requires d == Device(s, ranks, banks, rows, columns) && d.WellFormed() && 0 < ranks && 0 < banks
    requires cmd < COMMANDS && 1 < s.nRP && 1 < s.nRCD
    ensures (forall h, addr, clk ::
               HistoryOk(d, h) && AddrOk(d, addr) && 0 <= addr[1] && 0 <= addr[2] && Allowed(d, h, cmd, addr, clk) ==>
                 BankAllows(d, h, cmd, addr, clk))
            <==> cmd != ACT && cmd != RDA && cmd != WRA
  {
    DeviceOk(s, ranks, banks, rows, columns);
    if cmd == ACT {
      Slips(s, d, ranks, banks, rows, columns, PRE, 0, ACT);
    } else if cmd == RDA {
      Slips(s, d, ranks, banks, rows, columns, ACT, 1, RDA);
    } else if cmd == WRA {
      Slips(s, d, ranks, banks, rows, columns, ACT, 3, WRA);
    } else {
      forall h, addr, clk
        | HistoryOk(d, h) && AddrOk(d, addr) && 0 <= addr[1] && 0 <= addr[2] && Allowed(d, h, cmd, addr, clk)
        ensures BankAllows(d, h, cmd, addr, clk)
      {
        LastLevelIs(s, d, ranks, banks, rows, columns, cmd, addr);
        if Reach(cmd) == BANK {
          assert LevelAllows(d, h, cmd, addr, clk, 2);
        } else {
          forall from: nat, i: nat | from < d.commands && i < |d.Rules(BANK, from)|
            ensures Clears(d, addr[..3], h, cmd, clk, from, i)
          {
            assert d.Rules(BANK, from)[i].cmd != cmd;
          }
        }
      }
    }
  }
}
