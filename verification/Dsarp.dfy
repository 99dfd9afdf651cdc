/** The bank and subarray machine of the DSARP standard, as driven through the DRAM tree.

    A node's row map only ever holds open rows, so it is the set of its keys: subarray numbers in a bank, row
    numbers in a subarray.  Nodes are nested values here; the tree of objects is the subject of `DramTree`.
  */
module Dsarp {

  datatype State = Opened | Closed | PowerUp | ActPowerDown | PrePowerDown | SelfRefresh
  datatype Command = ACT | PRE | PREA | RD | WR | RDA | WRA | REF | REFPB | PDE | PDX | SRE | SRX

  datatype SubArray = SubArray(state: State, rows: set<int>)
  datatype Bank = Bank(state: State, rows: set<int>, subs: seq<SubArray>)
  datatype Rank = Rank(state: State, banks: seq<Bank>)

  /** A path below the channel; a request that stops above a level has a negative number there. */
  datatype Addr = Addr(rank: int, bank: int, sub: int, row: int)

  datatype Level = RankLevel | BankLevel | SubLevel

  /** The level at which a command stops; rows and columns are not nodes. */
  function Scope(cmd: Command): Level {
    match cmd
    case PREA | REF | PDE | PDX | SRE | SRX => RankLevel
    case PRE | REFPB => BankLevel
    case ACT | RD | WR | RDA | WRA => SubLevel
  }

  /** The outcome of a prerequisite: nothing at this level, a command to issue first, or a state that the
      standard does not expect. */
  datatype Need = Nothing | Issue(cmd: Command) | Fault

  // ---------- prerequisites ----------

  predicate IsColumn(cmd: Command) {
    cmd == RD || cmd == WR
  }

  predicate AnyOpen(banks: seq<Bank>) {
    exists i :: 0 <= i < |banks| && banks[i].state != Closed
  }

  function RankPrereq(r: Rank, cmd: Command): Need {
    match cmd
    case RD | WR =>
      (match r.state
       case PowerUp => Nothing
       case ActPowerDown | PrePowerDown => Issue(PDX)
       case SelfRefresh => Issue(SRX)
       case _ => Fault)
    case REF => if AnyOpen(r.banks) then Issue(PREA) else Issue(REF)
    case PDE =>
      (match r.state
       case PowerUp | ActPowerDown | PrePowerDown => Issue(PDE)
       case SelfRefresh => Issue(SRX)
       case _ => Fault)
    case SRE =>
      (match r.state
       case PowerUp | SelfRefresh => Issue(SRE)
       case ActPowerDown | PrePowerDown => Issue(PDX)
       case _ => Fault)
    case _ => Nothing
  }

  function BankPrereq(b: Bank, cmd: Command, id: int): Need {
    match cmd
    case RD | WR =>
      (match b.state
       case Closed => Issue(ACT)
       case Opened => if id in b.rows then Nothing else Issue(PRE)
       case _ => Fault)
    case REFPB => if b.state == Closed then Issue(REFPB) else Issue(PRE)
    case _ => Nothing
  }

  function SubPrereq(s: SubArray, cmd: Command, id: int): Need {
    match cmd
    case RD | WR =>
      (match s.state
       case Closed => Issue(ACT)
       case Opened => if id in s.rows then Issue(cmd) else Issue(PRE)
       case _ => Fault)
    case _ => Nothing
  }

  function DecodeSub(s: SubArray, cmd: Command, a: Addr): Need {
    if SubPrereq(s, cmd, a.row) != Nothing then SubPrereq(s, cmd, a.row) else Issue(cmd)
  }

  function DecodeBank(b: Bank, cmd: Command, a: Addr): Need
    requires a.sub < |b.subs|
  {
    if BankPrereq(b, cmd, a.sub) != Nothing then BankPrereq(b, cmd, a.sub)
    else if a.sub < 0 then Issue(cmd)
    else DecodeSub(b.subs[a.sub], cmd, a)
  }

  predicate Fits(ranks: seq<Rank>, a: Addr) {
    && a.rank < |ranks|
    && (0 <= a.rank ==> a.bank < |ranks[a.rank].banks|
                        && (0 <= a.bank ==> a.sub < |ranks[a.rank].banks[a.bank].subs|))
  }

  function DecodeRank(r: Rank, cmd: Command, a: Addr): Need
    requires a.bank < |r.banks| && (0 <= a.bank ==> a.sub < |r.banks[a.bank].subs|)
  {
    if RankPrereq(r, cmd) != Nothing then RankPrereq(r, cmd)
    else if a.bank < 0 then Issue(cmd)
    else DecodeBank(r.banks[a.bank], cmd, a)
  }

  /** The command to issue next for `cmd` at `a`. */
  function Decode(ranks: seq<Rank>, cmd: Command, a: Addr): Need
    requires Fits(ranks, a)
  {
    if a.rank < 0 then Issue(cmd) else DecodeRank(ranks[a.rank], cmd, a)
  }

  // ---------- what a command does ----------

  const SHUT := SubArray(Closed, {})

  function CloseBank(b: Bank): (r: Bank)
    ensures |r.subs| == |b.subs|
  {
    Bank(Closed, {}, seq(|b.subs|, i => SHUT))
  }

  function CloseAll(r: Rank): (n: Rank)
    ensures |n.banks| == |r.banks|
  {
    r.(banks := seq(|r.banks|, i requires 0 <= i < |r.banks| => CloseBank(r.banks[i])))
  }

  predicate AnySubOpen(banks: seq<Bank>) {
    exists i, j :: 0 <= i < |banks| && 0 <= j < |banks[i].subs| && banks[i].subs[j].state != Closed
  }

  function RankEffect(r: Rank, cmd: Command): Rank {
    match cmd
    case PREA => CloseAll(r)
    case PDE => r.(state := if AnySubOpen(r.banks) then ActPowerDown else PrePowerDown)
    case PDX | SRX => r.(state := PowerUp)
    case SRE => r.(state := SelfRefresh)
    case _ => r
  }

  function BankEffect(b: Bank, cmd: Command, id: int): Bank {
    match cmd
    case ACT => b.(state := Opened, rows := b.rows + {id})
    case PRE => CloseBank(b)
    case RDA | WRA => b.(state := Closed, rows := {})
    case _ => b
  }

  function SubEffect(s: SubArray, cmd: Command, id: int): SubArray {
    match cmd
    case ACT => s.(state := Opened, rows := s.rows + {id})
    case RDA | WRA => SHUT
    case _ => s
  }

  /** The address names a node down to the level where the command stops. */
  predicate Reaches(ranks: seq<Rank>, cmd: Command, a: Addr) {
    && 0 <= a.rank < |ranks|
    && (Scope(cmd) != RankLevel ==> 0 <= a.bank < |ranks[a.rank].banks|)
    && (Scope(cmd) == SubLevel ==> 0 <= a.sub < |ranks[a.rank].banks[a.bank].subs|)
  }

  /** The bank after a command that reaches it. */
  function StepBank(b: Bank, cmd: Command, a: Addr): Bank
    requires Scope(cmd) == SubLevel ==> 0 <= a.sub < |b.subs|
  {
    var n := BankEffect(b, cmd, a.sub);
    if Scope(cmd) != SubLevel then n
    else n.(subs := n.subs[a.sub := SubEffect(n.subs[a.sub], cmd, a.row)])
  }

  function StepRank(r: Rank, cmd: Command, a: Addr): Rank
    requires Scope(cmd) != RankLevel ==> 0 <= a.bank < |r.banks|
    requires Scope(cmd) == SubLevel ==> 0 <= a.sub < |r.banks[a.bank].subs|
  {
    var n := RankEffect(r, cmd);
    if Scope(cmd) == RankLevel then n
    else n.(banks := n.banks[a.bank := StepBank(n.banks[a.bank], cmd, a)])
  }

  function Step(ranks: seq<Rank>, cmd: Command, a: Addr): seq<Rank>
    requires Reaches(ranks, cmd, a)
  {
    ranks[a.rank := StepRank(ranks[a.rank], cmd, a)]
  }

  // ---------- the device, updated in place ----------

  class Channel {
    var ranks: seq<Rank>

    constructor (nRank: nat, nBank: nat, nSub: nat)
      ensures ranks == Idle(nRank, nBank, nSub)
    {
      ranks := Idle(nRank, nBank, nSub);
    }

    method UpdateState(cmd: Command, a: Addr)
      requires Reaches(ranks, cmd, a)
      modifies this
      ensures ranks == Step(old(ranks), cmd, a)
    {
      var rank := RankLambda(ranks[a.rank], cmd);
      if Scope(cmd) != RankLevel {
        var bank := BankLambda(rank.banks[a.bank], cmd, a.sub);
        if Scope(cmd) == SubLevel {
          bank := bank.(subs := bank.subs[a.sub := SubEffect(bank.subs[a.sub], cmd, a.row)]);
        }
        rank := rank.(banks := rank.banks[a.bank := bank]);
      }
      ranks := ranks[a.rank := rank];
    }

    method BankLambda(b: Bank, cmd: Command, id: int) returns (n: Bank)
      ensures n == BankEffect(b, cmd, id)
    {
      match cmd {
        case PRE => n := ShutBank(b);
        case _ => n := BankEffect(b, cmd, id);
      }
    }

    method ShutBank(b: Bank) returns (n: Bank)
      ensures n == CloseBank(b)
    {
      n := b.(state := Closed, rows := {});
      for i := 0 to |b.subs|
        invariant n.state == Closed && n.rows == {} && |n.subs| == |b.subs|
        invariant forall j | 0 <= j < i :: n.subs[j] == SHUT
      {
        n := n.(subs := n.subs[i := n.subs[i].(state := Closed, rows := {})]);
      }
      assert n.subs == CloseBank(b).subs;
    }

    method RankLambda(r: Rank, cmd: Command) returns (n: Rank)
      ensures n == RankEffect(r, cmd)
    {
      n := r;
      match cmd {
        case PREA =>
          for i := 0 to |r.banks|
            invariant n.state == r.state && |n.banks| == |r.banks|
            invariant forall j | 0 <= j < |n.banks| :: n.banks[j] == if j < i then CloseBank(r.banks[j]) else r.banks[j]
          {
            var b := ShutBank(n.banks[i]);
            n := n.(banks := n.banks[i := b]);
          }
          assert n.banks == CloseAll(r).banks;
        case PDE =>
          for i := 0 to |r.banks|
            invariant forall k, j | 0 <= k < i && 0 <= j < |r.banks[k].subs| :: r.banks[k].subs[j].state == Closed
          {
            for j := 0 to |r.banks[i].subs|
              invariant forall l | 0 <= l < j :: r.banks[i].subs[l].state == Closed
            {
              if r.banks[i].subs[j].state != Closed {
                return r.(state := ActPowerDown);
              }
            }
          }
          n := r.(state := PrePowerDown);
        case _ => n := RankEffect(r, cmd);
      }
    }
  }

  function Idle(nRank: nat, nBank: nat, nSub: nat): seq<Rank> {
    seq(nRank, i => Rank(PowerUp, seq(nBank, j => Bank(Closed, {}, seq(nSub, k => SHUT)))))
  }

  // ---------- one open row per bank ----------

  ghost predicate AllShut(subs: seq<SubArray>) {
    forall i | 0 <= i < |subs| :: subs[i] == SHUT
  }

  /** Subarray `s` alone is open, with one row. */
  ghost predicate OneOpen(subs: seq<SubArray>, s: int, row: int) {
    && 0 <= s < |subs| && subs[s] == SubArray(Opened, {row})
    && forall i | 0 <= i < |subs| && i != s :: subs[i] == SHUT
  }

  ghost predicate BankInv(b: Bank) {
    || (b.state == Closed && b.rows == {} && AllShut(b.subs))
    || (b.state == Opened && exists s, row :: b.rows == {s} && OneOpen(b.subs, s, row))
  }

  predicate IsPower(s: State) {
    s == PowerUp || s == ActPowerDown || s == PrePowerDown || s == SelfRefresh
  }

  ghost predicate RankInv(r: Rank) {
    IsPower(r.state) && forall i | 0 <= i < |r.banks| :: BankInv(r.banks[i])
  }

  ghost predicate Inv(ranks: seq<Rank>) {
    forall i | 0 <= i < |ranks| :: RankInv(ranks[i])
  }

  /** A bank is open exactly if exactly one of its subarrays is, and then exactly one row of it is open. */
  lemma OpenIffOneSubArray(b: Bank)
    requires BankInv(b)
    ensures b.state == Opened <==> exists s :: OnlySubOpen(b.subs, s)
    ensures b.state == Closed <==> forall i | 0 <= i < |b.subs| :: b.subs[i].state == Closed
    ensures forall i, x, y | 0 <= i < |b.subs| && x in b.subs[i].rows && y in b.subs[i].rows :: x == y
  {
    if b.state == Opened {
      var s, row :| b.rows == {s} && OneOpen(b.subs, s, row);
      assert OnlySubOpen(b.subs, s);
    }
  }

  ghost predicate OnlySubOpen(subs: seq<SubArray>, s: int) {
    0 <= s < |subs| && subs[s].state == Opened && forall i | 0 <= i < |subs| && i != s :: subs[i].state == Closed
  }

  /** The state of the bank lets the command pass without leaving a subarray open behind its back. */
  predicate Clean(b: Bank, cmd: Command, a: Addr)
    requires Scope(cmd) == SubLevel ==> 0 <= a.sub < |b.subs|
  {
    match cmd
    case ACT => b.state == Closed || (a.sub in b.rows && a.row in b.subs[a.sub].rows)
    case RDA | WRA => b.state == Closed || a.sub in b.rows
    case _ => true
  }

  lemma ActivateKeepsIff(b: Bank, a: Addr)
    requires BankInv(b) && 0 <= a.sub < |b.subs|
    ensures BankInv(StepBank(b, ACT, a)) <==> Clean(b, ACT, a)
  {
    var n := StepBank(b, ACT, a);
    if b.state == Closed {
      assert OneOpen(n.subs, a.sub, a.row);
      assert n.rows == {a.sub};
    } else {
      var s, row :| b.rows == {s} && OneOpen(b.subs, s, row);
      if Clean(b, ACT, a) {
        assert n == b by {
          assert n.rows == b.rows && n.subs[a.sub].rows == b.subs[a.sub].rows;
          assert n.subs == b.subs;
        }
      } else if a.sub == s {
        assert n.subs[s].rows == {row, a.row};
      } else {
        assert s in n.rows && a.sub in n.rows;
      }
    }
  }

  lemma AutoPrechargeKeepsIff(b: Bank, cmd: Command, a: Addr)
    requires BankInv(b) && 0 <= a.sub < |b.subs| && (cmd == RDA || cmd == WRA)
    ensures BankInv(StepBank(b, cmd, a)) <==> Clean(b, cmd, a)
  {
    var n := StepBank(b, cmd, a);
    if b.state == Opened {
      var s, row :| b.rows == {s} && OneOpen(b.subs, s, row);
      if a.sub != s {
        assert n.subs[s] == b.subs[s];
      }
    }
  }

  lemma BankKeepsIff(b: Bank, cmd: Command, a: Addr)
    requires BankInv(b) && (Scope(cmd) == SubLevel ==> 0 <= a.sub < |b.subs|)
    ensures BankInv(StepBank(b, cmd, a)) <==> Clean(b, cmd, a)
  {
    match cmd
    case ACT => ActivateKeepsIff(b, a);
    case RDA | WRA => AutoPrechargeKeepsIff(b, cmd, a);
    case RD | WR => assert StepBank(b, cmd, a).subs == b.subs;
    case _ =>
  }

  ghost predicate CleanAt(ranks: seq<Rank>, cmd: Command, a: Addr)
    requires Reaches(ranks, cmd, a)
  {
    Scope(cmd) != RankLevel ==> Clean(ranks[a.rank].banks[a.bank], cmd, a)
  }

  lemma RankKeepsIff(r: Rank, cmd: Command, a: Addr)
    requires RankInv(r) && (Scope(cmd) != RankLevel ==> 0 <= a.bank < |r.banks|)
    requires Scope(cmd) == SubLevel ==> 0 <= a.sub < |r.banks[a.bank].subs|
    ensures RankInv(StepRank(r, cmd, a)) <==> (Scope(cmd) != RankLevel ==> Clean(r.banks[a.bank], cmd, a))
  {
    if Scope(cmd) != RankLevel {
      BankKeepsIff(r.banks[a.bank], cmd, a);
      assert StepRank(r, cmd, a).banks[a.bank] == StepBank(r.banks[a.bank], cmd, a);
    }
  }

  /** A command keeps one open row per bank exactly if it is not an activate of an open bank (unless of the
      row that is open already), nor a column command with auto-precharge to a subarray that is not the open
      one of an open bank. */
  lemma StepKeepsIff(ranks: seq<Rank>, cmd: Command, a: Addr)
    requires Inv(ranks) && Reaches(ranks, cmd, a)
    ensures Inv(Step(ranks, cmd, a)) <==> CleanAt(ranks, cmd, a)
  {
    RankKeepsIff(ranks[a.rank], cmd, a);
    assert Step(ranks, cmd, a)[a.rank] == StepRank(ranks[a.rank], cmd, a);
  }

  /** A command touches nothing beside its path: not the other ranks, a bank's command not the other banks nor the
      rank's state, a subarray's command not the other subarrays; accesses and refreshes change nothing at all. */
  lemma StepIsLocal(ranks: seq<Rank>, cmd: Command, a: Addr)
    requires Reaches(ranks, cmd, a)
    ensures var n := Step(ranks, cmd, a);
            var r, q := ranks[a.rank], n[a.rank];
            && |n| == |ranks| && (forall i | 0 <= i < |ranks| && i != a.rank :: n[i] == ranks[i])
            && |q.banks| == |r.banks|
            && (cmd != PDE && cmd != PDX && cmd != SRE && cmd != SRX ==> q.state == r.state)
            && (forall i | 0 <= i < |r.banks| && cmd != PREA && (Scope(cmd) == RankLevel || i != a.bank) ::
                  q.banks[i] == r.banks[i])
            && (Scope(cmd) == SubLevel ==>
                  && |q.banks[a.bank].subs| == |r.banks[a.bank].subs|
                  && forall j | 0 <= j < |r.banks[a.bank].subs| && j != a.sub ::
                       q.banks[a.bank].subs[j] == r.banks[a.bank].subs[j])
            && (cmd == RD || cmd == WR || cmd == REF || cmd == REFPB ==> n == ranks)
  {
    var r := ranks[a.rank];
    if cmd == RD || cmd == WR {
      assert StepBank(r.banks[a.bank], cmd, a).subs == r.banks[a.bank].subs;
    }
    if cmd == RD || cmd == WR || cmd == REFPB {
      assert StepRank(r, cmd, a).banks == r.banks;
    }
  }

  // ---------- issuing what decode returns ----------

  /** Requests whose prerequisites the standard knows, and commands without any that close or wake. */
  predicate Requested(cmd: Command) {
    cmd != ACT && cmd != RDA && cmd != WRA
  }

  /** In a state with one open row per bank, decoding meets no unexpected state, and what it returns can be
      issued and keeps one open row per bank. */
  lemma DecodeIsSafe(ranks: seq<Rank>, cmd: Command, a: Addr)
    requires Inv(ranks) && Reaches(ranks, cmd, a) && Fits(ranks, a) && Requested(cmd)
    ensures Decode(ranks, cmd, a).Issue?
    ensures Reaches(ranks, Decode(ranks, cmd, a).cmd, a) && Inv(Step(ranks, Decode(ranks, cmd, a).cmd, a))
  {
    var r := ranks[a.rank];
    assert RankInv(r);
    if Scope(cmd) != RankLevel {
      assert BankInv(r.banks[a.bank]);
    }
    StepKeepsIff(ranks, Decode(ranks, cmd, a).cmd, a);
  }

  /** A column command with auto-precharge is never preceded by anything: it is safe only in the right state. */
  lemma AutoPrechargeSafeIff(ranks: seq<Rank>, cmd: Command, a: Addr)
    requires Inv(ranks) && (cmd == RDA || cmd == WRA) && Reaches(ranks, cmd, a) && Fits(ranks, a)
    ensures Decode(ranks, cmd, a) == Issue(cmd)
    ensures var b := ranks[a.rank].banks[a.bank];
            Inv(Step(ranks, cmd, a)) <==> b.state == Closed || a.sub in b.rows
  {
    StepKeepsIff(ranks, cmd, a);
  }

  // ---------- runs ----------

  datatype Ask = Ask(cmd: Command, addr: Addr)

  /** `run` lists the states from `run[0]` on; each request of `asks` issued what decoding returned for it. */
  ghost predicate IsRun(run: seq<seq<Rank>>, asks: seq<Ask>) {
    && |run| == |asks| + 1
    && forall i | 0 <= i < |asks| :: Answered(run[i], run[i + 1], asks[i])
  }

  ghost predicate Answered(ranks: seq<Rank>, next: seq<Rank>, q: Ask) {
    && Requested(q.cmd) && Reaches(ranks, q.cmd, q.addr) && Fits(ranks, q.addr)
    && match Decode(ranks, q.cmd, q.addr)
       case Issue(cmd) => Reaches(ranks, cmd, q.addr) && next == Step(ranks, cmd, q.addr)
       case _ => next == ranks
  }

  lemma IdleInv(nRank: nat, nBank: nat, nSub: nat)
    ensures Inv(Idle(nRank, nBank, nSub))
  {
  }

  /** Every state that such a run reaches has at most one open row in each bank. */
  lemma {:induction false} EveryRunKeepsOneOpenRow(run: seq<seq<Rank>>, asks: seq<Ask>, n: nat)
    requires IsRun(run, asks) && n <= |asks| && Inv(run[0])
    ensures Inv(run[n])
    ensures n < |asks| ==> Fits(run[n], asks[n].addr) && Decode(run[n], asks[n].cmd, asks[n].addr).Issue?
  {
    if n > 0 {
      EveryRunKeepsOneOpenRow(run, asks, n - 1);
      var q := asks[n - 1];
      assert Answered(run[n - 1], run[n - 1 + 1], q);
      DecodeIsSafe(run[n - 1], q.cmd, q.addr);
    }
    if n < |asks| {
      assert Answered(run[n], run[n + 1], asks[n]);
      DecodeIsSafe(run[n], asks[n].cmd, asks[n].addr);
    }
  }

  /** In particular every state that is reached from the idle channel has. */
  lemma EveryRunFromIdle(nRank: nat, nBank: nat, nSub: nat, run: seq<seq<Rank>>, asks: seq<Ask>, n: nat)
    requires IsRun(run, asks) && n <= |asks| && run[0] == Idle(nRank, nBank, nSub)
    ensures Inv(run[n])
    ensures n < |asks| ==> Fits(run[n], asks[n].addr) && Decode(run[n], asks[n].cmd, asks[n].addr).Issue?
  {
    IdleInv(nRank, nBank, nSub);
    EveryRunKeepsOneOpenRow(run, asks, n);
  }

  // ---------- how long the prerequisites last ----------

  /** Issuing `cs` one after the other is what decoding `cmd` asks for each time. */
  ghost predicate Asks(ranks: seq<Rank>, cs: seq<Command>, cmd: Command, a: Addr)
    decreases |cs|
  {
    cs == [] || (Fits(ranks, a) && Decode(ranks, cmd, a) == Issue(cs[0]) && Reaches(ranks, cs[0], a)
                 && Asks(Step(ranks, cs[0], a), cs[1..], cmd, a))
  }

  function After(ranks: seq<Rank>, cs: seq<Command>, cmd: Command, a: Addr): seq<Rank>
    requires Asks(ranks, cs, cmd, a)
    decreases |cs|
  {
    if cs == [] then ranks else After(Step(ranks, cs[0], a), cs[1..], cmd, a)
  }

  function WakeUp(s: State): seq<Command> {
    match s
    case ActPowerDown | PrePowerDown => [PDX]
    case SelfRefresh => [SRX]
    case _ => []
  }

  function OpenUp(b: Bank, a: Addr): seq<Command> {
    if b.state == Closed then [ACT]
    else if a.sub in b.rows && 0 <= a.sub < |b.subs| && a.row in b.subs[a.sub].rows then []
    else [PRE, ACT]
  }

  ghost predicate Ready(ranks: seq<Rank>, a: Addr) {
    Inv(ranks) && Fits(ranks, a) && Reaches(ranks, RD, a)
  }

  lemma StepReady(ranks: seq<Rank>, cmd: Command, a: Addr)
    requires Ready(ranks, a) && CleanAt(ranks, cmd, a)
    ensures Ready(Step(ranks, cmd, a), a)
  {
    StepKeepsIff(ranks, cmd, a);
  }

  function At(ranks: seq<Rank>, a: Addr): Bank
    requires Reaches(ranks, RD, a)
  {
    ranks[a.rank].banks[a.bank]
  }

  ghost predicate RowIsOpen(ranks: seq<Rank>, a: Addr)
    requires Reaches(ranks, RD, a)
  {
    At(ranks, a).state == Opened && At(ranks, a).rows == {a.sub} && OneOpen(At(ranks, a).subs, a.sub, a.row)
  }

  lemma ColumnNow(ranks: seq<Rank>, cmd: Command, a: Addr)
    requires Ready(ranks, a) && IsColumn(cmd) && ranks[a.rank].state == PowerUp && RowIsOpen(ranks, a)
    ensures Asks(ranks, [cmd], cmd, a) && After(ranks, [cmd], cmd, a) == ranks
  {
    var r, b := ranks[a.rank], At(ranks, a);
    assert StepBank(b, cmd, a).subs == b.subs;
    assert StepRank(r, cmd, a).banks == r.banks;
    assert Step(ranks, cmd, a) == ranks;
    assert Asks(ranks, [], cmd, a);
  }

  lemma Prepend(ranks: seq<Rank>, c: Command, rest: seq<Command>, cmd: Command, a: Addr)
    requires Fits(ranks, a) && Decode(ranks, cmd, a) == Issue(c) && Reaches(ranks, c, a)
    requires Asks(Step(ranks, c, a), rest, cmd, a)
    ensures Asks(ranks, [c] + rest, cmd, a)
    ensures After(ranks, [c] + rest, cmd, a) == After(Step(ranks, c, a), rest, cmd, a)
  {
    assert ([c] + rest)[1..] == rest;
  }

  lemma FromClosed(ranks: seq<Rank>, cmd: Command, a: Addr)
    requires Ready(ranks, a) && IsColumn(cmd) && ranks[a.rank].state == PowerUp && At(ranks, a).state == Closed
    ensures Asks(ranks, [ACT, cmd], cmd, a)
    ensures After(ranks, [ACT, cmd], cmd, a) == Step(ranks, ACT, a) && Ready(Step(ranks, ACT, a), a)
    ensures RowIsOpen(Step(ranks, ACT, a), a)
  {
    var n := Step(ranks, ACT, a);
    StepReady(ranks, ACT, a);
    assert RankInv(ranks[a.rank]) && BankInv(At(ranks, a));
    assert At(n, a) == StepBank(At(ranks, a), ACT, a);
    ColumnNow(n, cmd, a);
    Prepend(ranks, ACT, [cmd], cmd, a);
    assert [ACT] + [cmd] == [ACT, cmd];
  }

  lemma FromOtherRow(ranks: seq<Rank>, cmd: Command, a: Addr)
    requires Ready(ranks, a) && IsColumn(cmd) && ranks[a.rank].state == PowerUp
    requires At(ranks, a).state == Opened && OpenUp(At(ranks, a), a) == [PRE, ACT]
    ensures Asks(ranks, [PRE, ACT, cmd], cmd, a)
    ensures Ready(After(ranks, [PRE, ACT, cmd], cmd, a), a)
    ensures RowIsOpen(After(ranks, [PRE, ACT, cmd], cmd, a), a)
  {
    StepReady(ranks, PRE, a);
    var n := Step(ranks, PRE, a);
    assert RankInv(ranks[a.rank]) && BankInv(At(ranks, a));
    assert At(n, a) == CloseBank(At(ranks, a));
    FromClosed(n, cmd, a);
    Prepend(ranks, PRE, [ACT, cmd], cmd, a);
    assert [PRE] + [ACT, cmd] == [PRE, ACT, cmd];
  }

  lemma FromAwake(ranks: seq<Rank>, cmd: Command, a: Addr)
    requires Ready(ranks, a) && IsColumn(cmd) && ranks[a.rank].state == PowerUp
    ensures var cs := OpenUp(At(ranks, a), a) + [cmd];
            Asks(ranks, cs, cmd, a) && Ready(After(ranks, cs, cmd, a), a) && RowIsOpen(After(ranks, cs, cmd, a), a)
  {
    var b := At(ranks, a);
    assert RankInv(ranks[a.rank]) && BankInv(b);
    if b.state == Closed {
      FromClosed(ranks, cmd, a);
      assert OpenUp(b, a) + [cmd] == [ACT, cmd];
    } else if OpenUp(b, a) == [] {
      ColumnNow(ranks, cmd, a);
      assert OpenUp(b, a) + [cmd] == [cmd];
    } else {
      FromOtherRow(ranks, cmd, a);
      assert OpenUp(b, a) + [cmd] == [PRE, ACT, cmd];
    }
  }

  /** The commands that lead to a read or write at `a`. */
  function ToColumn(ranks: seq<Rank>, cmd: Command, a: Addr): (cs: seq<Command>)
    requires Reaches(ranks, RD, a)
  {
    WakeUp(ranks[a.rank].state) + OpenUp(At(ranks, a), a) + [cmd]
  }

  lemma Woken(ranks: seq<Rank>, cmd: Command, a: Addr)
    requires Ready(ranks, a) && IsColumn(cmd) && ranks[a.rank].state != PowerUp
    ensures |WakeUp(ranks[a.rank].state)| == 1
    ensures var c := WakeUp(ranks[a.rank].state)[0];
            && Decode(ranks, cmd, a) == Issue(c) && Reaches(ranks, c, a)
            && Ready(Step(ranks, c, a), a) && At(Step(ranks, c, a), a) == At(ranks, a)
            && Step(ranks, c, a)[a.rank].state == PowerUp
  {
    assert RankInv(ranks[a.rank]);
    StepReady(ranks, WakeUp(ranks[a.rank].state)[0], a);
  }

  lemma FromAsleep(ranks: seq<Rank>, cmd: Command, a: Addr)
    requires Ready(ranks, a) && IsColumn(cmd) && ranks[a.rank].state != PowerUp
    ensures var cs := WakeUp(ranks[a.rank].state) + (OpenUp(At(ranks, a), a) + [cmd]);
            Asks(ranks, cs, cmd, a) && Ready(After(ranks, cs, cmd, a), a) && RowIsOpen(After(ranks, cs, cmd, a), a)
  {
    Woken(ranks, cmd, a);
    var c := WakeUp(ranks[a.rank].state)[0];
    FromAwake(Step(ranks, c, a), cmd, a);
    Prepend(ranks, c, OpenUp(At(ranks, a), a) + [cmd], cmd, a);
    assert [c] == WakeUp(ranks[a.rank].state);
  }

  lemma ToColumnIsShort(ranks: seq<Rank>, cmd: Command, a: Addr)
    requires Reaches(ranks, RD, a) && IsColumn(cmd)
    ensures var cs := ToColumn(ranks, cmd, a);
            && 1 <= |cs| <= 4 && cs[|cs| - 1] == cmd && forall i | 0 <= i < |cs| - 1 :: cs[i] != cmd
  {
  }

  /** From any state with one open row per bank, decoding a read or write asks for exactly this: wake the
      rank if it sleeps, precharge if another row is open, activate if the row is not open, and then the
      command itself, the fourth at the latest; then exactly the row asked for is open in the bank. */
  lemma ColumnIsReached(ranks: seq<Rank>, cmd: Command, a: Addr)
    requires Ready(ranks, a) && IsColumn(cmd)
    ensures var cs := ToColumn(ranks, cmd, a);
            Asks(ranks, cs, cmd, a) && Ready(After(ranks, cs, cmd, a), a) && RowIsOpen(After(ranks, cs, cmd, a), a)
  {
    var s := ranks[a.rank].state;
    var rest := OpenUp(At(ranks, a), a) + [cmd];
    assert ToColumn(ranks, cmd, a) == WakeUp(s) + rest;
    if s == PowerUp {
      FromAwake(ranks, cmd, a);
      assert WakeUp(s) + rest == rest;
    } else {
      FromAsleep(ranks, cmd, a);
    }
  }

  // ---------- refresh, power-down and self-refresh ----------

  predicate AllClosed(banks: seq<Bank>) {
    forall i | 0 <= i < |banks| :: banks[i].state == Closed
  }

  /** What decoding answers, request by request. */
  lemma DecodeIs(r: Rank, cmd: Command, a: Addr)
    requires RankInv(r) && Requested(cmd) && a.bank < |r.banks| && (0 <= a.bank ==> a.sub < |r.banks[a.bank].subs|)
    requires (Scope(cmd) != RankLevel ==> 0 <= a.bank) && (Scope(cmd) == SubLevel ==> 0 <= a.sub)
    ensures DecodeRank(r, cmd, a).Issue?
    ensures var i := DecodeRank(r, cmd, a).cmd;
            && (cmd == REF ==> i == if AllClosed(r.banks) then REF else PREA)
            && (cmd == REFPB ==> i == if r.banks[a.bank].state == Closed then REFPB else PRE)
            && (cmd == PDE ==> i == if r.state == SelfRefresh then SRX else PDE)
            && (cmd == SRE ==> i == if r.state == ActPowerDown || r.state == PrePowerDown then PDX else SRE)
            && (cmd == RD || cmd == WR ==>
                  i == if r.state == SelfRefresh then SRX
                       else if r.state == ActPowerDown || r.state == PrePowerDown then PDX
                       else if r.banks[a.bank].state == Closed then ACT
                       else if a.sub in r.banks[a.bank].rows && a.row in r.banks[a.bank].subs[a.sub].rows then cmd
                       else PRE)
            && (cmd == PRE || cmd == PREA || cmd == PDX || cmd == SRX ==> i == cmd)
  {
    if 0 <= a.bank {
      assert BankInv(r.banks[a.bank]);
    }
  }

  /** A refresh of the rank or of a bank, power-down, or self-refresh. */
  predicate Rests(cmd: Command) {
    cmd == REF || cmd == REFPB || cmd == PDE || cmd == SRE
  }

  /** What has to precede it. */
  function Lead(r: Rank, cmd: Command, a: Addr): seq<Command>
    requires cmd == REFPB ==> 0 <= a.bank < |r.banks|
  {
    match cmd
    case REF => if AllClosed(r.banks) then [] else [PREA]
    case REFPB => if r.banks[a.bank].state == Closed then [] else [PRE]
    case PDE => if r.state == SelfRefresh then [SRX] else []
    case SRE => if r.state == ActPowerDown || r.state == PrePowerDown then [PDX] else []
    case _ => []
  }

  /** What holds of the rank when it has been issued. */
  ghost predicate Met(r: Rank, cmd: Command, a: Addr) {
    match cmd
    case REF => forall i | 0 <= i < |r.banks| :: r.banks[i].state == Closed && AllShut(r.banks[i].subs)
    case REFPB =>
      0 <= a.bank < |r.banks| && r.banks[a.bank].state == Closed && AllShut(r.banks[a.bank].subs)
    case PDE => r.state == if AllClosed(r.banks) then PrePowerDown else ActPowerDown
    case SRE => r.state == SelfRefresh
    case _ => true
  }

  lemma ClosedIsShut(r: Rank)
    requires RankInv(r)
    ensures forall i | 0 <= i < |r.banks| && r.banks[i].state == Closed :: AllShut(r.banks[i].subs)
    ensures AllClosed(r.banks) <==> !AnySubOpen(r.banks)
  {
    forall i | 0 <= i < |r.banks| && r.banks[i].state == Closed ensures AllShut(r.banks[i].subs) {
      assert BankInv(r.banks[i]);
    }
    PowerDownFormsAgree(r);
  }

  lemma OneStep(ranks: seq<Rank>, cmd: Command, a: Addr)
    requires Fits(ranks, a) && Decode(ranks, cmd, a) == Issue(cmd) && Reaches(ranks, cmd, a)
    ensures Asks(ranks, [cmd], cmd, a) && After(ranks, [cmd], cmd, a) == Step(ranks, cmd, a)
  {
    assert Asks(Step(ranks, cmd, a), [], cmd, a);
    assert [cmd][1..] == [];
  }

  lemma RestNow(ranks: seq<Rank>, cmd: Command, a: Addr)
    requires Inv(ranks) && Fits(ranks, a) && Reaches(ranks, cmd, a) && Rests(cmd)
    requires Lead(ranks[a.rank], cmd, a) == []
    ensures Asks(ranks, [cmd], cmd, a) && Inv(After(ranks, [cmd], cmd, a))
    ensures a.rank < |After(ranks, [cmd], cmd, a)|
    ensures Met(After(ranks, [cmd], cmd, a)[a.rank], cmd, a)
  {
    var r := ranks[a.rank];
    assert RankInv(r);
    DecodeIs(r, cmd, a);
    OneStep(ranks, cmd, a);
    StepKeepsIff(ranks, cmd, a);
    ClosedIsShut(r);
    if cmd == REFPB {
      assert Step(ranks, cmd, a)[a.rank].banks[a.bank] == r.banks[a.bank];
    }
  }

  lemma LeadLeads(ranks: seq<Rank>, cmd: Command, a: Addr)
    requires Inv(ranks) && Fits(ranks, a) && Reaches(ranks, cmd, a) && Rests(cmd)
    requires Lead(ranks[a.rank], cmd, a) != []
    ensures |Lead(ranks[a.rank], cmd, a)| == 1
    ensures var c := Lead(ranks[a.rank], cmd, a)[0];
            && Decode(ranks, cmd, a) == Issue(c) && Reaches(ranks, c, a)
            && var n := Step(ranks, c, a);
               Inv(n) && Fits(n, a) && Reaches(n, cmd, a) && Lead(n[a.rank], cmd, a) == []
  {
    var r := ranks[a.rank];
    assert RankInv(r);
    DecodeIs(r, cmd, a);
    var c := Lead(r, cmd, a)[0];
    StepKeepsIff(ranks, c, a);
    assert Step(ranks, c, a)[a.rank] == StepRank(r, c, a);
    if cmd == REFPB {
      assert StepRank(r, c, a).banks[a.bank] == CloseBank(r.banks[a.bank]);
    }
  }

  /** From any state with one open row per bank, decoding a refresh, a power-down or a self-refresh asks for at most one
      command first, and then leaves the rank as the request wants it: refreshed banks closed in all their subarrays,
      powered down with the state that tells whether a row is open, or refreshing itself. */
  lemma RestIsReached(ranks: seq<Rank>, cmd: Command, a: Addr)
    requires Inv(ranks) && Fits(ranks, a) && Reaches(ranks, cmd, a) && Rests(cmd)
    ensures var cs := Lead(ranks[a.rank], cmd, a) + [cmd];
            && Asks(ranks, cs, cmd, a) && Inv(After(ranks, cs, cmd, a)) && a.rank < |After(ranks, cs, cmd, a)|
            && Met(After(ranks, cs, cmd, a)[a.rank], cmd, a)
  {
    var lead := Lead(ranks[a.rank], cmd, a);
    if lead == [] {
      RestNow(ranks, cmd, a);
      assert lead + [cmd] == [cmd];
    } else {
      LeadLeads(ranks, cmd, a);
      var n := Step(ranks, lead[0], a);
      RestNow(n, cmd, a);
      Prepend(ranks, lead[0], [cmd], cmd, a);
      assert lead == [lead[0]];
    }
  }

  // ---------- row tests and power-down ----------

  /** `check_row_hit` finds its test only at the subarray. */
  predicate RowHit(ranks: seq<Rank>, a: Addr)
    requires Reaches(ranks, RD, a)
  {
    var s := At(ranks, a).subs[a.sub];
    s.state == Opened && a.row in s.rows
  }

  predicate RowOpen(ranks: seq<Rank>, a: Addr)
    requires Reaches(ranks, RD, a)
  {
    At(ranks, a).subs[a.sub].state == Opened
  }

  /** In a rank that is awake, a row hit is a column command without prerequisites, and a row that is open
      but no hit needs a precharge. */
  lemma RowHitIff(ranks: seq<Rank>, cmd: Command, a: Addr)
    requires Ready(ranks, a) && IsColumn(cmd) && ranks[a.rank].state == PowerUp
    ensures RowHit(ranks, a) <==> Decode(ranks, cmd, a) == Issue(cmd)
    ensures RowHit(ranks, a) <==> RowIsOpen(ranks, a)
    ensures RowOpen(ranks, a) && !RowHit(ranks, a) ==> Decode(ranks, cmd, a) == Issue(PRE)
  {
    assert RankInv(ranks[a.rank]) && BankInv(At(ranks, a));
  }

  /** The power-down effect was first written over the banks and then again over the subarrays: both agree. */
  lemma PowerDownFormsAgree(r: Rank)
    requires RankInv(r)
    ensures AnyOpen(r.banks) <==> AnySubOpen(r.banks)
  {
    if AnyOpen(r.banks) {
      var i :| 0 <= i < |r.banks| && r.banks[i].state != Closed;
      assert BankInv(r.banks[i]);
      var s, row :| r.banks[i].rows == {s} && OneOpen(r.banks[i].subs, s, row);
      assert r.banks[i].subs[s].state != Closed;
    }
    if AnySubOpen(r.banks) {
      var i, j :| 0 <= i < |r.banks| && 0 <= j < |r.banks[i].subs| && r.banks[i].subs[j].state != Closed;
      assert BankInv(r.banks[i]);
    }
  }

  /** The power-down state tells whether a row is open. */
  ghost predicate PowerFits(r: Rank) {
    && (r.state == ActPowerDown ==> AnyOpen(r.banks))
    && (r.state == PrePowerDown ==> !AnyOpen(r.banks))
  }

  /** The commands that lead to a column command, to power-down and to self-refresh keep it so. */
  lemma PowerIsKept(r: Rank, cmd: Command, a: Addr)
    requires RankInv(r) && PowerFits(r) && (IsColumn(cmd) || cmd == PDE || cmd == SRE)
    requires 0 <= a.bank < |r.banks| && 0 <= a.sub < |r.banks[a.bank].subs|
    ensures DecodeRank(r, cmd, a).Issue? && PowerFits(StepRank(r, DecodeRank(r, cmd, a).cmd, a))
  {
    assert BankInv(r.banks[a.bank]);
    PowerDownFormsAgree(r);
  }

  ghost predicate OthersClosed(r: Rank, bank: int) {
    forall i | 0 <= i < |r.banks| && i != bank :: r.banks[i].state == Closed
  }

  /** Neither refreshes nor precharges look at the power state.  Whatever decoding returns keeps it true, except
      exactly a precharge in active power-down that closes the last open bank: that of all banks, and that
      of a bank while all others are closed. */
  lemma DecodedKeepsPowerIff(r: Rank, cmd: Command, a: Addr)
    requires RankInv(r) && PowerFits(r) && Requested(cmd)
    requires a.bank < |r.banks| && (0 <= a.bank ==> a.sub < |r.banks[a.bank].subs|)
    requires (Scope(cmd) != RankLevel ==> 0 <= a.bank) && (Scope(cmd) == SubLevel ==> 0 <= a.sub)
    ensures DecodeRank(r, cmd, a).Issue?
    ensures var i := DecodeRank(r, cmd, a).cmd;
            && (Scope(i) != RankLevel ==> 0 <= a.bank) && (Scope(i) == SubLevel ==> 0 <= a.sub)
            && (PowerFits(StepRank(r, i, a)) <==>
                  !(r.state == ActPowerDown && (i == PREA || (i == PRE && OthersClosed(r, a.bank)))))
  {
    if 0 <= a.bank {
      assert BankInv(r.banks[a.bank]);
    }
    PowerDownFormsAgree(r);
    var i := DecodeRank(r, cmd, a).cmd;
    if i == PREA {
      forall j | 0 <= j < |r.banks| ensures CloseAll(r).banks[j].state == Closed {
      }
    } else if i == PRE {
      PrechargeLeaves(r, a);
    } else if i == REFPB {
      assert StepRank(r, i, a).banks == r.banks;
    }
  }

  lemma PrechargeLeaves(r: Rank, a: Addr)
    requires 0 <= a.bank < |r.banks|
    ensures AnyOpen(StepRank(r, PRE, a).banks) <==> !OthersClosed(r, a.bank)
  {
    var n := StepRank(r, PRE, a);
    assert n.banks[a.bank].state == Closed;
    assert forall i | 0 <= i < |r.banks| && i != a.bank :: n.banks[i] == r.banks[i];
  }

  /** So a refresh of the whole rank keeps it exactly outside active power-down. */
  lemma RefreshKeepsPowerIff(r: Rank, a: Addr)
    requires RankInv(r) && PowerFits(r) && a.bank < |r.banks| && (0 <= a.bank ==> a.sub < |r.banks[a.bank].subs|)
    ensures DecodeRank(r, REF, a).Issue? && Scope(DecodeRank(r, REF, a).cmd) == RankLevel
    ensures PowerFits(StepRank(r, DecodeRank(r, REF, a).cmd, a)) <==> r.state != ActPowerDown
  {
    DecodedKeepsPowerIff(r, REF, a);
  }
}
