/** The bank protocol of JEDEC JESD79-3 (section 4): a row is activated only in an idle bank, only an
    open bank is precharged, and columns are accessed only in the open row.

    The controller never looks at a bank: it trusts its row table and the `first` flags.  The results
    here say that it may: what it generates, and so what it issues, keeps the protocol in every run.
  */
module RowProtocol {
  import opened Options
  import opened Packets
  import opened Pipeline

  datatype BankState = Idle | Open(row: nat) | Broken

  function Obey(b: BankState, p: Packet): BankState {
    match p.kind
    case ACT => if b.Idle? then Open(p.row) else Broken
    case PRE => if b.Open? then Idle else Broken
    case RD => if b == Open(p.row) then b else Broken
    case WR => if b == Open(p.row) then b else Broken
    case _ => Broken
  }

  function Replay(b: BankState, ps: seq<Packet>): BankState {
    if ps == [] then b else Obey(Replay(b, ps[..|ps| - 1]), ps[|ps| - 1])
  }

  /** The packets of `ps` that go to bank `b`. */
  function OfBank(ps: seq<Packet>, b: nat): seq<Packet> {
    if ps == [] then []
    else OfBank(ps[..|ps| - 1], b) + if ps[|ps| - 1].bank == b then [ps[|ps| - 1]] else []
  }

  function Trace(h: seq<Issue>): (r: seq<Packet>)
    ensures |r| == |h| && forall i | 0 <= i < |h| :: r[i] == h[i].packet
  {
    seq(|h|, i requires 0 <= i < |h| => h[i].packet)
  }

  /** Everything ever generated for bank `b`, in order: issued, queued, and not yet queued. */
  ghost function Stream(c: Config, s: State, b: nat): seq<Packet>
    requires c.commandQueueOf(b) < |s.cmds|
  {
    OfBank(Trace(s.history), b) + OfBank(s.cmds[c.commandQueueOf(b)], b) + OfBank(s.buffer, b)
  }

  function TableState(table: map<nat, nat>, b: nat): BankState {
    if b in table then Open(table[b]) else Idle
  }

  /** The row table is the state that the bank will be in once everything generated has been issued. */
  ghost predicate BankTracked(c: Config, s: State, b: nat)
    requires c.commandQueueOf(b) < |s.cmds| && b < |s.first|
  {
    && Replay(Idle, Stream(c, s, b)) == TableState(s.bankTable, b)
    && (s.first[b] <==> b !in s.bankTable)
  }

  ghost predicate BanksTracked(c: Config, s: State)
    requires c.Valid() && Good(c, s)
  {
    forall b: nat | b < 8 ::
      assert c.commandQueueOf(b) < c.commandQueues; BankTracked(c, s, b)
  }

  ghost predicate RowInv(c: Config, s: State)
    requires c.Valid() && Good(c, s)
  {
    Routed(c, s.cmds) && BanksTracked(c, s)
  }

  // ---------- replaying and selecting ----------

  lemma {:induction false} ReplayAppend(b: BankState, ps: seq<Packet>, qs: seq<Packet>)
    ensures Replay(b, ps + qs) == Replay(Replay(b, ps), qs)
  {
    if qs == [] {
      assert ps + qs == ps;
    } else {
      assert (ps + qs)[..|ps + qs| - 1] == ps + qs[..|qs| - 1];
      ReplayAppend(b, ps, qs[..|qs| - 1]);
    }
  }

  lemma {:induction false} BrokenStays(ps: seq<Packet>)
    ensures Replay(Broken, ps) == Broken
  {
    if ps != [] {
      BrokenStays(ps[..|ps| - 1]);
    }
  }

  lemma {:induction false} OfBankAppend(ps: seq<Packet>, qs: seq<Packet>, b: nat)
    ensures OfBank(ps + qs, b) == OfBank(ps, b) + OfBank(qs, b)
  {
    if qs == [] {
      assert ps + qs == ps;
    } else {
      assert (ps + qs)[..|ps + qs| - 1] == ps + qs[..|qs| - 1];
      OfBankAppend(ps, qs[..|qs| - 1], b);
    }
  }

  lemma OfBankOne(p: Packet, b: nat)
    ensures OfBank([p], b) == if p.bank == b then [p] else []
  {
    assert [p][..0] == [];
  }

  lemma {:induction false} OfBankAll(ps: seq<Packet>, b: nat, all: bool)
    requires forall p | p in ps :: p.bank == b <==> all
    ensures OfBank(ps, b) == if all then ps else []
  {
    if ps != [] {
      assert ps == ps[..|ps| - 1] + [ps[|ps| - 1]];
      OfBankAll(ps[..|ps| - 1], b, all);
    }
  }

  // ---------- what one request generates ----------

  lemma {:induction false} BurstsKeepOpen(r: Request, n: nat)
    ensures Replay(Open(r.place.row), Bursts(r, n)) == Open(r.place.row)
  {
    if n > 0 {
      assert Bursts(r, n)[..n - 1] == Bursts(r, n - 1);
      BurstsKeepOpen(r, n - 1);
    }
  }

  lemma OpeningOpensRow(start: BankState, r: Request, open: bool, first: bool)
    requires if open then start == Open(r.place.row) else if first then start == Idle else start.Open?
    ensures Replay(start, Opening(r, open, first)) == Open(r.place.row)
  {
    var pre, act := CommandFor(r, PRE, r.place.col), CommandFor(r, ACT, r.place.col);
    if !open && first {
      assert [act][..0] == [];
    } else if !open {
      assert [pre, act][..1] == [pre];
      assert [pre][..0] == [];
      assert Replay(start, [pre]) == Idle;
    }
  }

  /** From the state that the row table claims, a request's commands lead to its row being open. */
  lemma CrackOpensRow(table: map<nat, nat>, r: Request, first: bool, n: nat)
    requires first <==> r.place.bank !in table
    ensures Replay(TableState(table, r.place.bank), Crack(r, IsRowHit(table, r), first, n)) == Open(r.place.row)
  {
    var start, open := TableState(table, r.place.bank), IsRowHit(table, r);
    OpeningOpensRow(start, r, open, first);
    ReplayAppend(start, Opening(r, open, first), Bursts(r, n));
    BurstsKeepOpen(r, n);
  }

  // ---------- the invariant, part by part ----------

  lemma StartRows(c: Config)
    requires c.Valid()
    ensures Good(c, Start(c)) && RowInv(c, Start(c))
  {
    var s := Start(c);
    assert forall r: Request | r in s.pendingRead :: false;
    forall b: nat | b < 8 ensures BankTracked(c, s, b) {
      assert c.commandQueueOf(b) < c.commandQueues;
      assert Stream(c, s, b) == [];
    }
  }

  lemma Regroup<T>(p: seq<T>, q: seq<T>, r: seq<T>)
    ensures p + (q + r) == (p + q) + r
  {
  }

  lemma Nothing<T>(s: seq<T>)
    ensures [] + s == s && s + [] == s
  {
  }

  /** Appending a request's commands to the buffer appends them to its bank's stream. */
  lemma GenerateInto(before: seq<Packet>, buffer: seq<Packet>, table: map<nat, nat>, r: Request, first: bool, n: nat,
                     b: nat)
    requires Replay(Idle, before + OfBank(buffer, b)) == TableState(table, b)
    requires b == r.place.bank ==> (first <==> b !in table)
    ensures Replay(Idle, before + OfBank(buffer + Crack(r, IsRowHit(table, r), first, n), b))
            == TableState(table[r.place.bank := r.place.row], b)
  {
    var commands := Crack(r, IsRowHit(table, r), first, n);
    var more := if b == r.place.bank then commands else [];
    OfBankAppend(buffer, commands, b);
    OfBankAll(commands, b, b == r.place.bank);
    Regroup(before, OfBank(buffer, b), more);
    ReplayAppend(Idle, before + OfBank(buffer, b), more);
    if b == r.place.bank {
      CrackOpensRow(table, r, first, n);
    }
  }

  lemma ExpandStream(c: Config, s: State, i: nat, k: nat, b: nat)
    requires i < |s.queues| && k < |s.queues[i]| && 0 < c.dataBus && c.commandQueueOf(b) < |s.cmds|
    requires s.queues[i][k].place.bank < |s.first| && s.queues[i][k].serial in s.sizes && b < |s.first|
    requires BankTracked(c, s, b)
    ensures BankTracked(c, Expand(c, s, i, k), b)
  {
    var r := s.queues[i][k];
    GenerateInto(OfBank(Trace(s.history), b) + OfBank(s.cmds[c.commandQueueOf(b)], b), s.buffer,
                 s.bankTable, r, s.first[r.place.bank], CasCount(s.sizes[r.serial], c.dataBus), b);
  }

  lemma ExpandRows(c: Config, s: State, i: nat, k: nat)
    requires c.Valid() && Good(c, s) && RowInv(c, s) && i < |s.queues| && k < |s.queues[i]|
    requires s.queues[i][k].place.bank < 8 && s.queues[i][k].place.bank < c.banks && s.queues[i][k].serial in s.sizes
    ensures Good(c, Expand(c, s, i, k)) && RowInv(c, Expand(c, s, i, k))
  {
    ExpandGood(c, s, i, k);
    forall b: nat | b < 8 ensures c.commandQueueOf(b) < c.commandQueues && BankTracked(c, Expand(c, s, i, k), b) {
      assert BankTracked(c, s, b);
      ExpandStream(c, s, i, k, b);
    }
  }

  lemma ScheduleRows(c: Config, s: State, i: nat)
    requires c.Valid() && Good(c, s) && RowInv(c, s) && i < |s.queues|
    ensures Good(c, Schedule(c, s, i)) && RowInv(c, Schedule(c, s, i))
  {
    if s.queues[i] != [] {
      var k := FirstReady(s.bankTable, s.queues[i], 0);
      InQueue(c, s, i, k);
      ExpandRows(c, s, i, k);
    }
  }

  lemma {:induction false} ArrivalIrrelevant(b: BankState, ps: seq<Packet>, k: nat, time: nat)
    requires k < |ps|
    ensures Replay(b, ps[k := ps[k].(arriveTime := time)]) == Replay(b, ps)
  {
    var qs := ps[k := ps[k].(arriveTime := time)];
    if k < |ps| - 1 {
      assert qs[..|qs| - 1] == ps[..|ps| - 1][k := ps[k].(arriveTime := time)];
      ArrivalIrrelevant(b, ps[..|ps| - 1], k, time);
    } else {
      assert qs[..|qs| - 1] == ps[..|ps| - 1];
    }
  }

  /** Moving a packet from the buffer to the end of its queue changes no stream but for the time stamp. */
  lemma MoveInto(before: seq<Packet>, queue: seq<Packet>, buffer: seq<Packet>, same: bool, time: nat, b: nat)
    requires buffer != [] && (buffer[0].bank == b ==> same)
    ensures var queue' := if same then queue + [buffer[0].(arriveTime := time)] else queue;
            Replay(Idle, before + OfBank(queue', b) + OfBank(buffer[1..], b))
            == Replay(Idle, before + OfBank(queue, b) + OfBank(buffer, b))
  {
    var p, rest := buffer[0], OfBank(buffer[1..], b);
    var stamped := p.(arriveTime := time);
    assert buffer == [p] + buffer[1..];
    OfBankAppend([p], buffer[1..], b);
    OfBankOne(p, b);
    OfBankOne(stamped, b);
    OfBankAppend(queue, [stamped], b);
    if b == p.bank {
      Restamp(before, OfBank(queue, b), p, rest, time);
    } else {
      Nothing(rest);
      Nothing(OfBank(queue, b));
    }
  }

  lemma Restamp(before: seq<Packet>, queue: seq<Packet>, p: Packet, rest: seq<Packet>, time: nat)
    ensures Replay(Idle, before + (queue + [p.(arriveTime := time)]) + rest) ==
            Replay(Idle, before + queue + ([p] + rest))
  {
    var was, k := before + queue + ([p] + rest), |before| + |queue|;
    assert before + (queue + [p.(arriveTime := time)]) + rest == was[k := was[k].(arriveTime := time)];
    ArrivalIrrelevant(Idle, was, k, time);
  }

  lemma EnqueueStream(c: Config, s: State, b: nat)
    requires s.buffer != [] && c.commandQueueOf(b) < |s.cmds| && c.commandQueueOf(s.buffer[0].bank) < |s.cmds|
    ensures var p := s.buffer[0];
            var j := c.commandQueueOf(p.bank);
            var t := s.(buffer := s.buffer[1..], cmds := s.cmds[j := s.cmds[j] + [p.(arriveTime := s.clock)]]);
            Replay(Idle, Stream(c, t, b)) == Replay(Idle, Stream(c, s, b))
  {
    var j := c.commandQueueOf(b);
    MoveInto(OfBank(Trace(s.history), b), s.cmds[j], s.buffer, j == c.commandQueueOf(s.buffer[0].bank), s.clock, b);
  }

  lemma EnqueueRows(c: Config, s: State)
    requires c.Valid() && Good(c, s) && RowInv(c, s) && s.buffer != []
    ensures Good(c, Enqueue(c, s)) && RowInv(c, Enqueue(c, s))
  {
    EnqueueGood(c, s);
    var p, t := s.buffer[0], Enqueue(c, s);
    assert PacketOk(c, p) && c.commandQueueOf(p.bank) < c.commandQueues;
    forall b: nat | b < 8 ensures c.commandQueueOf(b) < c.commandQueues && BankTracked(c, t, b) {
      assert BankTracked(c, s, b);
      EnqueueStream(c, s, b);
    }
  }

  lemma IssueStream(c: Config, s: State, h: seq<Issue>, j: nat, b: nat)
    requires j < |s.cmds| && s.cmds[j] != [] && c.commandQueueOf(b) < |s.cmds|
    requires c.commandQueueOf(s.cmds[j][0].bank) == j && Trace(h) == Trace(s.history) + [s.cmds[j][0]]
    ensures Stream(c, s.(cmds := s.cmds[j := s.cmds[j][1..]], history := h), b) == Stream(c, s, b)
  {
    PassOn(Trace(s.history), s.cmds[j], OfBank(s.buffer, b), b);
    if c.commandQueueOf(b) != j {
      OfBankAppend(Trace(s.history), [s.cmds[j][0]], b);
      OfBankOne(s.cmds[j][0], b);
      Nothing(OfBank(Trace(s.history), b));
    }
  }

  lemma PassOn(before: seq<Packet>, queue: seq<Packet>, rest: seq<Packet>, b: nat)
    requires queue != []
    ensures OfBank(before + [queue[0]], b) + OfBank(queue[1..], b) + rest == OfBank(before, b) + OfBank(queue, b) + rest
  {
    var p := queue[0];
    assert queue == [p] + queue[1..];
    OfBankAppend(before, [p], b);
    OfBankAppend([p], queue[1..], b);
    Regroup(OfBank(before, b), OfBank([p], b), OfBank(queue[1..], b));
  }

  lemma IssueRows(c: Config, s: State, j: nat)
    requires c.Valid() && Good(c, s) && RowInv(c, s) && j < |s.cmds| && s.cmds[j] != []
    ensures Good(c, IssueHead(c, s, j)) && RowInv(c, IssueHead(c, s, j))
  {
    IssueGood(c, s, j);
    var p, t := s.cmds[j][0], IssueHead(c, s, j);
    assert p in s.cmds[j];
    forall b: nat | b < 8 ensures c.commandQueueOf(b) < c.commandQueues && BankTracked(c, t, b) {
      assert BankTracked(c, s, b);
      assert Trace(t.history) == Trace(s.history) + [p];
      IssueStream(c, s, t.history, j, b);
    }
  }

  /** States that agree on the protocol's part of the state. */
  lemma SameRows(c: Config, s: State, t: State)
    requires c.Valid() && Good(c, s) && Good(c, t) && RowInv(c, s)
    requires t.history == s.history && t.cmds == s.cmds && t.buffer == s.buffer
    requires t.bankTable == s.bankTable && t.first == s.first
    ensures RowInv(c, t)
  {
    forall b: nat | b < 8 ensures BankTracked(c, t, b) {
      assert BankTracked(c, s, b);
      assert c.commandQueueOf(b) < c.commandQueues;
    }
  }

  ghost predicate RowsKept(c: Config, s: State) {
    c.Valid() && Good(c, s) && RowInv(c, s)
  }

  lemma ScheduleOneRows(c: Config, s: State, t: State, i: nat)
    requires RowsKept(c, s) && i < |s.queues| && t == Schedule(c, s, i)
    ensures RowsKept(c, t)
  {
    ScheduleRows(c, s, i);
  }

  lemma ScheduleNextRows(c: Config, s: State, n: nat)
    requires c.Valid() && Good(c, s) && 0 < n <= |s.queues| && RowsKept(c, ScheduleAll(c, s, n - 1))
    ensures RowsKept(c, ScheduleAll(c, s, n))
  {
    ScheduleOneRows(c, ScheduleAll(c, s, n - 1), ScheduleAll(c, s, n), n - 1);
  }

  lemma {:induction false} ScheduleAllRows(c: Config, s: State, n: nat)
    requires RowsKept(c, s) && n <= |s.queues|
    ensures RowsKept(c, ScheduleAll(c, s, n))
  {
    if n > 0 {
      ScheduleAllRows(c, s, n - 1);
      ScheduleNextRows(c, s, n);
    }
  }

  lemma {:induction false} EnqueueAllRows(c: Config, s: State)
    requires c.Valid() && Good(c, s) && RowInv(c, s)
    ensures RowInv(c, EnqueueAll(c, s))
    decreases |s.buffer|
  {
    if s.buffer != [] {
      EnqueueRows(c, s);
      EnqueueAllRows(c, Enqueue(c, s));
    }
  }

  lemma FinishRows(c: Config, s: State, pick: Option<nat>)
    requires c.Valid() && Good(c, s) && RowInv(c, s) && (pick.Some? ==> Ready(c, s, pick.value))
    ensures RowInv(c, Finish(c, s, pick))
  {
    if pick.Some? {
      IssueRows(c, s, pick.value);
    }
    var issued, t := IssuePicked(c, s, pick), Finish(c, s, pick);
    FinishKeepsCommands(c, s, pick);
    SameRows(c, issued, t);
  }

  // ---------- consequences ----------

  /** Whatever has been issued to a bank so far kept the protocol. */
  lemma IssuedKeepsProtocol(c: Config, s: State, b: nat)
    requires c.Valid() && Good(c, s) && RowInv(c, s) && b < 8
    ensures Replay(Idle, OfBank(Trace(s.history), b)) != Broken
  {
    assert BankTracked(c, s, b);
    assert c.commandQueueOf(b) < c.commandQueues;
    var issued := OfBank(Trace(s.history), b);
    var rest := OfBank(s.cmds[c.commandQueueOf(b)], b) + OfBank(s.buffer, b);
    assert Stream(c, s, b) == issued + rest;
    ReplayAppend(Idle, issued, rest);
    if Replay(Idle, issued) == Broken {
      BrokenStays(rest);
    }
  }

  /** Once nothing is waiting, the row table is the true state of every bank. */
  lemma TableIsTrueWhenDrained(c: Config, s: State, b: nat)
    requires c.Valid() && Good(c, s) && RowInv(c, s) && b < 8
    requires s.buffer == [] && forall j | 0 <= j < |s.cmds| :: s.cmds[j] == []
    ensures Replay(Idle, OfBank(Trace(s.history), b)) == TableState(s.bankTable, b)
  {
    assert BankTracked(c, s, b);
    assert c.commandQueueOf(b) < c.commandQueues;
    assert Stream(c, s, b) == OfBank(Trace(s.history), b);
  }
}
