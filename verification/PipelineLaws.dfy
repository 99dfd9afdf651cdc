/** What the parts of a cycle of the pipeline do, told by what they find: rows that are open, queues that are not
    empty, timers that are running. */
module PipelineLaws {
  import opened Options
  import opened Packets
  import opened Pipeline
  import opened RowProtocol
  import opened QueueTimers
  import D = Ddr3

  // ---------- which request is picked ----------

  /** A row hit is taken whenever there is one, and then the first; without any, the oldest request is taken. */
  lemma {:induction false} RowHitFirst(table: map<nat, nat>, q: seq<Request>, from: nat)
    requires q != [] && from <= |q|
    requires forall i | 0 <= i < from :: q[i].place.bank !in table || table[q[i].place.bank] != q[i].place.row
    ensures var k := FirstReady(table, q, from);
            if exists i :: 0 <= i < |q| && q[i].place.bank in table && table[q[i].place.bank] == q[i].place.row
            then q[k].place.bank in table && table[q[k].place.bank] == q[k].place.row
                 && forall i | 0 <= i < k :: q[i].place.bank !in table || table[q[i].place.bank] != q[i].place.row
            else k == 0
    decreases |q| - from
  {
    if from < |q| && !(q[from].place.bank in table && table[q[from].place.bank] == q[from].place.row) {
      RowHitFirst(table, q, from + 1);
    }
  }

  // ---------- which commands it becomes ----------

  /** How many commands open the row: none for a row hit, one in an idle bank, two with another row open. */
  function OpeningSize(table: map<nat, nat>, r: Request): nat {
    if r.place.bank !in table then 1 else if table[r.place.bank] == r.place.row then 0 else 2
  }

  /** `cs` are `k` commands that open the row of `r`, and then `n` that read or write column after column. */
  ghost predicate OpensAndMoves(cs: seq<Packet>, r: Request, k: nat, n: nat) {
    && |cs| == k + n && k <= 2
    && (k == 1 ==> cs[0].kind == ACT)
    && (k == 2 ==> cs[0].kind == PRE && cs[1].kind == ACT)
    && (forall x | 0 <= x < k :: cs[x].bank == r.place.bank && cs[x].row == r.place.row)
    && forall x | 0 <= x < n ::
         cs[k..][x] == Packet(if r.isRead then RD else WR, r.requestor, r.address, r.place.col + x,
                              r.place.row, r.place.bank, r.place.subArray, 0)
  }

  lemma CrackFor(r: Request, open: bool, first: bool, n: nat)
    ensures OpensAndMoves(Crack(r, open, first, n), r, if open then 0 else if first then 1 else 2, n)
  {
  }

  /** From the row table: a row hit becomes column commands only, in an idle bank one activate precedes them, with
      another row open a precharge and an activate do; column command `x` reads or writes column `x` from the
      request's on. */
  lemma CrackIs(table: map<nat, nat>, r: Request, first: bool, n: nat)
    requires first <==> r.place.bank !in table
    ensures OpensAndMoves(Crack(r, IsRowHit(table, r), first, n), r, OpeningSize(table, r), n)
  {
    CrackFor(r, IsRowHit(table, r), first, n);
  }

  /** No shorter sequence of commands may precede the column commands. */
  lemma OpeningIsShortest(table: map<nat, nat>, r: Request, first: bool, n: nat, ps: seq<Packet>)
    requires (first <==> r.place.bank !in table) && 0 < n
    requires Replay(TableState(table, r.place.bank), ps + Bursts(r, n)) != Broken
    ensures |Crack(r, IsRowHit(table, r), first, n)| <= |ps + Bursts(r, n)|
  {
    var start := TableState(table, r.place.bank);
    var b := Replay(start, ps);
    ReplayAppend(start, ps, Bursts(r, n));
    FirstBurst(b, r, n);
    if |ps| == 1 {
      assert ps[..0] == [];
    }
  }

  lemma FirstBurst(b: BankState, r: Request, n: nat)
    requires 0 < n && Replay(b, Bursts(r, n)) != Broken
    ensures b == Open(r.place.row)
  {
    var one, rest := Bursts(r, 1), Bursts(r, n)[1..];
    assert Bursts(r, n) == one + rest;
    ReplayAppend(b, one, rest);
    assert one[..0] == [];
    assert Replay(b, one) == Obey(b, one[0]);
    if b != Open(r.place.row) {
      BrokenStays(rest);
    }
  }

  // ---------- one request from every queue ----------

  /** The queue's length after one request has been taken from it, if there was any. */
  function OneLess(n: nat): nat {
    if n == 0 then 0 else n - 1
  }

  lemma ScheduleTakes(c: Config, s: State, t: State, i: nat, j: nat)
    requires c.Valid() && Good(c, s) && i < |s.queues| && j < |s.queues| && t == Schedule(c, s, i)
    ensures |t.queues| == |s.queues| && |t.queues[j]| == if j == i then OneLess(|s.queues[j]|) else |s.queues[j]|
  {
  }

  /** The first `n` queues have each lost one request, unless they were empty. */
  ghost predicate FirstTaken(s: State, t: State, n: nat) {
    && |t.queues| == |s.queues|
    && forall j | 0 <= j < |s.queues| :: |t.queues[j]| == if j < n then OneLess(|s.queues[j]|) else |s.queues[j]|
  }

  lemma ScheduleNextTakes(c: Config, s: State, u: State, t: State, n: nat)
    requires c.Valid() && Good(c, u) && n < |u.queues| && t == Schedule(c, u, n) && FirstTaken(s, u, n)
    ensures FirstTaken(s, t, n + 1)
  {
    forall j | 0 <= j < |s.queues|
      ensures |t.queues| == |s.queues|
      ensures |t.queues[j]| == if j < n + 1 then OneLess(|s.queues[j]|) else |s.queues[j]|
    {
      ScheduleTakes(c, u, t, n, j);
    }
  }

  lemma ScheduleTakesNext(c: Config, s: State, n: nat)
    requires c.Valid() && Good(c, s) && 0 < n <= |s.queues| && FirstTaken(s, ScheduleAll(c, s, n - 1), n - 1)
    ensures FirstTaken(s, ScheduleAll(c, s, n), n)
  {
    ScheduleNextTakes(c, s, ScheduleAll(c, s, n - 1), ScheduleAll(c, s, n), n - 1);
  }

  /** Scheduling takes exactly one request from each of the first `n` queues that is not empty. */
  lemma {:induction false} ScheduleAllTakes(c: Config, s: State, n: nat)
    requires c.Valid() && Good(c, s) && n <= |s.queues|
    ensures FirstTaken(s, ScheduleAll(c, s, n), n)
  {
    if n > 0 {
      ScheduleAllTakes(c, s, n - 1);
      ScheduleTakesNext(c, s, n);
    }
  }

  // ---------- commands into their queues ----------

  /** The commands of `ps` that belong to queue `j`, in order and stamped with the clock. */
  ghost function ForQueue(c: Config, ps: seq<Packet>, j: nat, clock: nat): seq<Packet> {
    if ps == [] then []
    else
      (if c.commandQueueOf(ps[0].bank) == j then [ps[0].(arriveTime := clock)] else []) + ForQueue(c, ps[1..], j, clock)
  }

  lemma EnqueueTakes(c: Config, s: State, j: nat)
    requires c.Valid() && Good(c, s) && s.buffer != [] && j < |s.cmds|
    ensures |Enqueue(c, s).cmds| == |s.cmds| && Enqueue(c, s).buffer == s.buffer[1..]
    ensures Enqueue(c, s).cmds[j] == s.cmds[j] + ForQueue(c, s.buffer[..1], j, s.clock)
  {
    assert s.buffer[..1][1..] == [];
    assert ForQueue(c, s.buffer[..1][1..], j, s.clock) == [];
  }

  lemma ForQueueHead(c: Config, ps: seq<Packet>, j: nat, clock: nat)
    requires ps != []
    ensures ForQueue(c, ps, j, clock) == ForQueue(c, ps[..1], j, clock) + ForQueue(c, ps[1..], j, clock)
  {
    assert ps[..1][1..] == [];
  }

  /** Every command of the buffer goes to the end of its queue, in order, with the clock as its arrival time. */
  lemma {:induction false} EnqueueAllIs(c: Config, s: State, j: nat)
    requires c.Valid() && Good(c, s) && j < |s.cmds|
    ensures |EnqueueAll(c, s).cmds| == |s.cmds|
    ensures EnqueueAll(c, s).cmds[j] == s.cmds[j] + ForQueue(c, s.buffer, j, s.clock)
    decreases |s.buffer|
  {
    if s.buffer != [] {
      EnqueueGood(c, s);
      EnqueueTakes(c, s, j);
      EnqueueAllIs(c, Enqueue(c, s), j);
      ForQueueHead(c, s.buffer, j, s.clock);
    }
  }

  // ---------- which head is issued ----------

  /** A head may be issued exactly if its queue's timer for it has run out, and every issued command is as far away
      as the device wants. */
  lemma ReadyIff(c: Config, s: State, j: nat)
    requires c.Valid() && Good(c, s) && j < |s.cmds| && s.cmds[j] != []
    ensures var p := s.cmds[j][0];
            Ready(c, s, j) <==>
            && (p.kind in s.timers[j] ==> s.timers[j][p.kind] == 0)
            && (forall i | 0 <= i < |s.history| ::
                  DeviceGap(c.speed, s.history[i].packet, p, s.clock - s.history[i].clk))
            && (p.kind == ACT ==> WindowGap(c.speed, s.history, s.clock))
  {
    var p := s.cmds[j][0];
    assert p in s.cmds[j] && PacketOk(c, p);
    DeviceAllowsIff(c, s.history, p, s.clock);
  }

  // ---------- a whole cycle ----------

  /** From `s` to `t` one request has been taken from every queue that was not empty. */
  ghost predicate OneTaken(s: State, t: State) {
    |t.queues| == |s.queues| && forall j | 0 <= j < |s.queues| :: |t.queues[j]| == OneLess(|s.queues[j]|)
  }

  lemma {:induction false} EnqueueKeepsQueues(c: Config, s: State)
    requires c.Valid() && Good(c, s)
    ensures EnqueueAll(c, s).queues == s.queues
    decreases |s.buffer|
  {
    if s.buffer != [] {
      EnqueueGood(c, s);
      EnqueueKeepsQueues(c, Enqueue(c, s));
    }
  }

  lemma ScheduledTakes(c: Config, s: State)
    requires c.Valid() && Good(c, s)
    ensures OneTaken(s, ScheduleAll(c, s, |s.queues|))
  {
    ScheduleAllTakes(c, s, |s.queues|);
  }

  lemma OfferedTakes(c: Config, s: State)
    requires c.Valid() && Good(c, s)
    ensures OneTaken(s, Offered(c, s)) && Offered(c, s).buffer == []
  {
    ScheduledTakes(c, s);
    EnqueueKeepsQueues(c, ScheduleAll(c, s, |s.queues|));
  }

  /** Requests and generated commands are untouched. */
  ghost predicate SameFront(s: State, t: State) {
    t.queues == s.queues && t.buffer == s.buffer
  }

  lemma IssueKeeps(c: Config, s: State, pick: Option<nat>)
    requires c.Valid() && Good(c, s) && (pick.Some? ==> Ready(c, s, pick.value))
    ensures SameFront(s, IssuePicked(c, s, pick))
  {
  }

  lemma WriteKeeps(c: Config, s: State)
    requires c.Valid() && Good(c, s)
    ensures SameFront(s, WriteStage(c, s))
  {
  }

  lemma ReadKeeps(c: Config, s: State)
    requires c.Valid() && Good(c, s)
    ensures SameFront(s, ReadStage(c, s))
  {
  }

  lemma FinishKeeps(c: Config, s: State, pick: Option<nat>)
    requires c.Valid() && Good(c, s) && (pick.Some? ==> Ready(c, s, pick.value))
    ensures SameFront(s, Finish(c, s, pick))
  {
    var issued := IssuePicked(c, s, pick);
    IssueKeeps(c, s, pick);
    WriteKeeps(c, issued);
    WriteStageGood(c, issued);
    ReadKeeps(c, Tick(WriteStage(c, issued)));
  }

  /** After a cycle no command waits outside the queues, and one request has been taken from every queue. */
  lemma CycleTakes(c: Config, s: State, pick: Option<nat>)
    requires c.Valid() && Good(c, s) && (pick.Some? ==> Ready(c, Offered(c, s), pick.value))
    ensures OneTaken(s, Finish(c, Offered(c, s), pick)) && Finish(c, Offered(c, s), pick).buffer == []
  {
    OfferedTakes(c, s);
    FinishKeeps(c, Offered(c, s), pick);
  }
}
