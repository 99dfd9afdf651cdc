/** Data is neither lost nor invented on its way through the controller, and every request is called
    back exactly once.  Each account of `Ledger` is read off the pipeline's state here, and every part
    of a cycle is shown to move it as `Ledger` says.
  */
module Conservation {
  import opened Options
  import opened Packets
  import opened Pipeline
  import opened Ledger

  /** What a data packet can be matched by, and the direction. */
  datatype Key = Key(requestor: nat, address: nat, isRead: bool)

  predicate Owns(k: Key, r: Request) {
    r.requestor == k.requestor && r.address == k.address && r.isRead == k.isRead
  }

  predicate Carries(k: Key, p: Packet) {
    p.requestor == k.requestor && p.address == k.address && p.kind == if k.isRead then RD else WR
  }

  function OfKey(rs: seq<Request>, k: Key): seq<Request> {
    if rs == [] then []
    else OfKey(rs[..|rs| - 1], k) + if Owns(k, rs[|rs| - 1]) then [rs[|rs| - 1]] else []
  }

  function Count(ps: seq<Packet>, k: Key): nat {
    if ps == [] then 0
    else Count(ps[..|ps| - 1], k) + if Carries(k, ps[|ps| - 1]) then 1 else 0
  }

  /** Data packets on their way, seen as the column commands they come from. */
  function Casts(ps: seq<Packet>, isRead: bool): (r: seq<Packet>)
    ensures |r| == |ps| && forall i | 0 <= i < |ps| :: r[i] == ps[i].(kind := if isRead then RD else WR)
  {
    seq(|ps|, i requires 0 <= i < |ps| => ps[i].(kind := if isRead then RD else WR))
  }

  function Lefts(sizes: map<nat, nat>, rs: seq<Request>): (q: seq<nat>)
    requires forall r | r in rs :: r.serial in sizes
    ensures |q| == |rs| && forall i | 0 <= i < |rs| :: q[i] == sizes[rs[i].serial]
  {
    seq(|rs|, i requires 0 <= i < |rs| => sizes[rs[i].serial])
  }

  function Pending(s: State, k: Key): seq<Request> {
    if k.isRead then s.pendingRead else s.pendingWrite
  }

  function InTransit(s: State, k: Key): seq<Packet> {
    Casts(if k.isRead then s.reading else s.writing, k.isRead)
  }

  ghost function RequestQueueOf(c: Config, k: Key): nat {
    c.requestQueueOf(c.place(k.address))
  }

  ghost function CommandQueueOf(c: Config, k: Key): nat {
    c.commandQueueOf(c.place(k.address).bank)
  }

  ghost function Queued(c: Config, s: State, k: Key): seq<Request>
    requires c.Valid() && |s.queues| == c.requestQueues
  {
    assert RequestQueueOf(c, k) < c.requestQueues;
    OfKey(s.queues[RequestQueueOf(c, k)], k)
  }

  ghost function Flight(c: Config, s: State, k: Key): nat
    requires c.Valid() && |s.cmds| == c.commandQueues
  {
    assert CommandQueueOf(c, k) < c.commandQueues;
    Count(s.buffer, k) + Count(s.cmds[CommandQueueOf(c, k)], k) + Count(InTransit(s, k), k)
  }

  ghost function Left(s: State, k: Key): seq<nat>
    requires Tracked(s)
  {
    OfKeyIn(Pending(s, k), k);
    Lefts(s.sizes, OfKey(Pending(s, k), k))
  }

  /** The account of `k` in a state of the pipeline. */
  ghost function AccountOf(c: Config, s: State, k: Key): Account
    requires c.Valid() && Good(c, s)
  {
    Account(OfKey(s.accepted, k), OfKey(s.done, k), OfKey(Pending(s, k), k), Left(s, k),
            Queued(c, s, k), Flight(c, s, k), Count(s.delivered, k))
  }

  lemma SameFlight(c: Config, s: State, t: State, k: Key)
    requires c.Valid() && |s.cmds| == c.commandQueues
    requires t.buffer == s.buffer && t.cmds == s.cmds && t.reading == s.reading && t.writing == s.writing
    ensures Flight(c, t, k) == Flight(c, s, k)
  {
  }

  /** Steps that only move commands: the rest of the account stays. */
  lemma SameSides(s: State, t: State, k: Key)
    requires Tracked(s) && t.accepted == s.accepted && t.done == s.done && t.delivered == s.delivered
    requires t.pendingRead == s.pendingRead && t.pendingWrite == s.pendingWrite && t.sizes == s.sizes
    ensures OfKey(t.accepted, k) == OfKey(s.accepted, k) && OfKey(t.done, k) == OfKey(s.done, k)
    ensures OfKey(Pending(t, k), k) == OfKey(Pending(s, k), k) && Left(t, k) == Left(s, k)
    ensures Count(t.delivered, k) == Count(s.delivered, k)
  {
  }

  /** Who is where: every live request is the accepted request with its serial, requests and commands sit
      in the queues that their address selects. */
  ghost predicate Books(c: Config, s: State)
    requires c.Valid() && Good(c, s)
  {
    && AcceptedOk(c, s.accepted)
    && (forall r | r in s.pendingRead :: Live(c, s, r) && r.isRead)
    && (forall r | r in s.pendingWrite :: Live(c, s, r) && !r.isRead)
    && Filed(c, s.accepted, s.queues)
    && BufferHomed(c, s.buffer)
    && CommandsHomed(c, s.cmds)
    && Routed(c, s.cmds)
  }

  ghost predicate AcceptedOk(c: Config, accepted: seq<Request>) {
    forall i | 0 <= i < |accepted| :: Accepted(c, accepted[i], i)
  }

  ghost predicate Filed(c: Config, accepted: seq<Request>, queues: seq<seq<Request>>) {
    forall i, r | 0 <= i < |queues| && r in queues[i] :: Listed(accepted, r) && c.requestQueueOf(r.place) == i
  }

  ghost predicate BufferHomed(c: Config, buffer: seq<Packet>) {
    forall p | p in buffer :: Homed(c, p)
  }

  ghost predicate CommandsHomed(c: Config, cmds: seq<seq<Packet>>) {
    forall j, p | 0 <= j < |cmds| && p in cmds[j] :: Homed(c, p)
  }

  ghost predicate Homed(c: Config, p: Packet) {
    p.bank == c.place(p.address).bank
  }

  ghost predicate Accepted(c: Config, r: Request, i: nat) {
    r.serial == i && r.place == c.place(r.address) && r.size < WORD
  }

  ghost predicate Listed(accepted: seq<Request>, r: Request) {
    r.serial < |accepted| && accepted[r.serial] == r
  }

  ghost predicate Live(c: Config, s: State, r: Request)
    requires c.Valid() && Good(c, s)
  {
    Listed(s.accepted, r) && r.serial in s.sizes
  }

  ghost predicate Conserved(c: Config, s: State)
    requires c.Valid() && Good(c, s)
  {
    Books(c, s) && forall k :: Balanced(c.dataBus, AccountOf(c, s, k))
  }

  // ---------- selecting and counting ----------

  lemma {:induction false} OfKeyIn(rs: seq<Request>, k: Key)
    ensures forall r | r in OfKey(rs, k) :: r in rs && Owns(k, r)
  {
    if rs != [] {
      OfKeyIn(rs[..|rs| - 1], k);
    }
  }

  lemma {:induction false} OfKeyAppend(p: seq<Request>, q: seq<Request>, k: Key)
    ensures OfKey(p + q, k) == OfKey(p, k) + OfKey(q, k)
  {
    if q == [] {
      assert p + q == p;
    } else {
      assert (p + q)[..|p + q| - 1] == p + q[..|q| - 1];
      OfKeyAppend(p, q[..|q| - 1], k);
    }
  }

  lemma OfKeySnoc(p: seq<Request>, r: Request, k: Key)
    ensures OfKey(p + [r], k) == OfKey(p, k) + if Owns(k, r) then [r] else []
  {
    assert (p + [r])[..|p|] == p;
  }

  lemma {:induction false} OfKeyNone(p: seq<Request>, k: Key)
    requires forall r | r in p :: !Owns(k, r)
    ensures OfKey(p, k) == []
  {
    if p != [] {
      OfKeyNone(p[..|p| - 1], k);
    }
  }

  lemma OfKeyMiddle(p: seq<Request>, r: Request, q: seq<Request>, k: Key)
    ensures OfKey(p + [r] + q, k) == OfKey(p, k) + (if Owns(k, r) then [r] else []) + OfKey(q, k)
    ensures OfKey(p + q, k) == OfKey(p, k) + OfKey(q, k)
  {
    OfKeyAppend(p + [r], q, k);
    OfKeySnoc(p, r, k);
    OfKeyAppend(p, q, k);
  }

  /** Taking out entry `i`, when no earlier entry has its key. */
  lemma OfKeyWithout(q: seq<Request>, i: nat, k: Key)
    requires i < |q|
    requires Owns(k, q[i]) ==> forall j | 0 <= j < i :: !Owns(k, q[j])
    ensures OfKey(q, k) == (if Owns(k, q[i]) then [q[i]] else []) + OfKey(Without(q, i), k)
  {
    var before, r, after := q[..i], q[i], q[i + 1..];
    assert q == before + [r] + after;
    assert Without(q, i) == before + after;
    OfKeyMiddle(before, r, after, k);
    if Owns(k, r) {
      OfKeyNone(before, k);
    } else {
      assert OfKey(before, k) + [] == OfKey(before, k);
    }
  }

  lemma {:induction false} CountAppend(p: seq<Packet>, q: seq<Packet>, k: Key)
    ensures Count(p + q, k) == Count(p, k) + Count(q, k)
  {
    if q == [] {
      assert p + q == p;
    } else {
      assert (p + q)[..|p + q| - 1] == p + q[..|q| - 1];
      CountAppend(p, q[..|q| - 1], k);
    }
  }

  lemma CountSnoc(ps: seq<Packet>, p: Packet, k: Key)
    ensures Count(ps + [p], k) == Count(ps, k) + if Carries(k, p) then 1 else 0
  {
    assert (ps + [p])[..|ps|] == ps;
  }

  lemma CountHead(ps: seq<Packet>, k: Key)
    requires ps != []
    ensures Count(ps, k) == Count(ps[1..], k) + if Carries(k, ps[0]) then 1 else 0
  {
    assert ps == [ps[0]] + ps[1..];
    assert [ps[0]][..0] == [];
    CountAppend([ps[0]], ps[1..], k);
  }

  lemma {:induction false} CountBursts(r: Request, n: nat, k: Key)
    ensures Count(Bursts(r, n), k) == if Owns(k, r) then n else 0
  {
    if n > 0 {
      assert Bursts(r, n)[..n - 1] == Bursts(r, n - 1);
      CountBursts(r, n - 1, k);
    }
  }

  lemma CountCrack(r: Request, open: bool, first: bool, n: nat, k: Key)
    ensures Count(Crack(r, open, first, n), k) == if Owns(k, r) then n else 0
  {
    CountAppend(Opening(r, open, first), Bursts(r, n), k);
    CountBursts(r, n, k);
    var pre, act := CommandFor(r, PRE, r.place.col), CommandFor(r, ACT, r.place.col);
    assert Count([], k) == 0;
    CountSnoc([], act, k);
    CountSnoc([], pre, k);
    assert [] + [act] == [act] && [] + [pre] == [pre] && [pre] + [act] == [pre, act];
    CountSnoc([pre], act, k);
  }

  // ---------- a new request ----------

  lemma AddBooks(c: Config, s: State, requestor: nat, address: nat, isRead: bool, size: nat)
    requires c.Valid() && Good(c, s) && Books(c, s) && size < WORD
    ensures Good(c, AddRequest(c, s, requestor, address, isRead, size))
    ensures Books(c, AddRequest(c, s, requestor, address, isRead, size))
  {
    AddGood(c, s, requestor, address, isRead, size);
  }

  ghost function NewRequest(c: Config, s: State, requestor: nat, address: nat, isRead: bool, size: nat): Request {
    Request(|s.accepted|, requestor, address, isRead, size, c.place(address))
  }

  lemma AddLeft(c: Config, s: State, r: Request, k: Key)
    requires c.Valid() && Good(c, s) && Books(c, s) && r.serial == |s.accepted|
    ensures var pending := Pending(s, k) + if r.isRead == k.isRead then [r] else [];
            var sizes := s.sizes[r.serial := r.size];
            (forall x | x in OfKey(pending, k) :: x.serial in sizes)
            && Lefts(sizes, OfKey(pending, k)) == Left(s, k) + if Owns(k, r) then [r.size] else []
  {
    var pend := OfKey(Pending(s, k), k);
    var pending := Pending(s, k) + if r.isRead == k.isRead then [r] else [];
    OfKeySnoc(Pending(s, k), r, k);
    assert Pending(s, k) + [] == Pending(s, k);
    assert OfKey(pending, k) == pend + if Owns(k, r) then [r] else [];
    OfKeyIn(Pending(s, k), k);
    forall x | x in pend ensures x.serial in s.sizes && x.serial < r.serial {
      assert x in Pending(s, k);
    }
  }

  lemma AddAccount(c: Config, s: State, t: State, r: Request, k: Key)
    requires c.Valid() && Good(c, s) && Good(c, t) && Books(c, s)
    requires r.serial == |s.accepted| && r.place == c.place(r.address)
    requires c.requestQueueOf(r.place) < |s.queues|
    requires t == AddRequest(c, s, r.requestor, r.address, r.isRead, r.size)
    ensures AccountOf(c, t, k) == if Owns(k, r) then Add(AccountOf(c, s, k), r) else AccountOf(c, s, k)
  {
    AddPending(s, t, r, k);
    AddAccountLeft(c, s, t, r, k);
    AddAccountQueued(c, s, t, r, k);
    SameFlight(c, s, t, k);
  }

  lemma AddAccountLeft(c: Config, s: State, t: State, r: Request, k: Key)
    requires c.Valid() && Good(c, s) && Tracked(t) && Books(c, s) && r.serial == |s.accepted|
    requires Pending(t, k) == Pending(s, k) + if r.isRead == k.isRead then [r] else []
    requires t.sizes == s.sizes[r.serial := r.size]
    ensures Left(t, k) == if Owns(k, r) then Left(s, k) + [r.size] else Left(s, k)
  {
    AddLeft(c, s, r, k);
    assert Left(s, k) + [] == Left(s, k);
  }

  lemma AddAccountQueued(c: Config, s: State, t: State, r: Request, k: Key)
    requires c.Valid() && Good(c, s) && r.place == c.place(r.address)
    requires c.requestQueueOf(r.place) < |s.queues|
    requires t.queues == s.queues[c.requestQueueOf(r.place) := s.queues[c.requestQueueOf(r.place)] + [r]]
    ensures Queued(c, t, k) == if Owns(k, r) then Queued(c, s, k) + [r] else Queued(c, s, k)
  {
    AddQueued(c, s, r, k);
    assert Queued(c, s, k) + [] == Queued(c, s, k);
  }

  lemma AddPending(s: State, t: State, r: Request, k: Key)
    requires t.accepted == s.accepted + [r]
    requires Pending(t, k) == Pending(s, k) + if r.isRead == k.isRead then [r] else []
    ensures OfKey(t.accepted, k) == OfKey(s.accepted, k) + if Owns(k, r) then [r] else []
    ensures OfKey(Pending(t, k), k) == OfKey(Pending(s, k), k) + if Owns(k, r) then [r] else []
  {
    OfKeySnoc(s.accepted, r, k);
    OfKeySnoc(Pending(s, k), r, k);
    if r.isRead != k.isRead {
      assert Pending(t, k) == Pending(s, k);
    }
  }

  lemma AddQueued(c: Config, s: State, r: Request, k: Key)
    requires c.Valid() && Good(c, s) && r.place == c.place(r.address)
    ensures var i := c.requestQueueOf(r.place);
            i < |s.queues|
            && Queued(c, s.(queues := s.queues[i := s.queues[i] + [r]]), k) ==
               Queued(c, s, k) + if Owns(k, r) then [r] else []
  {
    var i := c.requestQueueOf(r.place);
    assert i < c.requestQueues;
    OfKeySnoc(s.queues[i], r, k);
  }

  // ---------- commands are generated ----------

  predicate SameRow(a: Place, b: Place) {
    a.bank == b.bank && a.row == b.row
  }

  /** First ready, first come, first served lets no request overtake another one to the same row. */
  lemma {:induction false} FirstReadyIsFirst(table: map<nat, nat>, q: seq<Request>, from: nat, j: nat)
    requires q != [] && from <= |q| && (forall i | 0 <= i < from :: !IsRowHit(table, q[i]))
    requires j < FirstReady(table, q, from)
    ensures !SameRow(q[j].place, q[FirstReady(table, q, from)].place)
    decreases |q| - from
  {
    if from < |q| && !IsRowHit(table, q[from]) {
      FirstReadyIsFirst(table, q, from + 1, j);
    }
  }

  lemma ExpandBooks(c: Config, s: State, i: nat, n: nat)
    requires c.Valid() && Good(c, s) && Books(c, s) && i < |s.queues| && n < |s.queues[i]|
    requires var r := s.queues[i][n]; r.place.bank < 8 && r.place.bank < c.banks && r.serial in s.sizes
    ensures Good(c, Expand(c, s, i, n)) && Books(c, Expand(c, s, i, n))
  {
    ExpandGood(c, s, i, n);
    var t, r := Expand(c, s, i, n), s.queues[i][n];
    assert r in s.queues[i] && Listed(s.accepted, r) && Accepted(c, r, r.serial);
    forall p | p in t.buffer ensures Homed(c, p) {
      if p !in s.buffer {
        assert p.address == r.address && p.bank == r.place.bank;
      }
    }
    assert forall j, x | 0 <= j < |t.queues| && x in t.queues[j] :: x in s.queues[j];
  }

  lemma ExpandQueued(c: Config, s: State, i: nat, n: nat, k: Key)
    requires c.Valid() && Good(c, s) && Books(c, s) && i < |s.queues| && n < |s.queues[i]|
    requires forall j | 0 <= j < n :: !SameRow(s.queues[i][j].place, s.queues[i][n].place)
    ensures var r := s.queues[i][n];
            Queued(c, s, k) ==
            (if Owns(k, r) then [r] else []) + Queued(c, s.(queues := s.queues[i := Without(s.queues[i], n)]), k)
  {
    var q := s.queues[i];
    var r := q[n];
    assert r in q && Listed(s.accepted, r) && Accepted(c, s.accepted[r.serial], r.serial);
    forall j | 0 <= j < n && Owns(k, r) ensures !Owns(k, q[j]) {
      assert q[j] in q && Listed(s.accepted, q[j]) && Accepted(c, s.accepted[q[j].serial], q[j].serial);
    }
    OfKeyWithout(q, n, k);
    if i != RequestQueueOf(c, k) {
      assert !Owns(k, r);
      assert [] + Queued(c, s, k) == Queued(c, s, k);
    }
  }

  /** The commands of a queued request are generated from its full size. */
  lemma QueuedCasts(c: Config, s: State, i: nat, n: nat, k: Key)
    requires c.Valid() && Good(c, s) && i < |s.queues| && n < |s.queues[i]|
    requires s.queues[i][n].serial in s.sizes && Balanced(c.dataBus, AccountOf(c, s, k))
    requires Queued(c, s, k) != [] && Queued(c, s, k)[0] == s.queues[i][n]
    ensures CasCount(s.sizes[s.queues[i][n].serial], c.dataBus) == Need(c.dataBus, s.queues[i][n])
  {
    QueuedIsFull(c.dataBus, AccountOf(c, s, k));
  }

  lemma ExpandAccount(c: Config, s: State, t: State, i: nat, n: nat, k: Key)
    requires c.Valid() && Good(c, s) && Good(c, t) && Books(c, s) && i < |s.queues| && n < |s.queues[i]|
    requires s.queues[i][n].place.bank < 8 && s.queues[i][n].serial in s.sizes && t == Expand(c, s, i, n)
    requires forall j | 0 <= j < n :: !SameRow(s.queues[i][j].place, s.queues[i][n].place)
    requires Balanced(c.dataBus, AccountOf(c, s, k))
    ensures Owns(k, s.queues[i][n]) ==> Queued(c, s, k) != []
    ensures AccountOf(c, t, k) ==
            if Owns(k, s.queues[i][n]) then Launch(c.dataBus, AccountOf(c, s, k)) else AccountOf(c, s, k)
  {
    SameSides(s, t, k);
    ExpandAccountQueued(c, s, t, i, n, k);
    ExpandAccountFlight(c, s, t, i, n, k);
  }

  lemma ExpandAccountQueued(c: Config, s: State, t: State, i: nat, n: nat, k: Key)
    requires c.Valid() && Good(c, s) && Books(c, s) && i < |s.queues| && n < |s.queues[i]|
    requires t.queues == s.queues[i := Without(s.queues[i], n)]
    requires forall j | 0 <= j < n :: !SameRow(s.queues[i][j].place, s.queues[i][n].place)
    ensures if Owns(k, s.queues[i][n])
            then Queued(c, s, k) != [] && Queued(c, s, k)[0] == s.queues[i][n]
                 && Queued(c, t, k) == Queued(c, s, k)[1..]
            else Queued(c, t, k) == Queued(c, s, k)
  {
    ExpandQueued(c, s, i, n, k);
    assert [] + Queued(c, t, k) == Queued(c, t, k);
  }

  lemma ExpandAccountFlight(c: Config, s: State, t: State, i: nat, n: nat, k: Key)
    requires c.Valid() && Good(c, s) && Good(c, t) && i < |s.queues| && n < |s.queues[i]|
    requires s.queues[i][n].place.bank < 8 && s.queues[i][n].serial in s.sizes && t == Expand(c, s, i, n)
    requires Balanced(c.dataBus, AccountOf(c, s, k))
    requires Owns(k, s.queues[i][n]) ==> Queued(c, s, k) != [] && Queued(c, s, k)[0] == s.queues[i][n]
    ensures Flight(c, t, k) == Flight(c, s, k) + if Owns(k, s.queues[i][n]) then Need(c.dataBus, s.queues[i][n]) else 0
  {
    var r := s.queues[i][n];
    ExpandFlight(c, s, r, IsRowHit(s.bankTable, r), s.first[r.place.bank], CasCount(s.sizes[r.serial], c.dataBus), k);
    if Owns(k, r) {
      QueuedCasts(c, s, i, n, k);
    }
  }

  lemma ExpandFlight(c: Config, s: State, r: Request, open: bool, first: bool, casts: nat, k: Key)
    requires c.Valid() && |s.cmds| == c.commandQueues
    ensures Flight(c, s.(buffer := s.buffer + Crack(r, open, first, casts)), k) ==
            Flight(c, s, k) + if Owns(k, r) then casts else 0
  {
    CountAppend(s.buffer, Crack(r, open, first, casts), k);
    CountCrack(r, open, first, casts, k);
  }

  // ---------- commands move to their queues and to the device ----------

  lemma EnqueueBooks(c: Config, s: State)
    requires c.Valid() && Good(c, s) && Books(c, s) && s.buffer != []
    ensures Good(c, Enqueue(c, s)) && Books(c, Enqueue(c, s))
  {
    EnqueueGood(c, s);
    assert Homed(c, s.buffer[0]);
  }

  lemma EnqueueAccount(c: Config, s: State, t: State, k: Key)
    requires c.Valid() && Good(c, s) && Good(c, t) && Books(c, s) && s.buffer != [] && t == Enqueue(c, s)
    ensures AccountOf(c, t, k) == AccountOf(c, s, k)
  {
    SameSides(s, t, k);
    assert Homed(c, s.buffer[0]);
    EnqueueFlight(c, s, t, k);
  }

  lemma EnqueueFlight(c: Config, s: State, t: State, k: Key)
    requires c.Valid() && |s.cmds| == c.commandQueues && s.buffer != [] && Homed(c, s.buffer[0])
    requires c.commandQueueOf(s.buffer[0].bank) < |s.cmds|
    requires t.buffer == s.buffer[1..] && t.reading == s.reading && t.writing == s.writing
    requires var p := s.buffer[0];
             var j := c.commandQueueOf(p.bank);
             t.cmds == s.cmds[j := s.cmds[j] + [p.(arriveTime := s.clock)]]
    ensures Flight(c, t, k) == Flight(c, s, k)
  {
    var p := s.buffer[0];
    CountHead(s.buffer, k);
    CountSnoc(s.cmds[c.commandQueueOf(p.bank)], p.(arriveTime := s.clock), k);
    assert CommandQueueOf(c, k) < c.commandQueues;
  }

  lemma IssueBooks(c: Config, s: State, j: nat)
    requires c.Valid() && Good(c, s) && Books(c, s) && j < |s.cmds| && s.cmds[j] != []
    ensures Good(c, IssueHead(c, s, j)) && Books(c, IssueHead(c, s, j))
  {
    IssueGood(c, s, j);
  }

  lemma IssueAccount(c: Config, s: State, t: State, j: nat, k: Key)
    requires c.Valid() && Good(c, s) && Good(c, t) && Books(c, s) && j < |s.cmds| && s.cmds[j] != []
    requires t == IssueHead(c, s, j)
    ensures AccountOf(c, t, k) == AccountOf(c, s, k)
  {
    SameSides(s, t, k);
    var p := s.cmds[j][0];
    assert p in s.cmds[j] && Homed(c, p) && PacketOk(c, p);
    IssueTransit(s, t, p, k);
    IssueFlight(c, s, t, j, k);
  }

  lemma IssueTransit(s: State, t: State, p: Packet, k: Key)
    requires t.reading == s.reading + if p.kind == RD then [p.(kind := DATA)] else []
    requires t.writing == s.writing + if p.kind == WR then [p.(kind := DATA)] else []
    ensures Count(InTransit(t, k), k) == Count(InTransit(s, k), k) + if Carries(k, p) then 1 else 0
  {
    var cast := p.(kind := if k.isRead then RD else WR);
    if p.kind == cast.kind {
      assert InTransit(t, k) == InTransit(s, k) + [cast];
      CountSnoc(InTransit(s, k), cast, k);
    } else {
      assert InTransit(t, k) == InTransit(s, k);
    }
  }

  lemma IssueFlight(c: Config, s: State, t: State, j: nat, k: Key)
    requires c.Valid() && |s.cmds| == c.commandQueues && j < |s.cmds| && s.cmds[j] != []
    requires t.buffer == s.buffer && t.cmds == s.cmds[j := s.cmds[j][1..]]
    requires Homed(c, s.cmds[j][0]) && c.commandQueueOf(s.cmds[j][0].bank) == j
    requires Count(InTransit(t, k), k) == Count(InTransit(s, k), k) + if Carries(k, s.cmds[j][0]) then 1 else 0
    ensures Flight(c, t, k) == Flight(c, s, k)
  {
    CountHead(s.cmds[j], k);
    assert CommandQueueOf(c, k) < c.commandQueues;
  }

  // ---------- data arrives ----------

  lemma {:induction false} OfKeyIncreases(rs: seq<Request>, k: Key, i: nat, j: nat)
    requires forall n | 0 <= n < |rs| :: rs[n].serial == n
    requires i < j < |OfKey(rs, k)|
    ensures OfKey(rs, k)[i].serial < OfKey(rs, k)[j].serial < |rs|
  {
    var init := rs[..|rs| - 1];
    if j < |OfKey(init, k)| {
      OfKeyIncreases(init, k, i, j);
    } else {
      OfKeyIn(init, k);
      assert OfKey(init, k)[i] in init;
    }
  }

  /** What a pending list must satisfy for data packets to be credited to one request only. */
  ghost predicate Creditable(sizes: map<nat, nat>, pending: seq<Request>, isRead: bool) {
    && (forall r | r in pending :: r.isRead == isRead && r.serial in sizes)
    && (forall q, r | q in pending && r in pending :: q.serial == r.serial ==> q == r)
  }

  /** The first match of a packet is the first request of its key. */
  lemma FirstMatchIsFirst(pending: seq<Request>, p: Packet, k: Key)
    requires forall r | r in pending :: r.isRead == k.isRead
    requires k.requestor == p.requestor && k.address == p.address && OfKey(pending, k) != []
    ensures var n := FirstMatch(pending, p, 0);
            && n < |pending|
            && OfKey(pending, k) == [pending[n]] + OfKey(Without(pending, n), k)
  {
    var n := FirstMatch(pending, p, 0);
    OfKeyIn(pending, k);
    assert OfKey(pending, k)[0] in OfKey(pending, k);
    forall j | 0 <= j < n ensures !Owns(k, pending[j]) {
      assert !Answers(p, pending[j]);
    }
    if n == |pending| {
      OfKeyNone(pending, k);
    } else {
      assert pending[n] in pending && Owns(k, pending[n]);
      OfKeyWithout(pending, n, k);
    }
  }

  lemma AbsorbCases(width: nat, sizes: map<nat, nat>, pending: seq<Request>, p: Packet, isRead: bool)
    requires 0 < width < WORD && Creditable(sizes, pending, isRead)
    ensures var n := FirstMatch(pending, p, 0);
            n < |pending| ==>
              pending[n] in pending
              && Absorb(width, sizes, pending, p) ==
                 if sizes[pending[n].serial] == width then Absorbed(sizes, Without(pending, n), [pending[n]])
                 else Absorbed(sizes[pending[n].serial := Less(width, sizes[pending[n].serial])], pending, [])
  {
    var n := FirstMatch(pending, p, 0);
    assert n < |pending| ==> pending[n] in pending;
  }

  /** The packet is credited to the first pending request of its key. */
  lemma AbsorbOwn(width: nat, sizes: map<nat, nat>, pending: seq<Request>, p: Packet, k: Key)
    requires 0 < width < WORD && Creditable(sizes, pending, k.isRead)
    requires k.requestor == p.requestor && k.address == p.address && OfKey(pending, k) != []
    ensures var a, first := Absorb(width, sizes, pending, p), OfKey(pending, k)[0];
            && first in pending
            && (if sizes[first.serial] == width
                then a.completed == [first] && OfKey(a.pending, k) == OfKey(pending, k)[1..] && a.sizes == sizes
                else a.completed == [] && a.pending == pending
                     && a.sizes == sizes[first.serial := Less(width, sizes[first.serial])])
  {
    FirstMatchIsFirst(pending, p, k);
    AbsorbCases(width, sizes, pending, p, k.isRead);
  }

  /** `t` is `s` after data packet `p` has arrived at the head of its way. */
  ghost predicate Arrived(c: Config, s: State, t: State, p: Packet, isRead: bool)
    requires c.Valid() && Tracked(s)
  {
    var k := Key(p.requestor, p.address, isRead);
    var cast := p.(kind := if isRead then RD else WR);
    var a := Absorb(c.dataBus, s.sizes, Pending(s, k), p);
    && InTransit(s, k) == [cast] + InTransit(t, k)
    && InTransit(s, k.(isRead := !isRead)) == InTransit(t, k.(isRead := !isRead))
    && Pending(t, k) == a.pending && Pending(t, k.(isRead := !isRead)) == Pending(s, k.(isRead := !isRead))
    && t.sizes == a.sizes && t.done == s.done + a.completed && t.delivered == s.delivered + [cast]
    && t.accepted == s.accepted && t.queues == s.queues && t.buffer == s.buffer && t.cmds == s.cmds
  }

  lemma PendingIsCreditable(c: Config, s: State, k: Key)
    requires c.Valid() && Good(c, s) && Books(c, s)
    ensures Creditable(s.sizes, Pending(s, k), k.isRead)
  {
    forall q, r | q in Pending(s, k) && r in Pending(s, k) && q.serial == r.serial ensures q == r {
      assert Live(c, s, q) && Live(c, s, r);
    }
    assert forall r | r in Pending(s, k) :: Live(c, s, r);
  }

  lemma ArrivedFlight(c: Config, s: State, t: State, p: Packet, isRead: bool, k: Key)
    requires c.Valid() && Good(c, s) && Good(c, t) && Arrived(c, s, t, p, isRead)
    ensures var own := k == Key(p.requestor, p.address, isRead);
            && Flight(c, s, k) == Flight(c, t, k) + (if own then 1 else 0)
            && Count(t.delivered, k) == Count(s.delivered, k) + (if own then 1 else 0)
  {
    var cast := p.(kind := if isRead then RD else WR);
    CountSnoc(s.delivered, cast, k);
    if k.isRead == isRead {
      CountHead(InTransit(s, k), k);
      assert InTransit(s, k)[1..] == InTransit(t, k);
    }
  }

  /** `left` are the remaining sizes of the requests `pend`. */
  ghost predicate Lacking(sizes: map<nat, nat>, pend: seq<Request>, left: seq<nat>) {
    |left| == |pend| && forall i | 0 <= i < |left| :: Lacks(sizes, pend[i], left[i])
  }

  ghost predicate Lacks(sizes: map<nat, nat>, r: Request, n: nat) {
    r.serial in sizes && n == sizes[r.serial]
  }

  lemma LackLess(sizes: map<nat, nat>, pend: seq<Request>, left: seq<nat>, size: nat)
    requires pend != [] && Lacking(sizes, pend, left)
    requires forall i | 0 < i < |pend| :: pend[i].serial != pend[0].serial
    ensures Lacking(sizes[pend[0].serial := size], pend, left[0 := size])
  {
    forall i | 0 < i < |left| ensures Lacks(sizes[pend[0].serial := size], pend[i], left[i]) {
      assert Lacks(sizes, pend[i], left[i]);
    }
  }

  /** What arrives is credited to the oldest pending request of its key. */
  lemma CreditOwn(width: nat, sizes: map<nat, nat>, pending: seq<Request>, done: seq<Request>, p: Packet, k: Key,
                  left: seq<nat>)
    requires 0 < width < WORD && Creditable(sizes, pending, k.isRead)
    requires k == Key(p.requestor, p.address, k.isRead) && OfKey(pending, k) != []
    requires forall i | 0 < i < |OfKey(pending, k)| :: OfKey(pending, k)[i].serial != OfKey(pending, k)[0].serial
    requires Lacking(sizes, OfKey(pending, k), left)
    ensures var a, pend := Absorb(width, sizes, pending, p), OfKey(pending, k);
            && OfKey(a.pending, k) == (if left[0] == width then pend[1..] else pend)
            && OfKey(done + a.completed, k) == OfKey(done, k) + (if left[0] == width then [pend[0]] else [])
            && Lacking(a.sizes, OfKey(a.pending, k),
                       if left[0] == width then left[1..] else left[0 := Less(width, left[0])])
  {
    var pend := OfKey(pending, k);
    AbsorbOwn(width, sizes, pending, p, k);
    assert Lacks(sizes, pend[0], left[0]);
    if left[0] == width {
      OfKeyIn(pending, k);
      assert pend[0] in pend;
      OfKeySnoc(done, pend[0], k);
      forall i | 0 <= i < |left| - 1 ensures Lacks(sizes, pend[1..][i], left[1..][i]) {
        assert Lacks(sizes, pend[i + 1], left[i + 1]);
      }
    } else {
      assert done + [] == done;
      LackLess(sizes, pend, left, Less(width, left[0]));
    }
  }

  ghost predicate Credited(width: nat, s: State, t: State, k: Key)
    requires width < WORD && Tracked(s) && Tracked(t)
  {
    var left, pend := Left(s, k), OfKey(Pending(s, k), k);
    && pend != []
    && OfKey(Pending(t, k), k) == (if left[0] == width then pend[1..] else pend)
    && OfKey(t.done, k) == OfKey(s.done, k) + (if left[0] == width then [pend[0]] else [])
    && Left(t, k) == (if left[0] == width then left[1..] else left[0 := Less(width, left[0])])
  }

  lemma LeftIs(s: State, k: Key, left: seq<nat>)
    requires Tracked(s) && Lacking(s.sizes, OfKey(Pending(s, k), k), left)
    ensures Left(s, k) == left
  {
    forall i | 0 <= i < |left| ensures Left(s, k)[i] == left[i] {
      assert Lacks(s.sizes, OfKey(Pending(s, k), k)[i], left[i]);
    }
  }

  lemma ArrivedIsCredited(c: Config, s: State, t: State, p: Packet, k: Key)
    requires c.Valid() && Tracked(s) && Tracked(t) && Creditable(s.sizes, Pending(s, k), k.isRead)
    requires var a := Absorb(c.dataBus, s.sizes, Pending(s, k), p);
             Pending(t, k) == a.pending && t.sizes == a.sizes && t.done == s.done + a.completed
    requires k == Key(p.requestor, p.address, k.isRead) && OfKey(Pending(s, k), k) != []
    requires forall i | 0 < i < |OfKey(Pending(s, k), k)| ::
               OfKey(Pending(s, k), k)[i].serial != OfKey(Pending(s, k), k)[0].serial
    ensures Credited(c.dataBus, s, t, k)
  {
    OfKeyIn(Pending(s, k), k);
    var left := Left(s, k);
    CreditOwn(c.dataBus, s.sizes, Pending(s, k), s.done, p, k, left);
    LeftIs(t, k, if left[0] == c.dataBus then left[1..] else left[0 := Less(c.dataBus, left[0])]);
  }

  lemma ArrivedOwn(c: Config, s: State, t: State, p: Packet, k: Key)
    requires c.Valid() && Good(c, s) && Good(c, t) && Books(c, s) && Arrived(c, s, t, p, k.isRead)
    requires k == Key(p.requestor, p.address, k.isRead)
    requires Balanced(c.dataBus, AccountOf(c, s, k)) && Flight(c, s, k) > 0
    ensures OfKey(Pending(s, k), k) != []
    ensures AccountOf(c, t, k) == Deliver(c.dataBus, AccountOf(c, s, k))
  {
    InFlightIsPending(c.dataBus, AccountOf(c, s, k));
    OtherSerials(c, s, AccountOf(c, s, k), k);
    PendingIsCreditable(c, s, k);
    ArrivedIsCredited(c, s, t, p, k);
    ArrivedFlight(c, s, t, p, k.isRead, k);
    DeliverParts(c.dataBus, AccountOf(c, s, k), AccountOf(c, t, k));
  }

  lemma DeliverParts(width: nat, v: Account, w: Account)
    requires width < WORD && v.pend != [] && |v.left| == |v.pend| && v.flight == w.flight + 1
    requires w.pend == (if v.left[0] == width then v.pend[1..] else v.pend)
    requires w.done == v.done + (if v.left[0] == width then [v.pend[0]] else [])
    requires w.left == (if v.left[0] == width then v.left[1..] else v.left[0 := Less(width, v.left[0])])
    requires w.accepted == v.accepted && w.queued == v.queued && w.delivered == v.delivered + 1
    ensures w == Deliver(width, v)
  {
    assert v.done + [] == v.done;
  }

  /** Within a balanced account, no two pending requests have the same serial. */
  lemma OtherSerials(c: Config, s: State, v: Account, k: Key)
    requires c.Valid() && Good(c, s) && Books(c, s) && v == AccountOf(c, s, k) && Balanced(c.dataBus, v)
    ensures forall i | 0 < i < |v.pend| :: v.pend[i].serial != v.pend[0].serial
  {
    forall n | 0 <= n < |s.accepted| ensures s.accepted[n].serial == n {
      assert Accepted(c, s.accepted[n], n);
    }
    forall i | 0 < i < |v.pend| ensures v.pend[i].serial != v.pend[0].serial {
      assert v.pend[i] == v.accepted[|v.done| + i] && v.pend[0] == v.accepted[|v.done|];
      OfKeyIncreases(s.accepted, k, |v.done|, |v.done| + i);
    }
  }

  /** Only the credited request changes size and leaves its list, so other accounts stay. */
  lemma CreditOther(width: nat, sizes: map<nat, nat>, pending: seq<Request>, done: seq<Request>, p: Packet,
                    isRead: bool, k: Key)
    requires 0 < width < WORD && Creditable(sizes, pending, isRead)
    requires k != Key(p.requestor, p.address, isRead)
    ensures var a := Absorb(width, sizes, pending, p);
            && OfKey(a.pending, k) == OfKey(pending, k)
            && OfKey(done + a.completed, k) == OfKey(done, k)
            && (a.sizes == sizes
                || exists r | r in pending && !Owns(k, r) :: a.sizes == sizes[r.serial := Less(width, sizes[r.serial])])
  {
    var n := FirstMatch(pending, p, 0);
    AbsorbCases(width, sizes, pending, p, isRead);
    if n < |pending| {
      assert !Owns(k, pending[n]);
      OfKeyWithout(pending, n, k);
      assert [] + OfKey(Without(pending, n), k) == OfKey(Without(pending, n), k);
      OfKeySnoc(done, pending[n], k);
    }
    assert done + [] == done && OfKey(done, k) + [] == OfKey(done, k);
  }

  lemma OtherLeft(c: Config, s: State, t: State, k: Key, changed: Request)
    requires c.Valid() && Good(c, s) && Tracked(t) && Books(c, s) && Live(c, s, changed) && !Owns(k, changed)
    requires OfKey(Pending(t, k), k) == OfKey(Pending(s, k), k)
    requires forall n | n in s.sizes && n != changed.serial :: n in t.sizes && t.sizes[n] == s.sizes[n]
    ensures Left(t, k) == Left(s, k)
  {
    OfKeyIn(Pending(s, k), k);
    forall x | x in OfKey(Pending(s, k), k) ensures x.serial in t.sizes && t.sizes[x.serial] == s.sizes[x.serial] {
      assert x in Pending(s, k) && Live(c, s, x);
    }
  }

  lemma ArrivedOtherLeft(c: Config, s: State, t: State, k: Key, d: Key)
    requires c.Valid() && Good(c, s) && Tracked(t) && Books(c, s)
    requires OfKey(Pending(t, k), k) == OfKey(Pending(s, k), k)
    requires t.sizes == s.sizes
             || exists r | r in Pending(s, d) && !Owns(k, r) ::
               t.sizes == s.sizes[r.serial := Less(c.dataBus, s.sizes[r.serial])]
    ensures Left(t, k) == Left(s, k)
  {
    if t.sizes != s.sizes {
      var r :| r in Pending(s, d) && !Owns(k, r) && t.sizes == s.sizes[r.serial := Less(c.dataBus, s.sizes[r.serial])];
      OtherLeft(c, s, t, k, r);
    }
  }

  lemma ArrivedOther(c: Config, s: State, t: State, p: Packet, isRead: bool, k: Key)
    requires c.Valid() && Good(c, s) && Good(c, t) && Books(c, s) && Arrived(c, s, t, p, isRead)
    requires k != Key(p.requestor, p.address, isRead)
    ensures AccountOf(c, t, k) == AccountOf(c, s, k)
  {
    var d := Key(p.requestor, p.address, isRead);
    PendingIsCreditable(c, s, d);
    CreditOther(c.dataBus, s.sizes, Pending(s, d), s.done, p, isRead, k);
    ArrivedOtherLeft(c, s, t, k, d);
    ArrivedFlight(c, s, t, p, isRead, k);
  }

  // ---------- every part of a cycle conserves ----------

  lemma StartConserved(c: Config)
    requires c.Valid()
    ensures Good(c, Start(c)) && Conserved(c, Start(c))
  {
    var s := Start(c);
    assert forall r: Request | r in s.pendingRead :: false;
    forall k ensures Balanced(c.dataBus, AccountOf(c, s, k)) {
      assert RequestQueueOf(c, k) < c.requestQueues && CommandQueueOf(c, k) < c.commandQueues;
      assert Flight(c, s, k) == 0;
      NothingYet(c.dataBus, AccountOf(c, s, k));
    }
  }

  lemma AddConserved(c: Config, s: State, requestor: nat, address: nat, isRead: bool, size: nat)
    requires c.Valid() && Good(c, s) && Conserved(c, s) && size < WORD
    ensures Good(c, AddRequest(c, s, requestor, address, isRead, size))
    ensures Conserved(c, AddRequest(c, s, requestor, address, isRead, size))
  {
    AddBooks(c, s, requestor, address, isRead, size);
    var t := AddRequest(c, s, requestor, address, isRead, size);
    var r := NewRequest(c, s, requestor, address, isRead, size);
    assert c.requestQueueOf(r.place) < c.requestQueues;
    forall k ensures Balanced(c.dataBus, AccountOf(c, t, k)) {
      AddAccount(c, s, t, r, k);
      if Owns(k, r) {
        AddBalanced(c.dataBus, AccountOf(c, s, k), r);
      }
    }
  }

  lemma ExpandConserved(c: Config, s: State, i: nat, n: nat)
    requires c.Valid() && Good(c, s) && Conserved(c, s) && i < |s.queues| && n < |s.queues[i]|
    requires var r := s.queues[i][n]; r.place.bank < 8 && r.place.bank < c.banks && r.serial in s.sizes
    requires forall j | 0 <= j < n :: !SameRow(s.queues[i][j].place, s.queues[i][n].place)
    ensures Good(c, Expand(c, s, i, n)) && Conserved(c, Expand(c, s, i, n))
  {
    ExpandBooks(c, s, i, n);
    var t := Expand(c, s, i, n);
    forall k ensures Balanced(c.dataBus, AccountOf(c, t, k)) {
      ExpandAccount(c, s, t, i, n, k);
      if Owns(k, s.queues[i][n]) {
        LaunchBalanced(c.dataBus, AccountOf(c, s, k));
      }
    }
  }

  lemma ScheduleConserved(c: Config, s: State, i: nat)
    requires c.Valid() && Good(c, s) && Conserved(c, s) && i < |s.queues|
    ensures Good(c, Schedule(c, s, i)) && Conserved(c, Schedule(c, s, i))
  {
    if s.queues[i] != [] {
      var n := FirstReady(s.bankTable, s.queues[i], 0);
      InQueue(c, s, i, n);
      forall j | 0 <= j < n ensures !SameRow(s.queues[i][j].place, s.queues[i][n].place) {
        FirstReadyIsFirst(s.bankTable, s.queues[i], 0, j);
      }
      ExpandConserved(c, s, i, n);
    }
  }

  lemma EnqueueConserved(c: Config, s: State)
    requires c.Valid() && Good(c, s) && Conserved(c, s) && s.buffer != []
    ensures Good(c, Enqueue(c, s)) && Conserved(c, Enqueue(c, s))
  {
    EnqueueBooks(c, s);
    forall k ensures Balanced(c.dataBus, AccountOf(c, Enqueue(c, s), k)) {
      EnqueueAccount(c, s, Enqueue(c, s), k);
    }
  }

  lemma IssueConserved(c: Config, s: State, j: nat)
    requires c.Valid() && Good(c, s) && Conserved(c, s) && j < |s.cmds| && s.cmds[j] != []
    ensures Good(c, IssueHead(c, s, j)) && Conserved(c, IssueHead(c, s, j))
  {
    IssueBooks(c, s, j);
    forall k ensures Balanced(c.dataBus, AccountOf(c, IssueHead(c, s, j), k)) {
      IssueAccount(c, s, IssueHead(c, s, j), j, k);
    }
  }

  lemma ArrivedLive(c: Config, s: State, t: State, p: Packet, isRead: bool, r: Request)
    requires c.Valid() && Good(c, s) && Good(c, t) && Books(c, s) && Arrived(c, s, t, p, isRead) && Live(c, s, r)
    ensures Live(c, t, r)
  {
    var d := Key(p.requestor, p.address, isRead);
    PendingIsCreditable(c, s, d);
    AbsorbCases(c.dataBus, s.sizes, Pending(s, d), p, isRead);
  }

  lemma ArrivedPending(c: Config, s: State, t: State, p: Packet, isRead: bool)
    requires c.Valid() && Good(c, s) && Books(c, s) && Arrived(c, s, t, p, isRead)
    ensures forall r | r in t.pendingRead :: r in s.pendingRead
    ensures forall r | r in t.pendingWrite :: r in s.pendingWrite
  {
    var d := Key(p.requestor, p.address, isRead);
    PendingIsCreditable(c, s, d);
    AbsorbCases(c.dataBus, s.sizes, Pending(s, d), p, isRead);
    assert forall r | r in Pending(t, d) :: r in Pending(s, d);
  }

  lemma ArrivedLives(c: Config, s: State, t: State, p: Packet, isRead: bool)
    requires c.Valid() && Good(c, s) && Good(c, t) && Books(c, s) && Arrived(c, s, t, p, isRead)
    ensures forall r | r in t.pendingRead :: Live(c, t, r) && r.isRead
    ensures forall r | r in t.pendingWrite :: Live(c, t, r) && !r.isRead
  {
    ArrivedPending(c, s, t, p, isRead);
    forall r | r in t.pendingRead ensures Live(c, t, r) && r.isRead {
      ArrivedLive(c, s, t, p, isRead, r);
    }
    forall r | r in t.pendingWrite ensures Live(c, t, r) && !r.isRead {
      ArrivedLive(c, s, t, p, isRead, r);
    }
  }

  lemma ArrivedBooks(c: Config, s: State, t: State, p: Packet, isRead: bool)
    requires c.Valid() && Good(c, s) && Good(c, t) && Books(c, s) && Arrived(c, s, t, p, isRead)
    ensures Books(c, t)
  {
    ArrivedLives(c, s, t, p, isRead);
  }

  lemma ArrivedConserved(c: Config, s: State, t: State, p: Packet, isRead: bool)
    requires c.Valid() && Good(c, s) && Good(c, t) && Conserved(c, s) && Arrived(c, s, t, p, isRead)
    ensures Conserved(c, t)
  {
    ArrivedBooks(c, s, t, p, isRead);
    forall k ensures Balanced(c.dataBus, AccountOf(c, t, k)) {
      if k == Key(p.requestor, p.address, isRead) {
        ArrivedFlight(c, s, t, p, isRead, k);
        DeliverBalanced(c.dataBus, AccountOf(c, s, k));
        ArrivedOwn(c, s, t, p, k);
      } else {
        ArrivedOther(c, s, t, p, isRead, k);
      }
    }
  }

  /** Countdowns are not part of any account. */
  lemma SameAccounts(c: Config, s: State, t: State)
    requires c.Valid() && Good(c, s) && Good(c, t) && Conserved(c, s)
    requires t == s.(clock := t.clock, timers := t.timers, readCycles := t.readCycles, writeCounters := t.writeCounters)
    ensures Conserved(c, t)
  {
    assert forall r | r in t.pendingRead :: Live(c, s, r);
    assert forall r | r in t.pendingWrite :: Live(c, s, r);
    forall k ensures Balanced(c.dataBus, AccountOf(c, t, k)) {
      assert Balanced(c.dataBus, AccountOf(c, s, k));
      SameSides(s, t, k);
      SameFlight(c, s, t, k);
      assert Queued(c, t, k) == Queued(c, s, k);
    }
  }

  lemma CastsHead(ps: seq<Packet>, isRead: bool)
    requires ps != []
    ensures Casts(ps, isRead) == [ps[0].(kind := if isRead then RD else WR)] + Casts(ps[1..], isRead)
  {
  }

  lemma WriteStageArrived(c: Config, s: State)
    requires c.Valid() && Good(c, s) && s.writing != [] && s.writeCounters[0] == 0
    ensures Arrived(c, s, WriteStage(c, s), s.writing[0], false)
  {
    var p, t := s.writing[0], WriteStage(c, s);
    CastsHead(s.writing, false);
    assert t.writing == s.writing[1..] && t.reading == s.reading;
  }

  lemma WriteStageConserved(c: Config, s: State)
    requires c.Valid() && Good(c, s) && Conserved(c, s)
    ensures Good(c, WriteStage(c, s)) && Conserved(c, WriteStage(c, s))
  {
    WriteStageGood(c, s);
    if s.writing != [] {
      if s.writeCounters[0] == 0 {
        WriteStageArrived(c, s);
        ArrivedConserved(c, s, WriteStage(c, s), s.writing[0], false);
      } else {
        SameAccounts(c, s, WriteStage(c, s));
      }
    }
  }

  lemma ReadStageArrived(c: Config, s: State)
    requires c.Valid() && Good(c, s) && s.reading != [] && Each(CountDown, s.readCycles)[0] == 0
    ensures Arrived(c, s, ReadStage(c, s), s.reading[0], true)
  {
    CastsHead(s.reading, true);
  }

  lemma ReadStageConserved(c: Config, s: State)
    requires c.Valid() && Good(c, s) && Conserved(c, s)
    ensures Good(c, ReadStage(c, s)) && Conserved(c, ReadStage(c, s))
  {
    ReadStageGood(c, s);
    if s.reading != [] {
      if Each(CountDown, s.readCycles)[0] == 0 {
        ReadStageArrived(c, s);
        ArrivedConserved(c, s, ReadStage(c, s), s.reading[0], true);
      } else {
        SameAccounts(c, s, ReadStage(c, s));
      }
    }
  }

  ghost predicate Kept(c: Config, s: State) {
    c.Valid() && Good(c, s) && Conserved(c, s)
  }

  lemma ScheduleOne(c: Config, s: State, t: State, i: nat)
    requires Kept(c, s) && i < |s.queues| && t == Schedule(c, s, i)
    ensures Kept(c, t)
  {
    ScheduleConserved(c, s, i);
  }

  lemma ScheduleNext(c: Config, s: State, n: nat)
    requires c.Valid() && Good(c, s) && 0 < n <= |s.queues| && Kept(c, ScheduleAll(c, s, n - 1))
    ensures Kept(c, ScheduleAll(c, s, n))
  {
    ScheduleOne(c, ScheduleAll(c, s, n - 1), ScheduleAll(c, s, n), n - 1);
  }

  lemma {:induction false} ScheduleAllConserved(c: Config, s: State, n: nat)
    requires Kept(c, s) && n <= |s.queues|
    ensures Kept(c, ScheduleAll(c, s, n))
  {
    if n > 0 {
      ScheduleAllConserved(c, s, n - 1);
      ScheduleNext(c, s, n);
    }
  }

  lemma {:induction false} EnqueueAllConserved(c: Config, s: State)
    requires c.Valid() && Good(c, s) && Conserved(c, s)
    ensures Conserved(c, EnqueueAll(c, s))
    decreases |s.buffer|
  {
    if s.buffer != [] {
      EnqueueConserved(c, s);
      EnqueueAllConserved(c, Enqueue(c, s));
    }
  }

  lemma FinishConserved(c: Config, s: State, pick: Option<nat>)
    requires c.Valid() && Good(c, s) && Conserved(c, s) && (pick.Some? ==> Ready(c, s, pick.value))
    ensures Conserved(c, Finish(c, s, pick))
  {
    if pick.Some? {
      IssueConserved(c, s, pick.value);
    }
    var issued := IssuePicked(c, s, pick);
    WriteStageConserved(c, issued);
    SameAccounts(c, WriteStage(c, issued), Tick(WriteStage(c, issued)));
    ReadStageConserved(c, Tick(WriteStage(c, issued)));
  }
}
