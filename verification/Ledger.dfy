/** The account of one requestor's requests to one address.

    All requests with the same requestor, address and direction share one account, because a data packet
    names no request: it is credited to the first pending request that it matches.  A request is called
    back by the packet that finds exactly one bus width missing; any other packet lowers the remaining
    size, which is an unsigned word and wraps.  Nothing here assumes that sizes are whole bus widths.
  */
module Ledger {
  import opened Numbers
  import opened Packets

  /** `pend` are the requests not called back yet, `left` their remaining sizes, `queued` those of them that
      have generated no commands yet; `flight` counts column commands and data packets on their way,
      `delivered` the data packets that have arrived. */
  datatype Account = Account(
    accepted: seq<Request>, done: seq<Request>, pend: seq<Request>, left: seq<nat>,
    queued: seq<Request>, flight: nat, delivered: nat)

  function Sum(q: seq<nat>): nat {
    if q == [] then 0 else Sum(q[..|q| - 1]) + q[|q| - 1]
  }

  /** How many column commands a request generates. */
  function Need(width: nat, r: Request): nat
    requires 0 < width
  {
    Hi(r.size, width)
  }

  function Needs(width: nat, rs: seq<Request>): (q: seq<nat>)
    requires 0 < width
    ensures |q| == |rs| && forall i | 0 <= i < |rs| :: q[i] == Need(width, rs[i])
  {
    seq(|rs|, i requires 0 <= i < |rs| => Need(width, rs[i]))
  }

  // ---------- the remaining size ----------

  /** What `n` packets bring, as an unsigned word. */
  function Moved(width: nat, n: nat): (r: nat)
    ensures r < WORD
  {
    Glue(n, width, 0) % WORD
  }

  /** The remaining size after one more packet. */
  function Less(width: nat, size: nat): nat
    requires width < WORD
  {
    (size + WORD - width) % WORD
  }

  function Rest(width: nat, size: nat, n: nat): nat
    requires width < WORD
  {
    if n == 0 then size else Less(width, Rest(width, size, n - 1))
  }

  /** The first `n` packets have not called back a request of this size. */
  ghost predicate Waits(width: nat, size: nat, n: nat) {
    forall i: nat | 0 < i <= n :: Moved(width, i) != size
  }

  /** Packet `n` is the one that calls back a request of this size. */
  ghost predicate Takes(width: nat, size: nat, n: nat) {
    0 < n && Moved(width, n) == size && Waits(width, size, n - 1)
  }

  lemma ModuloAdd(a: nat, b: nat)
    ensures (a + b) % WORD == (a % WORD + b) % WORD
  {
  }

  lemma MovedNext(width: nat, n: nat)
    ensures Moved(width, n + 1) == (Moved(width, n) + width) % WORD
  {
    Distribute(n, 1, width);
    ModuloAdd(Glue(n, width, 0), width);
  }

  lemma Wrapped(x: nat)
    requires x < 2 * WORD
    ensures x % WORD == if x < WORD then x else x - WORD
  {
  }

  /** A packet moves its bytes from the rest to what has been moved. */
  lemma OneMoves(rest: nat, moved: nat, width: nat)
    requires rest < WORD && moved < WORD && width < WORD
    ensures (Less(width, rest) + (moved + width) % WORD) % WORD == (rest + moved) % WORD
  {
    Wrapped(rest + WORD - width);
    Wrapped(moved + width);
    Wrapped(rest + moved);
    Wrapped(Less(width, rest) + (moved + width) % WORD);
  }

  lemma {:induction false} RestIs(width: nat, size: nat, n: nat)
    requires width < WORD && size < WORD
    ensures Rest(width, size, n) < WORD && (Rest(width, size, n) + Moved(width, n)) % WORD == size
  {
    if n > 0 {
      RestIs(width, size, n - 1);
      MovedNext(width, n - 1);
      OneMoves(Rest(width, size, n - 1), Moved(width, n - 1), width);
    } else {
      Wrapped(size);
    }
  }

  /** A packet finds one bus width missing exactly if it is the one that brings the size. */
  lemma LastIff(width: nat, size: nat, n: nat)
    requires width < WORD && size < WORD
    ensures Rest(width, size, n) == width <==> Moved(width, n + 1) == size
  {
    RestIs(width, size, n);
    MovedNext(width, n);
    Wrapped(Rest(width, size, n) + Moved(width, n));
    Wrapped(Moved(width, n) + width);
  }

  /** The size is a positive multiple of the bus width. */
  predicate Whole(width: nat, size: nat)
    requires 0 < width
  {
    0 < size < WORD && Lo(size, width) == 0
  }

  lemma TakesAtLeast(width: nat, size: nat, n: nat)
    requires 0 < width < WORD && Takes(width, size, n)
    ensures Hi(size, width) <= n
  {
    Divided(size, width);
    var h := Hi(size, width);
    if n < h {
      Distribute(h - n, n, width);
      ProductSign(h - n - 1, width);
      Distribute(h - n, 1, width);
    }
  }

  lemma TakesOnce(width: nat, size: nat, m: nat, n: nat)
    requires Takes(width, size, m) && Takes(width, size, n)
    ensures m == n
  {
  }

  /** A whole size takes exactly its number of bus widths. */
  lemma WholeTakes(width: nat, size: nat)
    requires 0 < width < WORD && Whole(width, size)
    ensures Takes(width, size, Hi(size, width))
  {
    Divided(size, width);
    var n := Hi(size, width);
    forall i: nat | 0 < i <= n - 1 ensures Moved(width, i) != size {
      Distribute(n - i, i, width);
      ProductSign(n - i - 1, width);
      Distribute(n - i, 1, width);
    }
  }

  /** As long as the packets do not overflow a word, only a whole size is ever called back. */
  lemma TakesIsWhole(width: nat, size: nat, n: nat)
    requires 0 < width < WORD && Takes(width, size, n) && Glue(n, width, 0) < WORD
    ensures Whole(width, size) && n == Hi(size, width)
  {
    Glued(n, width, 0);
    ProductSign(n - 1, width);
    Distribute(n, 1, width);
  }

  /** Without that bound the remaining size may wrap: a request of size 0 on a bus of 64 bytes is called back by the
      packet that completes a whole word. */
  lemma ZeroWraps()
    ensures Takes(64, 0, 0x400_0000) && !Whole(64, 0)
  {
    assert Glue(0x400_0000, 64, 0) == WORD;
    forall i: nat | 0 < i <= 0x3ff_ffff ensures Moved(64, i) != 0 {
      assert 0 < Glue(i, 64, 0) < WORD;
    }
  }

  // ---------- balance ----------

  /** `took` says how many packets each finished request took, `m` how many the first pending one has had.
      Only that one has had any; nobody has had the packet that calls it back and is still pending. */
  ghost predicate BalancedBy(width: nat, v: Account, took: seq<nat>, m: nat)
    requires 0 < width < WORD
  {
    && v.accepted == v.done + v.pend
    && (forall i | 0 <= i < |v.accepted| :: v.accepted[i].size < WORD)
    && |v.left| == |v.pend|
    && |v.queued| <= |v.pend| && v.pend[|v.pend| - |v.queued|..] == v.queued
    && Taken(width, v.done, took)
    && (forall i | 0 < i < |v.pend| :: v.left[i] == v.pend[i].size)
    && (if v.pend == [] then m == 0
        else v.left[0] == Rest(width, v.pend[0].size, m) && Waits(width, v.pend[0].size, m))
    && v.delivered == Sum(took) + m
    && v.delivered + v.flight == Sum(Needs(width, Launched(v)))
  }

  /** Request `i` is called back by its packet `took[i]`. */
  ghost predicate Taken(width: nat, rs: seq<Request>, took: seq<nat>) {
    |took| == |rs| && forall i | 0 <= i < |rs| :: Takes(width, rs[i].size, took[i])
  }

  /** The requests that have generated their commands. */
  function Launched(v: Account): seq<Request> {
    if |v.queued| <= |v.accepted| then v.accepted[..|v.accepted| - |v.queued|] else []
  }

  ghost predicate Balanced(width: nat, v: Account)
    requires 0 < width < WORD
  {
    exists took, m :: BalancedBy(width, v, took, m)
  }

  // ---------- what can happen to an account ----------

  function Add(v: Account, r: Request): Account {
    v.(accepted := v.accepted + [r], pend := v.pend + [r], left := v.left + [r.size], queued := v.queued + [r])
  }

  /** The first queued request generates its column commands. */
  function Launch(width: nat, v: Account): Account
    requires 0 < width && v.queued != []
  {
    v.(queued := v.queued[1..], flight := v.flight + Need(width, v.queued[0]))
  }

  /** One data packet arrives. */
  function Deliver(width: nat, v: Account): Account
    requires width < WORD && v.flight > 0 && v.pend != [] && |v.left| == |v.pend|
  {
    var w := v.(flight := v.flight - 1, delivered := v.delivered + 1);
    if v.left[0] == width then w.(done := v.done + [v.pend[0]], pend := v.pend[1..], left := v.left[1..])
    else w.(left := v.left[0 := Less(width, v.left[0])])
  }

  // ---------- sums ----------

  lemma {:induction false} SumAppend(p: seq<nat>, q: seq<nat>)
    ensures Sum(p + q) == Sum(p) + Sum(q)
  {
    if q == [] {
      assert p + q == p;
    } else {
      assert (p + q)[..|p + q| - 1] == p + q[..|q| - 1];
      SumAppend(p, q[..|q| - 1]);
    }
  }

  lemma SumSnoc(q: seq<nat>, x: nat)
    ensures Sum(q + [x]) == Sum(q) + x
  {
    assert (q + [x])[..|q|] == q;
  }

  lemma SumPrefix(q: seq<nat>, i: nat)
    requires i <= |q|
    ensures Sum(q[..i]) <= Sum(q)
  {
    assert q == q[..i] + q[i..];
    SumAppend(q[..i], q[i..]);
  }

  lemma {:induction false} SumOrder(p: seq<nat>, q: seq<nat>)
    requires |p| == |q| && forall i | 0 <= i < |p| :: p[i] <= q[i]
    ensures Sum(p) <= Sum(q)
  {
    if p != [] {
      SumOrder(p[..|p| - 1], q[..|q| - 1]);
    }
  }

  lemma NeedsAppend(width: nat, p: seq<Request>, q: seq<Request>)
    requires 0 < width
    ensures Needs(width, p + q) == Needs(width, p) + Needs(width, q)
  {
  }

  /** A finished request has had at least as many packets as it generated commands. */
  lemma TookEnough(width: nat, rs: seq<Request>, took: seq<nat>)
    requires 0 < width < WORD && Taken(width, rs, took)
    ensures Sum(Needs(width, rs)) <= Sum(took)
  {
    forall i | 0 <= i < |rs| ensures Needs(width, rs)[i] <= took[i] {
      TakesAtLeast(width, rs[i].size, took[i]);
    }
    SumOrder(Needs(width, rs), took);
  }

  // ---------- every event keeps the account balanced ----------

  lemma AddBalanced(width: nat, v: Account, r: Request)
    requires 0 < width < WORD && Balanced(width, v) && r.size < WORD
    ensures Balanced(width, Add(v, r))
  {
    var took, m :| BalancedBy(width, v, took, m);
    AddSplit(v, r);
    AddBy(width, v, took, m, r);
  }

  lemma AddSplit(v: Account, r: Request)
    requires v.accepted == v.done + v.pend
    requires |v.queued| <= |v.pend| && v.pend[|v.pend| - |v.queued|..] == v.queued
    ensures var w := Add(v, r);
            && w.accepted == w.done + w.pend
            && w.pend[|w.pend| - |w.queued|..] == w.queued
            && Launched(w) == Launched(v)
  {
    var w := Add(v, r);
    assert w.pend[|w.pend| - |w.queued|..] == v.pend[|v.pend| - |v.queued|..] + [r];
  }

  lemma AddBy(width: nat, v: Account, took: seq<nat>, m: nat, r: Request)
    requires 0 < width < WORD && BalancedBy(width, v, took, m) && r.size < WORD
    requires var w := Add(v, r);
             && w.accepted == w.done + w.pend
             && w.pend[|w.pend| - |w.queued|..] == w.queued
             && Launched(w) == Launched(v)
    ensures BalancedBy(width, Add(v, r), took, m)
  {
  }

  lemma NothingYet(width: nat, v: Account)
    requires 0 < width < WORD && v == Account([], [], [], [], [], 0, 0)
    ensures Balanced(width, v)
  {
    assert BalancedBy(width, v, [], 0);
  }

  /** If every pending request is still queued, nothing is on its way and nothing has been credited to them. */
  lemma AllQueued(width: nat, v: Account, took: seq<nat>, m: nat)
    requires 0 < width < WORD && BalancedBy(width, v, took, m) && |v.queued| == |v.pend|
    ensures m == 0 && v.flight == 0
  {
    TookEnough(width, v.done, took);
    assert Launched(v) == v.done;
  }

  /** A queued request still has its full size. */
  lemma QueuedIsFull(width: nat, v: Account)
    requires 0 < width < WORD && Balanced(width, v) && v.queued != []
    ensures |v.queued| <= |v.pend| == |v.left|
    ensures v.pend[|v.pend| - |v.queued|] == v.queued[0] && v.left[|v.pend| - |v.queued|] == v.queued[0].size
  {
    var took, m :| BalancedBy(width, v, took, m);
    assert v.queued[0] == v.pend[|v.pend| - |v.queued|..][0];
    if |v.queued| == |v.pend| {
      AllQueued(width, v, took, m);
    }
  }

  lemma LaunchBalanced(width: nat, v: Account)
    requires 0 < width < WORD && Balanced(width, v) && v.queued != []
    ensures Balanced(width, Launch(width, v))
  {
    var took, m :| BalancedBy(width, v, took, m);
    var w := Launch(width, v);
    var a := |v.pend| - |v.queued|;
    assert v.queued[0] == v.pend[a..][0];
    assert w.pend[a + 1..] == v.pend[a..][1..];
    assert Launched(w) == Launched(v) + [v.queued[0]];
    NeedsAppend(width, Launched(v), [v.queued[0]]);
    assert Needs(width, [v.queued[0]]) == [Need(width, v.queued[0])];
    SumSnoc(Needs(width, Launched(v)), Need(width, v.queued[0]));
    assert BalancedBy(width, w, took, m);
  }

  lemma InFlightIsPending(width: nat, v: Account)
    requires 0 < width < WORD && Balanced(width, v) && v.flight > 0
    ensures |v.queued| < |v.pend| == |v.left|
  {
    var took, m :| BalancedBy(width, v, took, m);
    if |v.queued| == |v.pend| {
      AllQueued(width, v, took, m);
    }
  }

  lemma CompleteBalanced(width: nat, v: Account, took: seq<nat>, m: nat)
    requires 0 < width < WORD && BalancedBy(width, v, took, m) && v.flight > 0
    requires |v.queued| < |v.pend| && v.left[0] == width
    ensures BalancedBy(width, Deliver(width, v), took + [m + 1], 0)
  {
    var w := Deliver(width, v);
    assert v.accepted[|v.done|] == v.pend[0];
    LastIff(width, v.pend[0].size, m);
    assert v.pend == [v.pend[0]] + v.pend[1..];
    assert w.accepted == w.done + w.pend;
    assert w.pend[|w.pend| - |w.queued|..] == v.pend[|v.pend| - |v.queued|..];
    assert Launched(w) == Launched(v);
    SumSnoc(took, m + 1);
  }

  lemma PartialBalanced(width: nat, v: Account, took: seq<nat>, m: nat)
    requires 0 < width < WORD && BalancedBy(width, v, took, m) && v.flight > 0
    requires |v.queued| < |v.pend| && v.left[0] != width
    ensures BalancedBy(width, Deliver(width, v), took, m + 1)
  {
    var w := Deliver(width, v);
    assert v.accepted[|v.done|] == v.pend[0];
    LastIff(width, v.pend[0].size, m);
    assert Launched(w) == Launched(v);
    forall i: nat | 0 < i <= m + 1 ensures Moved(width, i) != v.pend[0].size {
      assert i <= m ==> Moved(width, i) != v.pend[0].size;
    }
  }

  lemma DeliverBalanced(width: nat, v: Account)
    requires 0 < width < WORD && Balanced(width, v) && v.flight > 0
    ensures |v.queued| < |v.pend| == |v.left|
    ensures Balanced(width, Deliver(width, v))
  {
    InFlightIsPending(width, v);
    var took, m :| BalancedBy(width, v, took, m);
    if v.left[0] == width {
      CompleteBalanced(width, v, took, m);
    } else {
      PartialBalanced(width, v, took, m);
    }
  }

  // ---------- what a balanced account says ----------

  lemma {:induction false} TakenOnce(width: nat, rs: seq<Request>, p: seq<nat>, q: seq<nat>)
    requires Taken(width, rs, p) && Taken(width, rs, q)
    ensures p == q
  {
    forall i | 0 <= i < |rs| ensures p[i] == q[i] {
      TakesOnce(width, rs[i].size, p[i], q[i]);
    }
  }

  ghost predicate Covered(width: nat, rs: seq<Request>, delivered: nat) {
    exists took :: Taken(width, rs, took) && Sum(took) <= delivered
  }

  /** Requests are called back in the order they were accepted, and request `n` has been called back if
      and only if the packets delivered so far cover it and everything accepted before it, where the share
      of a request is the first number of packets that brings its size as an unsigned word. */
  lemma CalledBackIff(width: nat, v: Account, n: nat)
    requires 0 < width < WORD && Balanced(width, v) && n < |v.accepted|
    ensures v.done <= v.accepted
    ensures n < |v.done| <==> Covered(width, v.accepted[..n + 1], v.delivered)
  {
    var took, m :| BalancedBy(width, v, took, m);
    var rs := v.accepted[..n + 1];
    if n < |v.done| {
      assert rs == v.done[..n + 1];
      assert Taken(width, rs, took[..n + 1]);
      SumPrefix(took, n + 1);
    } else if Covered(width, rs, v.delivered) {
      var q :| Taken(width, rs, q) && Sum(q) <= v.delivered;
      assert rs[..|v.done|] == v.done && rs[|v.done|] == v.pend[0];
      FirstPendingTakesMore(width, v, took, m, rs, q);
      assert false;
    }
  }

  lemma FirstPendingTakesMore(width: nat, v: Account, took: seq<nat>, m: nat, rs: seq<Request>, q: seq<nat>)
    requires 0 < width < WORD && BalancedBy(width, v, took, m) && v.pend != [] && Taken(width, rs, q)
    requires |v.done| < |rs| && rs[..|v.done|] == v.done && rs[|v.done|] == v.pend[0]
    ensures v.delivered < Sum(q)
  {
    var d := |v.done|;
    assert Taken(width, v.done, q[..d]);
    TakenOnce(width, v.done, q[..d], took);
    assert m < q[d];
    assert q[..d + 1] == took + [q[d]];
    SumSnoc(took, q[d]);
    SumPrefix(q, d + 1);
  }

  predicate AllWhole(width: nat, rs: seq<Request>)
    requires 0 < width
  {
    forall i | 0 <= i < |rs| :: Whole(width, rs[i].size)
  }

  /** The packets delivered so far do not overflow a word. */
  predicate Short(width: nat, delivered: nat) {
    Glue(delivered, width, 0) < WORD
  }

  lemma MoreBytes(width: nat, n: nat, m: nat)
    requires n <= m
    ensures Glue(n, width, 0) <= Glue(m, width, 0)
  {
    Distribute(m - n, n, width);
    ProductSign(m - n, width);
  }

  lemma ShortPart(width: nat, n: nat, delivered: nat)
    requires n <= delivered && Short(width, delivered)
    ensures Short(width, n)
  {
    MoreBytes(width, n, delivered);
  }

  lemma {:induction false} TakenIsWhole(width: nat, rs: seq<Request>, took: seq<nat>)
    requires 0 < width < WORD && Taken(width, rs, took) && Short(width, Sum(took))
    ensures AllWhole(width, rs) && took == Needs(width, rs)
  {
    forall i | 0 <= i < |rs| ensures Whole(width, rs[i].size) && took[i] == Need(width, rs[i]) {
      assert took[..i + 1][..i] == took[..i];
      SumPrefix(took, i + 1);
      ShortPart(width, took[i], Sum(took));
      TakesIsWhole(width, rs[i].size, took[i]);
    }
  }

  lemma WholeIsTaken(width: nat, rs: seq<Request>)
    requires 0 < width < WORD && AllWhole(width, rs)
    ensures Taken(width, rs, Needs(width, rs))
  {
    forall i | 0 <= i < |rs| ensures Takes(width, rs[i].size, Needs(width, rs)[i]) {
      WholeTakes(width, rs[i].size);
    }
  }

  /** While the packets do not overflow a word: request `n` has been called back if and only if it and all its
      predecessors are whole and as many packets have been delivered as they need. */
  lemma CalledBackIffWhole(width: nat, v: Account, n: nat)
    requires 0 < width < WORD && Balanced(width, v) && n < |v.accepted| && Short(width, v.delivered)
    ensures n < |v.done| <==>
            AllWhole(width, v.accepted[..n + 1]) && Sum(Needs(width, v.accepted[..n + 1])) <= v.delivered
  {
    CalledBackIff(width, v, n);
    var rs := v.accepted[..n + 1];
    if Covered(width, rs, v.delivered) {
      var took :| Taken(width, rs, took) && Sum(took) <= v.delivered;
      ShortPart(width, Sum(took), v.delivered);
      TakenIsWhole(width, rs, took);
    }
    if AllWhole(width, rs) {
      WholeIsTaken(width, rs);
    }
  }

  /** `p` is the longest prefix of `rs` that consists of whole requests. */
  predicate LongestWhole(width: nat, p: seq<Request>, rs: seq<Request>)
    requires 0 < width
  {
    && p <= rs && AllWhole(width, p)
    && (|p| < |rs| ==> !Whole(width, rs[|p|].size))
  }

  /** With nothing queued and nothing on its way, exactly the requests before the first that is not whole have
      been called back. */
  lemma DrainedIff(width: nat, v: Account)
    requires 0 < width < WORD && Balanced(width, v) && v.queued == [] && v.flight == 0 && Short(width, v.delivered)
    ensures LongestWhole(width, v.done, v.accepted)
  {
    var took, m :| BalancedBy(width, v, took, m);
    ShortPart(width, Sum(took), v.delivered);
    TakenIsWhole(width, v.done, took);
    if v.pend != [] && Whole(width, v.pend[0].size) {
      assert Launched(v) == v.done + v.pend;
      NeedsOfFirst(width, v.done, v.pend);
      WholeTakes(width, v.pend[0].size);
      assert false;
    }
  }

  lemma NeedsOfFirst(width: nat, done: seq<Request>, pend: seq<Request>)
    requires 0 < width && pend != []
    ensures Sum(Needs(width, done)) + Need(width, pend[0]) <= Sum(Needs(width, done + pend))
  {
    var all := Needs(width, done + pend);
    assert all[..|done| + 1] == Needs(width, done) + [Need(width, pend[0])];
    SumSnoc(Needs(width, done), Need(width, pend[0]));
    SumPrefix(all, |done| + 1);
  }

  /** What is delivered never exceeds what was asked for. */
  function Bytes(rs: seq<Request>): nat {
    if rs == [] then 0 else Bytes(rs[..|rs| - 1]) + rs[|rs| - 1].size
  }

  lemma {:induction false} NeedsFit(width: nat, rs: seq<Request>)
    requires 0 < width
    ensures Glue(Sum(Needs(width, rs)), width, 0) <= Bytes(rs)
  {
    if rs != [] {
      var init, last := rs[..|rs| - 1], rs[|rs| - 1];
      NeedsFit(width, init);
      assert Needs(width, rs)[..|rs| - 1] == Needs(width, init);
      Divided(last.size, width);
      Distribute(Sum(Needs(width, init)), Need(width, last), width);
    }
  }

  lemma {:induction false} BytesPrefix(rs: seq<Request>, n: nat)
    requires n <= |rs|
    ensures Bytes(rs[..n]) <= Bytes(rs)
  {
    if n < |rs| {
      assert rs[..|rs| - 1][..n] == rs[..n];
      BytesPrefix(rs[..|rs| - 1], n);
    } else {
      assert rs[..n] == rs;
    }
  }

  lemma LaunchedFit(width: nat, v: Account)
    requires 0 < width
    ensures Glue(Sum(Needs(width, Launched(v))), width, 0) <= Bytes(v.accepted)
  {
    NeedsFit(width, Launched(v));
    if |v.queued| <= |v.accepted| {
      BytesPrefix(v.accepted, |v.accepted| - |v.queued|);
    }
  }

  /** The packets never bring more than was asked for. */
  lemma DeliveredFits(width: nat, v: Account)
    requires 0 < width < WORD && Balanced(width, v)
    ensures Glue(v.delivered, width, 0) <= Bytes(v.accepted)
  {
    LaunchedFit(width, v);
    Distribute(v.delivered, v.flight, width);
    ProductSign(v.flight, width);
  }

  /** A packet that calls back a request of a size that is not whole completes at least a word before. */
  lemma PartialTakesMore(width: nat, size: nat, n: nat)
    requires 0 < width < WORD && size < WORD && Takes(width, size, n) && !Whole(width, size)
    ensures WORD + size <= Glue(n, width, 0)
  {
    if Glue(n, width, 0) < WORD {
      TakesIsWhole(width, size, n);
    }
  }

  /** So it is enough that the sizes asked for do not overflow a word together. */
  lemma ShortIfAsked(width: nat, v: Account)
    requires 0 < width < WORD && Balanced(width, v) && Bytes(v.accepted) < WORD
    ensures Short(width, v.delivered)
  {
    LaunchedFit(width, v);
    ShortPart(width, v.delivered, v.delivered + v.flight);
  }
}
