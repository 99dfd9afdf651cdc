/** The statistics histogram whose buckets double in width when a sample does not fit.  Counters are integers. */
module Histograms {
  import opened Numbers

  // ---------- buckets ----------

  function At(c: seq<int>, k: int): int {
    if 0 <= k < |c| then c[k] else 0
  }

  function PairAt(c: seq<int>, shift: int, i: int): int {
    At(c, 2 * i - shift) + At(c, 2 * i - shift + 1)
  }

  /** Neighbours merged: bucket `i` gets the buckets `2 * i - shift` and the next one. */
  function Pairs(c: seq<int>, shift: int): (r: seq<int>)
    ensures |r| == |c|
  {
    seq(|c|, i => PairAt(c, shift, i))
  }

  function Up(c: seq<int>): (r: seq<int>)
    ensures |r| == |c|
  {
    Pairs(c, 0)
  }

  /** Bucket 0 is lost on the way when there is no bucket to pair it with. */
  function Convert(c: seq<int>): (r: seq<int>)
    ensures |r| == |c|
  {
    Pairs(if |c| % 2 == 1 then c[0 := 0] else c, |c|)
  }

  function Out(c: seq<int>): (r: seq<int>)
    ensures |r| == |c|
  {
    Pairs(if |c| % 4 == 3 then c[0 := 0] else c, |c| / 2)
  }

  datatype Sampled = Sampled(val: int, number: int)

  /** The total number of samples with `lo <= val < hi`. */
  function Weight(log: seq<Sampled>, lo: int, hi: int): int {
    if log == [] then 0
    else
      var s := log[|log| - 1];
      Weight(log[..|log| - 1], lo, hi) + if lo <= s.val < hi then s.number else 0
  }

  function Edge(min: int, size: int, i: int): int {
    min + i * size
  }

  /** Every bucket holds exactly the samples of its interval. */
  ghost predicate Exact(c: seq<int>, min: int, size: int, log: seq<Sampled>) {
    forall i | 0 <= i < |c| :: c[i] == Weight(log, Edge(min, size, i), Edge(min, size, i + 1))
  }

  ghost predicate Within(log: seq<Sampled>, lo: int, hi: int) {
    forall i | 0 <= i < |log| :: lo <= log[i].val < hi
  }

  /** The range is that of a fresh histogram that has only grown up, or that of a converted one. */
  predicate RangeOk(n: nat, min: int, max: int, size: int) {
    && 2 <= n && 0 < size
    && (|| (min == 0 && max == Edge(0, size, n - 1))
        || (2 * min == -Edge(0, size, n - 1) && max == -min && min < 0))
  }

  datatype Hist = Hist(c: seq<int>, min: int, max: int, size: int)

  predicate InRange(h: Hist, val: int) {
    h.min <= val < h.max + h.size
  }

  function GrownUp(h: Hist): Hist {
    Hist(Up(h.c), h.min, 2 * h.max, 2 * h.size)
  }

  function Converted(h: Hist): Hist {
    Hist(Convert(h.c), -h.max, h.max, 2 * h.size)
  }

  function GrownOut(h: Hist): Hist {
    Hist(Out(h.c), 2 * h.min, 2 * h.max, 2 * h.size)
  }

  predicate HistOk(h: Hist) {
    RangeOk(|h.c|, h.min, h.max, h.size)
  }

  lemma GrowthOk(h: Hist)
    requires HistOk(h)
    ensures h.min == 0 ==> HistOk(GrownUp(h)) && HistOk(Converted(h))
    ensures h.min < 0 ==> HistOk(GrownOut(h))
    ensures 0 < h.max
  {
    RangeGrows(|h.c|, h.size);
  }

  /** Grow until `val` fits. */
  function Fit(h: Hist, val: int): (r: Hist)
    requires HistOk(h)
    ensures HistOk(r) && InRange(r, val) && |r.c| == |h.c|
    decreases h.min == 0 && val < 0, Abs(val) - h.max
  {
    GrowthOk(h);
    if InRange(h, val) then h
    else if h.min < 0 then Fit(GrownOut(h), val)
    else if 0 <= val then Fit(GrownUp(h), val)
    else Fit(Converted(h), val)
  }

  function Abs(x: int): nat {
    if x < 0 then -x else x
  }

  /** The bucket that `val` falls into. */
  function IndexOf(h: Hist, val: int): (i: int)
    requires HistOk(h) && InRange(h, val)
    ensures 0 <= i < |h.c|
    ensures Edge(h.min, h.size, i) <= val < Edge(h.min, h.size, i + 1)
  {
    RangeGrows(|h.c|, h.size);
    BucketOf(val - h.min, h.size, |h.c|);
    (val - h.min) / h.size
  }

  function Counted(h: Hist, val: int, number: int): (r: Hist)
    requires HistOk(h)
  {
    var g := Fit(h, val);
    g.(c := g.c[IndexOf(g, val) := g.c[IndexOf(g, val)] + number])
  }

  /** Grow up to the bucket size `size`. */
  function UpTo(h: Hist, size: int): (r: Hist)
    requires 0 < h.size
    ensures |r.c| == |h.c|
    decreases size - h.size
  {
    if size <= h.size then h else UpTo(GrownUp(h), size)
  }

  function Sums(a: seq<int>, b: seq<int>): (r: seq<int>)
    requires |a| == |b|
    ensures |r| == |a|
  {
    seq(|a|, i requires 0 <= i < |a| => a[i] + b[i])
  }

  function Added(h: Hist, o: Hist): Hist
    requires 0 < h.size && 0 < o.size && |h.c| == |o.c|
  {
    var g := UpTo(h, o.size);
    g.(c := Sums(g.c, UpTo(o, h.size).c))
  }

  /** While no negative sample has come, every bucket is exact. */
  ghost predicate HistogramOk(h: Hist, doublings: nat, log: seq<Sampled>) {
    && HistOk(h)
    && h.size == Pow2(doublings)
    && (h.min == 0 ==> Within(log, 0, Edge(0, h.size, |h.c|)) && Exact(h.c, 0, h.size, log))
  }

  class Histogram {
    const cvec: array<int>
    var minBucket: int
    var maxBucket: int
    var bucketSize: int
    var sum: int
    var samples: int
    ghost var log: seq<Sampled>
    ghost var doublings: nat

    function State(): Hist
      reads this, cvec
    {
      Hist(cvec[..], minBucket, maxBucket, bucketSize)
    }

    ghost predicate Valid()
      reads this, cvec
    {
      HistogramOk(State(), doublings, log)
    }

    constructor (buckets: nat)
      requires 2 <= buckets
      ensures Valid() && fresh(cvec) && cvec.Length == buckets && log == [] && minBucket == 0 && Total(cvec[..]) == 0
    {
      cvec := new int[buckets](_ => 0);
      minBucket, maxBucket, bucketSize := 0, buckets - 1, 1;
      sum, samples, log, doublings := 0, 0, [], 0;
      new;
      AllZero(cvec[..]);
    }

    method GrowUp()
      requires Valid() && minBucket == 0
      modifies this`maxBucket, this`bucketSize, this`doublings, cvec
      ensures Valid() && State() == GrownUp(old(State()))
    {
      ghost var h := State();
      UpOk(h, doublings, log);
      MergeUp();
      maxBucket := maxBucket * 2;
      bucketSize := bucketSize * 2;
      doublings := doublings + 1;
      assert State() == GrownUp(h);
    }

    method MergeUp()
      modifies cvec
      ensures cvec[..] == Up(old(cvec[..]))
    {
      ghost var c := cvec[..];
      MergeRight(0, (cvec.Length + 1) / 2);
      assert cvec[..] == Up(c);
    }

    /** Merge pairs from `zero` on into the buckets `[zero, top)`, and clear the rest. */
    method MergeRight(zero: nat, top: nat)
      requires zero <= top <= cvec.Length && top == zero + (cvec.Length - zero + 1) / 2
      modifies cvec
      ensures forall j | 0 <= j < cvec.Length ::
                cvec[j] == if j < zero then old(cvec[j]) else PairAt(old(cvec[..]), zero, j)
    {
      var pair := zero;
      for i := zero to top
        invariant pair == 2 * i - zero
        invariant forall j | 0 <= j < cvec.Length ::
                    cvec[j] == if zero <= j < i then PairAt(old(cvec[..]), zero, j) else old(cvec[j])
      {
        cvec[i] := cvec[pair] + if pair + 1 < cvec.Length then cvec[pair + 1] else 0;
        pair := pair + 2;
      }
      assert pair == cvec.Length || pair == cvec.Length + 1;
      Clear(top, cvec.Length);
    }

    /** Merge pairs below `zero` into the buckets `[bottom, zero)`, and clear the rest below `zero`. */
    method MergeLeft(zero: nat, bottom: nat)
      requires bottom <= zero <= cvec.Length && 2 * bottom - 1 <= zero <= 2 * bottom + 1
      modifies cvec
      ensures forall j | 0 <= j < cvec.Length ::
                cvec[j] == if j < bottom then 0 else if j < zero then PairAt(old(cvec[..]), zero, j) else old(cvec[j])
    {
      var pair: int := zero - 1;
      for i := zero downto bottom
        invariant pair == 2 * i - zero - 1
        invariant forall j | 0 <= j < cvec.Length ::
                    cvec[j] == if i <= j < zero then PairAt(old(cvec[..]), zero, j) else old(cvec[j])
      {
        cvec[i] := cvec[pair] + if pair - 1 >= 0 then cvec[pair - 1] else 0;
        pair := pair - 2;
      }
      assert pair == 0 || pair == -1 || pair == -2;
      Clear(0, bottom);
    }

    /** Set the buckets `[lo, hi)` to zero. */
    method Clear(lo: nat, hi: nat)
      requires lo <= hi <= cvec.Length
      modifies cvec
      ensures forall j | 0 <= j < cvec.Length :: cvec[j] == if lo <= j < hi then 0 else old(cvec[j])
    {
      for i := lo to hi
        invariant forall j | 0 <= j < cvec.Length :: cvec[j] == if lo <= j < i then 0 else old(cvec[j])
      {
        cvec[i] := 0;
      }
    }

    method MergeConvert()
      modifies cvec
      ensures cvec[..] == Convert(old(cvec[..]))
    {
      ghost var c := cvec[..];
      MergeLeft(cvec.Length, (cvec.Length + 1) / 2);
      ConvertIs(c, cvec[..]);
    }

    method MergeOut()
      modifies cvec
      ensures cvec[..] == Out(old(cvec[..]))
    {
      ghost var c := cvec[..];
      var zero := cvec.Length / 2;
      MergeLeft(zero, (cvec.Length - zero) / 2);
      ghost var d := cvec[..];
      MergeRight(zero, zero + (cvec.Length - zero + 1) / 2);
      OutIs(c, d, cvec[..]);
    }

    method GrowConvert()
      requires Valid() && minBucket == 0
      modifies this`minBucket, this`bucketSize, this`doublings, cvec
      ensures Valid() && State() == Converted(old(State()))
    {
      ghost var h := State();
      ConvertOk(h, doublings, log);
      MergeConvert();
      minBucket := -maxBucket;
      bucketSize := bucketSize * 2;
      doublings := doublings + 1;
      assert State() == Converted(h);
    }

    method GrowOut()
      requires Valid() && minBucket < 0
      modifies this`minBucket, this`maxBucket, this`bucketSize, this`doublings, cvec
      ensures Valid() && State() == GrownOut(old(State()))
    {
      OutOk(State(), doublings, log);
      MergeOut();
      maxBucket := maxBucket * 2;
      minBucket := minBucket * 2;
      bucketSize := bucketSize * 2;
      doublings := doublings + 1;
    }

    /** Grow until `val` fits. */
    method MakeFit(val: int)
      requires Valid()
      modifies this`minBucket, this`maxBucket, this`bucketSize, this`doublings, cvec
      ensures Valid() && State() == Fit(old(State()), val)
    {
      ghost var goal := Fit(State(), val);
      GrowthOk(State());
      if val < minBucket {
        if minBucket == 0 {
          GrowConvert();
          GrowthOk(State());
        }
        while val < minBucket
          invariant Valid() && minBucket < 0 && 0 < maxBucket && val < 0 && Fit(State(), val) == goal
          decreases Abs(val) - maxBucket
        {
          GrowOut();
          GrowthOk(State());
        }
      } else if maxBucket + bucketSize <= val {
        if minBucket == 0 {
          while maxBucket + bucketSize <= val
            invariant Valid() && minBucket == 0 && 0 < maxBucket && Fit(State(), val) == goal
            decreases val - maxBucket
          {
            GrowUp();
            GrowthOk(State());
          }
        } else {
          while maxBucket + bucketSize <= val
            invariant Valid() && minBucket < 0 && 0 < maxBucket && minBucket <= val && Fit(State(), val) == goal
            decreases val - maxBucket
          {
            GrowOut();
            GrowthOk(State());
          }
        }
      }
    }

    /** Count `number` samples of the value `val`. */
    method Sample(val: int, number: int)
      requires Valid()
      modifies this, cvec
      ensures Valid() && State() == Counted(old(State()), val, number)
      ensures exists i :: OneGrows(Fit(old(State()), val), State(), val, number, i)
      ensures log == old(log) + [Sampled(val, number)]
      ensures sum == old(sum) + val * number && samples == old(samples) + number
    {
      MakeFit(val);
      ghost var h := State();
      CountedOk(h, doublings, log, val, number);
      var index := (val - minBucket) / bucketSize;
      assert index == IndexOf(h, val);
      cvec[index] := cvec[index] + number;
      sum := sum + val * number;
      samples := samples + number;
      log := log + [Sampled(val, number)];
      assert State().c == h.c[index := h.c[index] + number];
      assert OneGrows(h, State(), val, number, index);
    }

    /** Count everything that `hs` has counted as well. */
    method Add(hs: Histogram)
      requires Valid() && hs.Valid() && (hs == this || hs.cvec != cvec)
      requires cvec.Length == hs.cvec.Length && minBucket == hs.minBucket
      modifies this, cvec, hs`maxBucket, hs`bucketSize, hs`doublings, hs.cvec
      ensures Valid() && State() == Added(old(State()), old(hs.State()))
      ensures log == old(log) + old(hs.log)
      ensures hs != this ==> hs.Valid() && hs.State() == UpTo(old(hs.State()), old(bucketSize))
      ensures sum == old(sum) + old(hs.sum) && samples == old(samples) + old(hs.samples)
    {
      ghost var mine, others := State(), hs.State();
      if minBucket < 0 {
        SameMinSameSize(mine, others);
      }
      sum := sum + hs.sum;
      samples := samples + hs.samples;
      hs.GrowTo(bucketSize, doublings);
      GrowTo(hs.bucketSize, hs.doublings);
      AddedOk(State(), hs.State(), doublings, hs.doublings, log, hs.log);
      AddUp(hs);
      log := log + hs.log;
    }

    /** Grow up until the buckets are `size` wide. */
    method GrowTo(size: int, ghost d: nat)
      requires Valid() && size == Pow2(d) && (bucketSize < size ==> minBucket == 0)
      modifies this`maxBucket, this`bucketSize, this`doublings, cvec
      ensures Valid() && State() == UpTo(old(State()), size)
      ensures bucketSize == if old(bucketSize) < size then size else old(bucketSize)
    {
      while bucketSize < size
        invariant Valid() && UpTo(State(), size) == UpTo(old(State()), size)
        invariant bucketSize < size ==> minBucket == 0
        invariant old(bucketSize) < size ==> bucketSize <= size
        invariant size <= old(bucketSize) ==> bucketSize == old(bucketSize)
        decreases size - bucketSize
      {
        DoublingFits(doublings, d);
        GrowUp();
      }
    }

    /** Add the buckets of `hs`, which has buckets of the same size, one by one. */
    method AddUp(hs: Histogram)
      requires cvec.Length == hs.cvec.Length
      modifies cvec
      ensures cvec[..] == Sums(old(cvec[..]), old(hs.cvec[..]))
    {
      for i := 0 to cvec.Length
        invariant forall j | 0 <= j < cvec.Length ::
                    cvec[j] == if j < i then old(cvec[j]) + old(hs.cvec[j]) else old(cvec[j])
        invariant hs.cvec != cvec ==> hs.cvec[..] == old(hs.cvec[..])
      {
        cvec[i] := cvec[i] + hs.cvec[i];
      }
    }
  }

  /** Bucket `i`, the one whose interval holds `val`, has grown by `number`. */
  ghost predicate OneGrows(h: Hist, g: Hist, val: int, number: int, i: int) {
    && 0 <= i < |h.c| && h.min + i * h.size <= val < h.min + (i + 1) * h.size
    && g == h.(c := h.c[i := h.c[i] + number])
  }

  /** Growing stops as soon as the value fits: it did not fit into what was grown last. */
  lemma {:induction false} FitStops(h: Hist, val: int) returns (p: Hist)
    requires HistOk(h)
    ensures if h.min <= val < h.max + h.size then Fit(h, val) == h
            else HistOk(p) && !(p.min <= val < p.max + p.size)
                 && Fit(h, val) == if p.min < 0 then GrownOut(p) else if 0 <= val then GrownUp(p) else Converted(p)
    decreases h.min == 0 && val < 0, Abs(val) - h.max
  {
    GrowthOk(h);
    p := h;
    if !InRange(h, val) {
      var g := if h.min < 0 then GrownOut(h) else if 0 <= val then GrownUp(h) else Converted(h);
      if !InRange(g, val) {
        p := FitStops(g, val);
      }
    }
  }

  lemma ConvertIs(c: seq<int>, d: seq<int>)
    requires |d| == |c|
    requires forall j | 0 <= j < |c| :: d[j] == if j < (|c| + 1) / 2 then 0 else PairAt(c, |c|, j)
    ensures d == Convert(c)
  {
    forall j | 0 <= j < |c| ensures d[j] == Convert(c)[j] {
      assert Convert(c)[j] == PairAt(if |c| % 2 == 1 then c[0 := 0] else c, |c|, j);
    }
  }

  lemma OutAt(c: seq<int>, j: nat)
    requires j < |c|
    ensures var zero := |c| / 2;
            Out(c)[j] == if j < (|c| - zero) / 2 then 0 else PairAt(c, zero, j)
  {
    assert Out(c)[j] == PairAt(if |c| % 4 == 3 then c[0 := 0] else c, |c| / 2, j);
  }

  lemma OutIs(c: seq<int>, mid: seq<int>, d: seq<int>)
    requires |d| == |mid| == |c|
    requires var zero := |c| / 2; var bottom := (|c| - zero) / 2;
             && (forall j | 0 <= j < |c| ::
                   mid[j] == if j < bottom then 0 else if j < zero then PairAt(c, zero, j) else c[j])
             && (forall j | 0 <= j < |c| :: d[j] == if j < zero then mid[j] else PairAt(mid, zero, j))
    ensures d == Out(c)
  {
    forall j | 0 <= j < |c| ensures d[j] == Out(c)[j] {
      OutAt(c, j);
      if |c| / 2 <= j {
        MidAt(c, mid, 2 * j - |c| / 2);
        MidAt(c, mid, 2 * j - |c| / 2 + 1);
      }
    }
  }

  lemma MidAt(c: seq<int>, mid: seq<int>, k: nat)
    requires |mid| == |c| && (k < |c| ==> mid[k] == c[k])
    ensures At(mid, k) == At(c, k)
  {
  }

  lemma CountedOk(h: Hist, doublings: nat, log: seq<Sampled>, val: int, number: int)
    requires HistogramOk(h, doublings, log) && InRange(h, val)
    ensures var i := IndexOf(h, val);
            HistogramOk(h.(c := h.c[i := h.c[i] + number]), doublings, log + [Sampled(val, number)])
  {
    if h.min == 0 {
      RangeGrows(|h.c|, h.size);
      CountKeepsExact(h.c, h.size, log, val, number, IndexOf(h, val));
    }
  }

  lemma AddedOk(h: Hist, o: Hist, d: nat, e: nat, logA: seq<Sampled>, logB: seq<Sampled>)
    requires HistogramOk(h, d, logA) && HistogramOk(o, e, logB)
    requires |h.c| == |o.c| && h.min == o.min && h.size == o.size
    ensures HistogramOk(h.(c := Sums(h.c, o.c)), d, logA + logB)
  {
    if h.min == 0 {
      SumsAreExact(h.c, o.c, 0, h.size, logA, logB);
    }
  }

  /** Histograms that start at the same value have buckets of the same size, or have only grown up. */
  lemma SameMinSameSize(h: Hist, o: Hist)
    requires HistOk(h) && HistOk(o) && |h.c| == |o.c| && h.min == o.min && h.min < 0
    ensures h.size == o.size
  {
    var n := |h.c| - 1;
    assert n * h.size == n * o.size;
    assert h.size < o.size ==> n * (o.size - h.size) > 0;
    assert o.size < h.size ==> n * (h.size - o.size) > 0;
  }

  lemma {:induction false} DoublingFits(a: nat, b: nat)
    requires Pow2(a) < Pow2(b)
    ensures a < b && 2 * Pow2(a) <= Pow2(b)
  {
    if 0 < a && 0 < b {
      DoublingFits(a - 1, b - 1);
    }
  }

  lemma ConvertOk(h: Hist, doublings: nat, log: seq<Sampled>)
    requires HistogramOk(h, doublings, log) && h.min == 0
    ensures HistogramOk(Converted(h), doublings + 1, log)
  {
    GrowthOk(h);
  }

  lemma OutOk(h: Hist, doublings: nat, log: seq<Sampled>)
    requires HistogramOk(h, doublings, log) && h.min < 0
    ensures HistogramOk(GrownOut(h), doublings + 1, log)
  {
    GrowthOk(h);
  }

  lemma UpOk(h: Hist, doublings: nat, log: seq<Sampled>)
    requires HistogramOk(h, doublings, log) && h.min == 0
    ensures HistogramOk(GrownUp(h), doublings + 1, log)
  {
    GrowthOk(h);
    UpKeepsExact(h.c, h.size, log);
  }

  function Total(c: seq<int>): int {
    if c == [] then 0 else Total(c[..|c| - 1]) + c[|c| - 1]
  }

  lemma {:induction false} AllZero(c: seq<int>)
    requires forall i | 0 <= i < |c| :: c[i] == 0
    ensures Total(c) == 0
  {
    if c != [] {
      AllZero(c[..|c| - 1]);
    }
  }

  lemma RangeGrows(n: nat, size: int)
    requires 2 <= n && 0 < size
    ensures Edge(0, 2 * size, n - 1) == 2 * Edge(0, size, n - 1)
    ensures 0 < Edge(0, size, n - 1)
    ensures Edge(0, size, n) == Edge(0, size, n - 1) + size
  {
    assert (n - 2) * size >= 0;
  }

  lemma BucketOf(x: int, size: int, n: int)
    requires 0 < size && 0 <= x < Edge(0, size, n)
    ensures 0 <= x / size < n
    ensures Edge(0, size, x / size) <= x < Edge(0, size, x / size + 1)
  {
    var q := x / size;
    assert x == q * size + x % size;
    assert n <= q ==> (q - n) * size >= 0;
    assert q <= -1 ==> (-1 - q) * size >= 0;
  }

  // ---------- weights ----------

  lemma {:induction false} WeightSplit(log: seq<Sampled>, lo: int, mid: int, hi: int)
    requires lo <= mid <= hi
    ensures Weight(log, lo, hi) == Weight(log, lo, mid) + Weight(log, mid, hi)
  {
    if log != [] {
      WeightSplit(log[..|log| - 1], lo, mid, hi);
    }
  }

  lemma {:induction false} WeightOutside(log: seq<Sampled>, lo: int, hi: int)
    requires forall i | 0 <= i < |log| :: !(lo <= log[i].val < hi)
    ensures Weight(log, lo, hi) == 0
  {
    if log != [] {
      WeightOutside(log[..|log| - 1], lo, hi);
    }
  }

  lemma EdgeStep(size: int, i: int, n: int)
    requires 0 < size
    ensures Edge(0, size, i) <= Edge(0, size, i + 1)
    ensures n <= i ==> Edge(0, size, n) <= Edge(0, size, i)
    ensures Edge(0, 2 * size, i) == Edge(0, size, 2 * i)
  {
    assert n <= i ==> (i - n) * size >= 0;
  }

  lemma AtIsWeight(c: seq<int>, size: int, log: seq<Sampled>, k: nat)
    requires 0 < size && Exact(c, 0, size, log) && Within(log, 0, Edge(0, size, |c|))
    ensures At(c, k) == Weight(log, Edge(0, size, k), Edge(0, size, k + 1))
  {
    if |c| <= k {
      EdgeStep(size, k, |c|);
      WeightOutside(log, Edge(0, size, k), Edge(0, size, k + 1));
    }
  }

  /** Growing up keeps every bucket exact. */
  lemma UpKeepsExact(c: seq<int>, size: int, log: seq<Sampled>)
    requires 0 < size && Exact(c, 0, size, log) && Within(log, 0, Edge(0, size, |c|))
    ensures Exact(Up(c), 0, 2 * size, log) && Within(log, 0, Edge(0, 2 * size, |c|))
  {
    forall i | 0 <= i < |c| ensures Up(c)[i] == Weight(log, Edge(0, 2 * size, i), Edge(0, 2 * size, i + 1)) {
      AtIsWeight(c, size, log, 2 * i);
      AtIsWeight(c, size, log, 2 * i + 1);
      EdgeStep(size, i, 0);
      EdgeStep(size, i + 1, 0);
      EdgeStep(size, 2 * i, 0);
      EdgeStep(size, 2 * i + 1, 0);
      WeightSplit(log, Edge(0, size, 2 * i), Edge(0, size, 2 * i + 1), Edge(0, size, 2 * i + 2));
    }
    EdgeStep(size, 2 * |c|, |c|);
    EdgeStep(size, |c|, 0);
  }

  lemma CountKeepsExact(c: seq<int>, size: int, log: seq<Sampled>, val: int, number: int, i: nat)
    requires 0 < size && Exact(c, 0, size, log) && i < |c|
    requires Edge(0, size, i) <= val < Edge(0, size, i + 1)
    ensures Exact(c[i := c[i] + number], 0, size, log + [Sampled(val, number)])
  {
    var more := log + [Sampled(val, number)];
    assert more[..|log|] == log;
    forall j | 0 <= j < |c| ensures Weight(more, Edge(0, size, j), Edge(0, size, j + 1)) ==
                                    Weight(log, Edge(0, size, j), Edge(0, size, j + 1)) + if j == i then number else 0 {
      EdgeStep(size, j, i + 1);
      EdgeStep(size, i, j + 1);
    }
  }

  lemma {:induction false} WeightAppend(a: seq<Sampled>, b: seq<Sampled>, lo: int, hi: int)
    ensures Weight(a + b, lo, hi) == Weight(a, lo, hi) + Weight(b, lo, hi)
  {
    if b == [] {
      assert a + b == a;
    } else {
      assert (a + b)[..|a + b| - 1] == a + b[..|b| - 1];
      WeightAppend(a, b[..|b| - 1], lo, hi);
    }
  }

  /** Adding exact histograms with the same buckets is sampling both streams into one. */
  lemma SumsAreExact(a: seq<int>, b: seq<int>, min: int, size: int, logA: seq<Sampled>, logB: seq<Sampled>)
    requires |a| == |b| && Exact(a, min, size, logA) && Exact(b, min, size, logB)
    ensures Exact(Sums(a, b), min, size, logA + logB)
  {
    forall i | 0 <= i < |a| ensures Sums(a, b)[i] == Weight(logA + logB, Edge(min, size, i), Edge(min, size, i + 1)) {
      WeightAppend(logA, logB, Edge(min, size, i), Edge(min, size, i + 1));
    }
  }

  // ---------- totals ----------

  /** The buckets `[lo, hi)`, where there are any. */
  function Range(c: seq<int>, lo: int, hi: int): int
    decreases hi - lo
  {
    if hi <= lo then 0 else Range(c, lo, hi - 1) + At(c, hi - 1)
  }

  lemma {:induction false} RangeIsTotal(c: seq<int>, lo: int, hi: int)
    requires lo <= 0 <= hi
    ensures Range(c, lo, hi) == Total(if hi < |c| then c[..hi] else c)
    decreases hi - lo
  {
    if hi > 0 {
      RangeIsTotal(c, lo, hi - 1);
      if hi <= |c| {
        assert c[..hi][..hi - 1] == c[..hi - 1];
        assert c[..|c|] == c;
      }
    } else if lo < 0 {
      RangeBelow(c, lo, 0);
    }
  }

  lemma {:induction false} RangeBelow(c: seq<int>, lo: int, hi: int)
    requires hi <= 0
    ensures Range(c, lo, hi) == 0
    decreases hi - lo
  {
    if lo < hi {
      RangeBelow(c, lo, hi - 1);
    }
  }

  lemma {:induction false} PairsTotal(c: seq<int>, shift: int, m: nat)
    requires m <= |c|
    ensures Total(Pairs(c, shift)[..m]) == Range(c, -shift, 2 * m - shift)
  {
    if m > 0 {
      PairsTotal(c, shift, m - 1);
      assert Pairs(c, shift)[..m][..m - 1] == Pairs(c, shift)[..m - 1];
    }
  }

  lemma WholeRange(c: seq<int>, lo: int, hi: int)
    requires lo <= 0 && |c| <= hi
    ensures Range(c, lo, hi) == Total(c)
  {
    RangeIsTotal(c, lo, hi);
  }

  lemma AllPairs(c: seq<int>, shift: int)
    ensures Total(Pairs(c, shift)) == Range(c, -shift, 2 * |c| - shift)
  {
    PairsTotal(c, shift, |c|);
    assert Pairs(c, shift)[..|c|] == Pairs(c, shift);
  }

  lemma MergingKeepsTotal(c: seq<int>, shift: int)
    requires 0 <= shift <= |c|
    ensures Total(Pairs(c, shift)) == Total(c)
  {
    var hi := 2 * |c| - shift;
    assert |c| <= hi;
    AllPairs(c, shift);
    WholeRange(c, -shift, hi);
  }

  lemma {:induction false} TotalUpdate(c: seq<int>, i: nat, v: int)
    requires i < |c|
    ensures Total(c[i := v]) == Total(c) - c[i] + v
  {
    var last := |c| - 1;
    if i == last {
      assert c[i := v][..last] == c[..last];
    } else {
      assert c[i := v][..last] == c[..last][i := v];
      TotalUpdate(c[..last], i, v);
    }
  }

  /** What each kind of growth does to the total: bucket 0 is lost in a conversion of an odd number of buckets,
      and in growing out a number of buckets that leaves 3 when divided by 4. */
  lemma GrowthTotals(c: seq<int>)
    requires c != []
    ensures Total(Up(c)) == Total(c)
    ensures Total(Convert(c)) == Total(c) - if |c| % 2 == 1 then c[0] else 0
    ensures Total(Out(c)) == Total(c) - if |c| % 4 == 3 then c[0] else 0
  {
    MergingKeepsTotal(c, 0);
    MergingKeepsTotal(c, |c|);
    MergingKeepsTotal(c[0 := 0], |c|);
    MergingKeepsTotal(c, |c| / 2);
    MergingKeepsTotal(c[0 := 0], |c| / 2);
    TotalUpdate(c, 0, 0);
  }

  lemma {:induction false} FitKeepsTotal(h: Hist, val: int)
    requires HistOk(h) && |h.c| % 2 == 0
    ensures Total(Fit(h, val).c) == Total(h.c)
    decreases h.min == 0 && val < 0, Abs(val) - h.max
  {
    GrowthOk(h);
    GrowthTotals(h.c);
    if !InRange(h, val) {
      if h.min < 0 {
        FitKeepsTotal(GrownOut(h), val);
      } else if 0 <= val {
        FitKeepsTotal(GrownUp(h), val);
      } else {
        FitKeepsTotal(Converted(h), val);
      }
    }
  }

  /** With an even number of buckets no sample of any sign is ever lost. */
  lemma EvenKeepsTotal(h: Hist, val: int, number: int)
    requires HistOk(h) && |h.c| % 2 == 0
    ensures Total(Counted(h, val, number).c) == Total(h.c) + number
  {
    FitKeepsTotal(h, val);
    var g := Fit(h, val);
    TotalUpdate(g.c, IndexOf(g, val), g.c[IndexOf(g, val)] + number);
  }

  // ---------- streams of samples that are not negative ----------

  function Fresh(n: nat): Hist {
    Hist(seq(n, i => 0), 0, n - 1, 1)
  }

  lemma FreshOk(n: nat)
    requires 2 <= n
    ensures HistogramOk(Fresh(n), 0, [])
  {
  }

  ghost predicate NonNegative(log: seq<Sampled>) {
    forall i | 0 <= i < |log| :: 0 <= log[i].val
  }

  /** The histogram after a stream of samples. */
  function Stream(n: nat, log: seq<Sampled>): (h: Hist)
    requires 2 <= n
    ensures HistOk(h) && |h.c| == n
  {
    if log == [] then Fresh(n)
    else
      var s := log[|log| - 1];
      var h := Stream(n, log[..|log| - 1]);
      CountedRange(h, s.val, s.number);
      Counted(h, s.val, s.number)
  }

  lemma CountedRange(h: Hist, val: int, number: int)
    requires HistOk(h)
    ensures HistOk(Counted(h, val, number)) && |Counted(h, val, number).c| == |h.c|
  {
  }

  /** The buckets are no wider than the samples need. */
  ghost predicate Tight(h: Hist, log: seq<Sampled>) {
    h.size == 1 || exists i :: 0 <= i < |log| && Edge(0, h.size, |h.c|) <= 2 * log[i].val
  }

  lemma OneUp(h: Hist, d: nat, log: seq<Sampled>, val: int)
    requires HistogramOk(h, d, log) && h.min == 0 && 0 <= val && !InRange(h, val)
    ensures HistogramOk(GrownUp(h), d + 1, log) && Fit(h, val) == Fit(GrownUp(h), val)
    ensures Edge(0, GrownUp(h).size, |h.c|) <= 2 * val && Abs(val) - 2 * h.max < Abs(val) - h.max
  {
    GrowthOk(h);
    UpOk(h, d, log);
    RangeGrows(|h.c|, h.size);
    Wider(h.size, 2 * h.size, |h.c|);
    EdgeStep(h.size, |h.c|, 0);
    assert Edge(0, 2 * h.size, |h.c|) == Edge(0, h.size, |h.c|) + Edge(0, h.size, |h.c|);
  }

  lemma Wider(small: int, wide: int, n: nat)
    requires 2 * small <= wide
    ensures 2 * Edge(0, small, n) <= Edge(0, wide, n)
  {
    assert (wide - 2 * small) * n >= 0;
  }

  lemma {:induction false} FitKeepsExact(h: Hist, d: nat, log: seq<Sampled>, val: int) returns (e: nat)
    requires HistogramOk(h, d, log) && h.min == 0 && 0 <= val
    ensures HistogramOk(Fit(h, val), e, log) && Fit(h, val).min == 0
    ensures Fit(h, val) == h || Edge(0, Fit(h, val).size, |h.c|) <= 2 * val
    decreases Abs(val) - h.max
  {
    GrowthOk(h);
    e := d;
    if !InRange(h, val) {
      OneUp(h, d, log, val);
      e := FitKeepsExact(GrownUp(h), d + 1, log, val);
    }
  }

  /** After any stream of samples that are not negative, every bucket holds exactly the samples of its
      interval, and the intervals are no wider than needed. */
  lemma {:induction false} StreamIsExact(n: nat, log: seq<Sampled>) returns (d: nat)
    requires 2 <= n && NonNegative(log)
    ensures var h := Stream(n, log);
            h.min == 0 && HistogramOk(h, d, log) && Exact(h.c, 0, h.size, log) && Tight(h, log)
  {
    if log == [] {
      FreshOk(n);
      d := 0;
    } else {
      var p, s := log[..|log| - 1], log[|log| - 1];
      var h := Stream(n, p);
      var e := StreamIsExact(n, p);
      d := FitKeepsExact(h, e, p, s.val);
      CountedOk(Fit(h, s.val), d, p, s.val, s.number);
      assert p + [s] == log;
    }
  }

  /** Two tight histograms of the same samples are the same. */
  lemma TightIsUnique(g: Hist, d: nat, h: Hist, e: nat, log: seq<Sampled>)
    requires HistogramOk(g, d, log) && HistogramOk(h, e, log) && |g.c| == |h.c| && g.min == h.min == 0
    requires Tight(g, log) && Tight(h, log)
    ensures g == h
  {
    if g.size < h.size {
      NotWider(g, d, h, e, log);
    }
    if h.size < g.size {
      NotWider(h, e, g, d, log);
    }
    assert g.size == h.size;
    SameBuckets(g.c, h.c, g.size, log);
  }

  lemma SameBuckets(c: seq<int>, d: seq<int>, size: int, log: seq<Sampled>)
    requires |c| == |d| && Exact(c, 0, size, log) && Exact(d, 0, size, log)
    ensures c == d
  {
    forall i | 0 <= i < |c| ensures c[i] == d[i] {
      assert c[i] == Weight(log, Edge(0, size, i), Edge(0, size, i + 1));
    }
  }

  lemma NotWider(g: Hist, d: nat, h: Hist, e: nat, log: seq<Sampled>)
    requires HistogramOk(g, d, log) && HistogramOk(h, e, log) && |g.c| == |h.c| && g.min == h.min == 0
    requires g.size < h.size
    ensures !Tight(h, log)
  {
    DoublingFits(d, e);
    Wider(g.size, h.size, |g.c|);
  }

  lemma {:induction false} UpToKeepsExact(h: Hist, d: nat, log: seq<Sampled>, size: int, e: nat) returns (f: nat)
    requires HistogramOk(h, d, log) && h.min == 0 && size == Pow2(e)
    ensures var g := UpTo(h, size);
            HistogramOk(g, f, log) && g.min == 0 && g.size == if h.size < size then size else h.size
    decreases size - h.size
  {
    f := d;
    if h.size < size {
      UpOk(h, d, log);
      DoublingFits(d, e);
      f := UpToKeepsExact(GrownUp(h), d + 1, log, size, e);
    }
  }

  /** Adding two histograms is sampling both streams into one. */
  lemma AddIsOneStream(n: nat, a: seq<Sampled>, b: seq<Sampled>)
    requires 2 <= n && NonNegative(a) && NonNegative(b)
    ensures Added(Stream(n, a), Stream(n, b)) == Stream(n, a + b)
  {
    var g, h := Stream(n, a), Stream(n, b);
    var d := StreamIsExact(n, a);
    var e := StreamIsExact(n, b);
    var f := StreamIsExact(n, a + b);
    var d' := UpToKeepsExact(g, d, a, h.size, e);
    var e' := UpToKeepsExact(h, e, b, g.size, d);
    AddedOk(UpTo(g, h.size), UpTo(h, g.size), d', e', a, b);
    TightOfSum(g, h, a, b);
    TightIsUnique(Added(g, h), d', Stream(n, a + b), f, a + b);
  }

  lemma TightOfSum(g: Hist, h: Hist, a: seq<Sampled>, b: seq<Sampled>)
    requires HistOk(g) && HistOk(h) && |g.c| == |h.c| && Tight(g, a) && Tight(h, b)
    requires UpTo(g, h.size).size == if g.size < h.size then h.size else g.size
    ensures Tight(Added(g, h), a + b)
  {
    if g.size < h.size {
      var i :| 0 <= i < |b| && Edge(0, h.size, |h.c|) <= 2 * b[i].val;
      assert (a + b)[|a| + i] == b[i];
    } else if g.size != 1 {
      var i :| 0 <= i < |a| && Edge(0, g.size, |g.c|) <= 2 * a[i].val;
      assert (a + b)[i] == a[i];
    }
  }

  // ---------- negative samples ----------

  /** The first negative sample moves all earlier ones by one old bucket.  So the buckets stay exact exactly
      if every second bucket, counted from the top one but one downwards, is empty, and bucket 0 is. */
  lemma ConvertKeepsExactIff(c: seq<int>, size: int, log: seq<Sampled>)
    requires 2 <= |c| && 0 < size && Exact(c, 0, size, log) && Within(log, 0, Edge(0, size, |c|))
    ensures Exact(Convert(c), -Edge(0, size, |c| - 1), 2 * size, log) <==>
            c[0] == 0 && forall j | 0 <= j < |c| && (|c| - j) % 2 == 0 :: c[j] == 0
  {
    ExactIffMoved(c, size, log);
    MovedIff(c);
  }

  lemma ExactIffMoved(c: seq<int>, size: int, log: seq<Sampled>)
    requires 2 <= |c| && 0 < size && Exact(c, 0, size, log) && Within(log, 0, Edge(0, size, |c|))
    ensures Exact(Convert(c), -Edge(0, size, |c| - 1), 2 * size, log) <==> forall i | 0 <= i < |c| :: Moved(c, i)
  {
    var min := -Edge(0, size, |c| - 1);
    forall i | 0 <= i < |c|
      ensures Convert(c)[i] == Weight(log, Edge(min, 2 * size, i), Edge(min, 2 * size, i + 1)) <==> Moved(c, i)
    {
      assert Convert(c)[i] == PairAt(if |c| % 2 == 1 then c[0 := 0] else c, |c|, i);
      NewBucket(c, size, log, i);
    }
    if Exact(Convert(c), min, 2 * size, log) {
      forall i | 0 <= i < |c| ensures Moved(c, i) {
        assert Convert(c)[i] == Weight(log, Edge(min, 2 * size, i), Edge(min, 2 * size, i + 1));
      }
    }
  }

  lemma MovedIff(c: seq<int>)
    requires 2 <= |c|
    ensures (forall i | 0 <= i < |c| :: Moved(c, i)) <==>
            c[0] == 0 && forall j | 0 <= j < |c| && (|c| - j) % 2 == 0 :: c[j] == 0
  {
    if forall i | 0 <= i < |c| :: Moved(c, i) {
      forall j | 0 <= j < |c| && (|c| - j) % 2 == 0 ensures c[j] == 0 {
        ChainDown(c, j);
      }
      assert Moved(c, (|c| - 1) / 2);
    }
  }

  /** What a conversion keeps of bucket `k`. */
  function Kept(c: seq<int>, k: int): int {
    if |c| % 2 == 1 && k == 0 then 0 else At(c, k)
  }

  /** New bucket `i` is as it should be. */
  predicate Moved(c: seq<int>, i: int) {
    Kept(c, 2 * i - |c|) + Kept(c, 2 * i - |c| + 1) == At(c, 2 * i - |c| + 1) + At(c, 2 * i - |c| + 2)
  }

  lemma {:induction false} ChainDown(c: seq<int>, j: int)
    requires 2 <= |c| && 0 <= j && (|c| - j) % 2 == 0 && forall i | 0 <= i < |c| :: Moved(c, i)
    ensures At(c, j) == 0
    decreases |c| - j
  {
    if j < |c| {
      ChainDown(c, j + 2);
      assert Moved(c, (j + |c|) / 2);
    }
  }

  lemma AnyIsWeight(c: seq<int>, size: int, log: seq<Sampled>, k: int)
    requires 0 < size && Exact(c, 0, size, log) && Within(log, 0, Edge(0, size, |c|))
    ensures At(c, k) == Weight(log, Edge(0, size, k), Edge(0, size, k + 1))
  {
    if 0 <= k {
      AtIsWeight(c, size, log, k);
    } else {
      EdgeStep(size, 0, k + 1);
      assert (-1 - k) * size >= 0;
      WeightOutside(log, Edge(0, size, k), Edge(0, size, k + 1));
    }
  }

  lemma NewEdge(n: nat, size: int, i: int)
    ensures Edge(-Edge(0, size, n - 1), 2 * size, i) == Edge(0, size, 2 * i - n + 1)
  {
    Distribute(2 * i, -(n - 1), size);
    Distribute(i, i, size);
  }

  lemma NewBucket(c: seq<int>, size: int, log: seq<Sampled>, i: nat)
    requires 0 < size && i < |c| && Exact(c, 0, size, log) && Within(log, 0, Edge(0, size, |c|))
    ensures Weight(log, Edge(-Edge(0, size, |c| - 1), 2 * size, i), Edge(-Edge(0, size, |c| - 1), 2 * size, i + 1)) ==
            At(c, 2 * i - |c| + 1) + At(c, 2 * i - |c| + 2)
  {
    var k := 2 * i - |c| + 1;
    AnyIsWeight(c, size, log, k);
    AnyIsWeight(c, size, log, k + 1);
    EdgeStep(size, k, 0);
    EdgeStep(size, k + 1, 0);
    NewEdge(|c|, size, i);
    NewEdge(|c|, size, i + 1);
    WeightSplit(log, Edge(0, size, k), Edge(0, size, k + 1), Edge(0, size, k + 2));
  }

  // ---------- growing outwards ----------

  /** The samples of slot `k`, counting slots of width `width` from `min`. */
  function Slot(log: seq<Sampled>, min: int, width: int, k: int): int {
    Weight(log, Edge(min, width, k), Edge(min, width, k + 1))
  }

  lemma SlotOutside(log: seq<Sampled>, min: int, width: int, n: nat, k: int)
    requires 0 < width && Within(log, min, Edge(min, width, n)) && (k < 0 || n <= k)
    ensures Slot(log, min, width, k) == 0
  {
    if k < 0 {
      ProductSign(-1 - k, width);
      Distribute(-1 - k, k + 1, width);
    } else {
      ProductSign(k - n, width);
      Distribute(k - n, n, width);
    }
    WeightOutside(log, Edge(min, width, k), Edge(min, width, k + 1));
  }

  lemma {:induction false} SlotsJoin(log: seq<Sampled>, min: int, width: int, k: int)
    requires 0 < width
    ensures Weight(log, Edge(min, width, k), Edge(min, width, k + 2))
            == Slot(log, min, width, k) + Slot(log, min, width, k + 1)
  {
    Distribute(k, 1, width);
    Distribute(k + 1, 1, width);
    WeightSplit(log, Edge(min, width, k), Edge(min, width, k + 1), Edge(min, width, k + 2));
  }

  lemma FourSlots(log: seq<Sampled>, min: int, width: int, k: int)
    requires 0 < width
    ensures Weight(log, Edge(min, width, k), Edge(min, width, k + 4)) ==
            Slot(log, min, width, k) + Slot(log, min, width, k + 1) + Slot(log, min, width, k + 2)
            + Slot(log, min, width, k + 3)
  {
    SlotsJoin(log, min, width, k);
    SlotsJoin(log, min, width, k + 2);
    Distribute(k, 2, width);
    Distribute(k + 2, 2, width);
    WeightSplit(log, Edge(min, width, k), Edge(min, width, k + 2), Edge(min, width, k + 4));
  }

  lemma AtIsSlot(c: seq<int>, min: int, size: int, log: seq<Sampled>, k: int)
    requires 0 < size && Exact(c, min, size, log) && Within(log, min, Edge(min, size, |c|))
    ensures At(c, k) == Slot(log, min, size, k)
  {
    if k < 0 || |c| <= k {
      SlotOutside(log, min, size, |c|, k);
    }
  }

  /** With an odd number of buckets the new buckets are pairs of old ones. */
  lemma OutEdgeOdd(n: nat, min: int, size: int, i: int)
    requires n % 2 == 1 && 2 * min == -Edge(0, size, n - 1)
    ensures Edge(2 * min, 2 * size, i) == Edge(min, size, 2 * i - n / 2)
  {
    Distribute(n / 2, n / 2, size);
    Distribute(2 * i, n / 2, size);
    Distribute(i, i, size);
    Associate(i, 2, size);
  }

  lemma OutKeepsExactOdd(c: seq<int>, min: int, size: int, log: seq<Sampled>)
    requires |c| % 2 == 1 && 0 < size && 2 * min == -Edge(0, size, |c| - 1)
    requires Exact(c, min, size, log) && Within(log, min, Edge(min, size, |c|))
    ensures Exact(Out(c), 2 * min, 2 * size, log) <==> |c| % 4 == 1 || c[0] == 0
  {
    var n := |c|;
    forall i | 0 <= i < n
      ensures Weight(log, Edge(2 * min, 2 * size, i), Edge(2 * min, 2 * size, i + 1)) == PairAt(c, n / 2, i)
    {
      OutEdgeOdd(n, min, size, i);
      OutEdgeOdd(n, min, size, i + 1);
      SlotsJoin(log, min, size, 2 * i - n / 2);
      AtIsSlot(c, min, size, log, 2 * i - n / 2);
      AtIsSlot(c, min, size, log, 2 * i - n / 2 + 1);
    }
    OutIffPairs(c);
    if Exact(Out(c), 2 * min, 2 * size, log) {
      forall i | 0 <= i < n ensures Out(c)[i] == PairAt(c, n / 2, i) {
        assert Out(c)[i] == Weight(log, Edge(2 * min, 2 * size, i), Edge(2 * min, 2 * size, i + 1));
      }
    }
  }

  /** Growing outwards merges all pairs exactly if it does not lose a bucket that holds something. */
  lemma OutIffPairs(c: seq<int>)
    requires c != []
    ensures (forall i | 0 <= i < |c| :: Out(c)[i] == PairAt(c, |c| / 2, i)) <==> |c| % 4 != 3 || c[0] == 0
  {
    if |c| % 4 == 3 && c[0] != 0 {
      LostBucket(c);
    } else {
      assert c[0] == 0 ==> c[0 := 0] == c;
      assert Out(c) == Pairs(c, |c| / 2);
    }
  }

  lemma LostBucket(c: seq<int>)
    requires |c| % 4 == 3
    ensures var i := (|c| / 2 - 1) / 2;
            0 <= i < |c| && PairAt(c, |c| / 2, i) == Out(c)[i] + c[0]
  {
    var i := (|c| / 2 - 1) / 2;
    assert 2 * i - |c| / 2 == -1;
    assert Out(c)[i] == PairAt(c[0 := 0], |c| / 2, i);
  }

  /** With an even number of buckets the new buckets start in the middle of old ones. */
  lemma OutEdgeEven(n: nat, min: int, half: int, i: int)
    requires n % 2 == 0 && 2 * min == -Edge(0, 2 * half, n - 1)
    ensures Edge(2 * min, 4 * half, i) == Edge(min, half, 4 * i - n + 1)
  {
    Associate(n - 1, 2, half);
    Distribute(4 * i, n - 1, half);
    Associate(i, 4, half);
  }

  /** The lower half of old bucket `k` is empty. */
  ghost predicate LowerHalfEmpty(log: seq<Sampled>, min: int, half: int, k: int) {
    Slot(log, min, half, 2 * k) == 0
  }

  /** New bucket `i` is as it should be: the half that it has too much is what it lacks. */
  ghost predicate HalfMoved(log: seq<Sampled>, min: int, half: int, n: nat, i: int) {
    Slot(log, min, half, 4 * i - n) == Slot(log, min, half, 4 * i - n + 4)
  }

  lemma EvenBucket(c: seq<int>, min: int, half: int, log: seq<Sampled>, i: nat)
    requires |c| % 2 == 0 && i < |c| && 0 < half && 2 * min == -Edge(0, 2 * half, |c| - 1)
    requires Exact(c, min, 2 * half, log) && Within(log, min, Edge(min, 2 * half, |c|))
    ensures Out(c)[i] == Weight(log, Edge(2 * min, 4 * half, i), Edge(2 * min, 4 * half, i + 1))
            <==> HalfMoved(log, min, half, |c|, i)
  {
    var n := |c|;
    var k := 2 * i - n / 2;
    OutEdgeEven(n, min, half, i);
    OutEdgeEven(n, min, half, i + 1);
    FourSlots(log, min, half, 4 * i - n + 1);
    assert Out(c)[i] == PairAt(c, n / 2, i);
    HalvesOf(c, min, half, log, k);
    HalvesOf(c, min, half, log, k + 1);
  }

  lemma HalvesOf(c: seq<int>, min: int, half: int, log: seq<Sampled>, k: int)
    requires 0 < half && Exact(c, min, 2 * half, log) && Within(log, min, Edge(min, 2 * half, |c|))
    ensures At(c, k) == Slot(log, min, half, 2 * k) + Slot(log, min, half, 2 * k + 1)
  {
    AtIsSlot(c, min, 2 * half, log, k);
    SlotsJoin(log, min, half, 2 * k);
    Associate(k, 2, half);
    Associate(k + 1, 2, half);
  }

  lemma {:induction false} HalvesDown(log: seq<Sampled>, min: int, half: int, n: nat, k: int)
    requires 0 < half && n % 2 == 0 && Within(log, min, Edge(min, half, 2 * n)) && (k - n / 2) % 2 == 0 && 0 <= k
    requires forall i | 0 <= i < n :: HalfMoved(log, min, half, n, i)
    ensures LowerHalfEmpty(log, min, half, k)
    decreases n - k
  {
    if k < n {
      HalvesDown(log, min, half, n, k + 2);
      var i := (2 * k + n) / 4;
      assert 4 * i - n == 2 * k && 4 * i - n + 4 == 2 * (k + 2);
      assert HalfMoved(log, min, half, n, i);
    } else {
      SlotOutside(log, min, half, 2 * n, 2 * k);
    }
  }

  lemma HalvesUp(log: seq<Sampled>, min: int, half: int, n: nat, i: nat)
    requires 0 < half && n % 2 == 0 && i < n && Within(log, min, Edge(min, half, 2 * n))
    requires forall k | 0 <= k < n && (k - n / 2) % 2 == 0 :: LowerHalfEmpty(log, min, half, k)
    ensures HalfMoved(log, min, half, n, i)
  {
    HalfIsEmpty(log, min, half, n, 2 * i - n / 2);
    HalfIsEmpty(log, min, half, n, 2 * i - n / 2 + 2);
  }

  lemma HalfIsEmpty(log: seq<Sampled>, min: int, half: int, n: nat, k: int)
    requires 0 < half && n % 2 == 0 && (k - n / 2) % 2 == 0 && Within(log, min, Edge(min, half, 2 * n))
    requires forall k | 0 <= k < n && (k - n / 2) % 2 == 0 :: LowerHalfEmpty(log, min, half, k)
    ensures Slot(log, min, half, 2 * k) == 0
  {
    if 0 <= k < n {
      assert LowerHalfEmpty(log, min, half, k);
    } else {
      SlotOutside(log, min, half, 2 * n, 2 * k);
    }
  }

  lemma OutKeepsExactEven(c: seq<int>, min: int, half: int, log: seq<Sampled>)
    requires 0 < |c| && |c| % 2 == 0 && 0 < half && 2 * min == -Edge(0, 2 * half, |c| - 1)
    requires Exact(c, min, 2 * half, log) && Within(log, min, Edge(min, 2 * half, |c|))
    ensures Exact(Out(c), 2 * min, 4 * half, log) <==>
            forall k | 0 <= k < |c| && (k - |c| / 2) % 2 == 0 :: LowerHalfEmpty(log, min, half, k)
  {
    var n := |c|;
    Associate(n, 2, half);
    forall i | 0 <= i < n
      ensures Out(c)[i] == Weight(log, Edge(2 * min, 4 * half, i), Edge(2 * min, 4 * half, i + 1))
              <==> HalfMoved(log, min, half, n, i)
    {
      EvenBucket(c, min, half, log, i);
    }
    if Exact(Out(c), 2 * min, 4 * half, log) {
      forall i | 0 <= i < n ensures HalfMoved(log, min, half, n, i) {
        assert Out(c)[i] == Weight(log, Edge(2 * min, 4 * half, i), Edge(2 * min, 4 * half, i + 1));
      }
      forall k | 0 <= k < n && (k - n / 2) % 2 == 0 ensures LowerHalfEmpty(log, min, half, k) {
        HalvesDown(log, min, half, n, k);
      }
    }
    if forall k | 0 <= k < n && (k - n / 2) % 2 == 0 :: LowerHalfEmpty(log, min, half, k) {
      forall i | 0 <= i < n ensures HalfMoved(log, min, half, n, i) {
        HalvesUp(log, min, half, n, i);
      }
    }
  }

  /** Growing outwards leaves the buckets of a converted histogram exact: for an odd number of buckets exactly if no
      count is lost, and for an even number exactly if every second bucket has an empty lower half. */
  lemma OutKeepsExactIff(h: Hist, doublings: nat, log: seq<Sampled>)
    requires HistogramOk(h, doublings, log) && h.min < 0
    requires Exact(h.c, h.min, h.size, log) && Within(log, h.min, Edge(h.min, h.size, |h.c|))
    ensures var n, g := |h.c|, GrownOut(h);
            Exact(g.c, g.min, g.size, log) <==>
            if n % 2 == 1 then n % 4 == 1 || h.c[0] == 0
            else forall k | 0 <= k < n && (k - n / 2) % 2 == 0 :: LowerHalfEmpty(log, h.min, h.size / 2, k)
  {
    if |h.c| % 2 == 1 {
      OutKeepsExactOdd(h.c, h.min, h.size, log);
    } else {
      assert 0 < doublings;
      assert h.size == 2 * Pow2(doublings - 1);
      OutKeepsExactEven(h.c, h.min, h.size / 2, log);
    }
  }
}
