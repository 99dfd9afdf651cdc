/** MacSim's latency and priority queue: a ring of buckets that refines a list of stages. */
module DelayQueue {
  import opened Options

  datatype Entry<T> = Entry(priority: int, data: T)

  // ---------- stages ----------

  /** Insertion before the first entry of lower priority. */
  function Insert<T>(s: seq<Entry<T>>, e: Entry<T>): (r: seq<Entry<T>>) {
    if s == [] then [e]
    else if s[0].priority < e.priority then [e] + s
    else [s[0]] + Insert(s[1..], e)
  }

  function Size<T>(stages: seq<seq<Entry<T>>>): nat {
    if stages == [] then 0 else |stages[0]| + Size(stages[1..])
  }

  function Flatten<T>(stages: seq<seq<Entry<T>>>): (r: seq<Entry<T>>)
    ensures |r| == Size(stages)
  {
    if stages == [] then [] else stages[0] + Flatten(stages[1..])
  }

  function Enqueued<T>(stages: seq<seq<Entry<T>>>, e: Entry<T>): (r: seq<seq<Entry<T>>>)
    requires stages != []
    ensures |r| == |stages|
  {
    var last := |stages| - 1;
    stages[last := Insert(stages[last], e)]
  }

  function Dequeued<T>(stages: seq<seq<Entry<T>>>): (r: seq<seq<Entry<T>>>)
    requires stages != [] && stages[0] != []
    ensures |r| == |stages|
  {
    stages[0 := stages[0][1..]]
  }

  /** Every stage moves up by one, unless nothing is queued or the first stage still holds something. */
  predicate Moves<T>(stages: seq<seq<Entry<T>>>)
    requires stages != []
  {
    Size(stages) != 0 && |stages[0]| == 0
  }

  function Advanced<T>(stages: seq<seq<Entry<T>>>): (r: seq<seq<Entry<T>>>)
    requires stages != []
    ensures |r| == |stages|
  {
    if Moves(stages) then stages[1..] + [[]] else stages
  }

  /** The bucket `i` places after bucket `c`, in a ring of `n`. */
  function Slot(c: nat, i: nat, n: nat): (r: nat)
    requires c < n && i <= n
    ensures r < n
  {
    if c + i < n then c + i else c + i - n
  }

  lemma SlotIsModulo(c: nat, i: nat, n: nat)
    requires c < n && i <= n
    ensures Slot(c, i, n) == (c + i) % n
  {
  }

  // ---------- the ring, updated in place ----------

  class PriorityQueue<T(0)> {
    const capacity: nat
    const entry: array<seq<Entry<T>>>
    var currentIndex: nat
    var lastIndex: nat
    var numEntry: nat

    ghost predicate Shape()
      reads this
    {
      && 0 < entry.Length && currentIndex < entry.Length
      && lastIndex == Slot(currentIndex, entry.Length - 1, entry.Length)
    }

    /** The buckets, from the one in turn on. */
    ghost function Stages(): (r: seq<seq<Entry<T>>>)
      requires Shape()
      reads this, entry
      ensures |r| == entry.Length
      ensures forall i | 0 <= i < |r| :: r[i] == entry[Slot(currentIndex, i, entry.Length)]
    {
      seq(entry.Length, i requires 0 <= i < entry.Length reads this, entry requires Shape() =>
        entry[Slot(currentIndex, i, entry.Length)])
    }

    ghost predicate Valid()
      reads this, entry
    {
      Shape() && numEntry == Size(Stages()) <= capacity
    }

    constructor (size: nat, latency: nat)
      ensures Valid() && fresh(entry) && capacity == size
      ensures Stages() == seq(latency + 1, i => [])
    {
      capacity := size;
      entry := new seq<Entry<T>>[latency + 1](_ => []);
      currentIndex, lastIndex, numEntry := 0, latency, 0;
      new;
      AllEmpty(Stages());
    }

    method Ready() returns (ready: bool)
      requires Valid()
      ensures ready <==> Stages()[0] != []
    {
      ready := |entry[currentIndex]| != 0;
    }

    method Enqueue(priority: int, data: T)
      requires Valid() && numEntry < capacity
      modifies this`numEntry, entry
      ensures Valid() && Stages() == Enqueued(old(Stages()), Entry(priority, data))
    {
      ghost var stages := Stages();
      var e := Entry(priority, data);
      var list := entry[lastIndex];
      numEntry := numEntry + 1;
      var i := 0;
      while i < |list| && list[i].priority >= priority
        invariant i <= |list|
        invariant list[..i] + Insert(list[i..], e) == Insert(list, e)
      {
        assert list[i..][1..] == list[i + 1..];
        assert list[..i + 1] == list[..i] + [list[i]];
        i := i + 1;
      }
      assert Insert(list[i..], e) == [e] + list[i..];
      entry[lastIndex] := list[..i] + ([e] + list[i..]);
      assert stages[entry.Length - 1] == list;
      assert Stages() == Enqueued(stages, e);
      InsertSize(list, e);
      SizeUpdate(stages, entry.Length - 1, Insert(list, e));
    }

    method Dequeue() returns (priority: int, data: T)
      requires Valid() && Stages()[0] != []
      modifies this`numEntry, entry
      ensures Valid() && Stages() == Dequeued(old(Stages()))
      ensures Entry(priority, data) == old(Stages())[0][0]
    {
      ghost var stages := Stages();
      var e := entry[currentIndex][0];
      priority, data := e.priority, e.data;
      SizeUpdate(stages, 0, stages[0][1..]);
      entry[currentIndex] := entry[currentIndex][1..];
      numEntry := numEntry - 1;
      assert Stages() == Dequeued(stages);
    }

    method Advance()
      requires Valid()
      modifies this`currentIndex, this`lastIndex
      ensures Valid() && Stages() == Advanced(old(Stages()))
    {
      if numEntry == 0 {
        return;
      }
      if |entry[currentIndex]| != 0 {
        return;
      }
      ghost var stages := Stages();
      lastIndex := currentIndex;
      SlotIsModulo(currentIndex, 1, entry.Length);
      currentIndex := (currentIndex + 1) % entry.Length;
      assert Stages() == Advanced(stages);
      MoveSize(stages);
    }

    /** The entry at position `n` of the stages taken together.  Position `numEntry` passes the check of the
        source, although there is no entry to return: the result is then arbitrary there, and `None` here. */
    method Peek(n: int) returns (data: Option<T>)
      requires Valid() && n <= numEntry
      ensures data == if 0 <= n < numEntry then Some(Flatten(Stages())[n].data) else None
    {
      data := None;
      var count := 0;
      for k := 0 to entry.Length
        invariant count == Size(Stages()[..k])
        invariant data == if 0 <= n < count then Some(Flatten(Stages()[..k])[n].data) else None
      {
        SlotIsModulo(currentIndex, k, entry.Length);
        var list := entry[(currentIndex + k) % entry.Length];
        SplitLast(Stages(), k);
        if count <= n < count + |list| {
          data := Some(list[n - count].data);
        }
        count := count + |list|;
      }
      assert Stages()[..entry.Length] == Stages();
    }

    method Space() returns (n: nat)
      requires Valid()
      ensures n + Size(Stages()) == capacity
    {
      n := capacity - numEntry;
    }
  }

  // ---------- sizes ----------

  lemma {:induction false} AllEmpty<T>(stages: seq<seq<Entry<T>>>)
    requires forall i | 0 <= i < |stages| :: stages[i] == []
    ensures Size(stages) == 0
  {
    if stages != [] {
      AllEmpty(stages[1..]);
    }
  }

  lemma {:induction false} SizeUpdate<T>(stages: seq<seq<Entry<T>>>, i: nat, s: seq<Entry<T>>)
    requires i < |stages|
    ensures Size(stages[i := s]) == Size(stages) - |stages[i]| + |s|
  {
    if i == 0 {
      assert stages[i := s][1..] == stages[1..];
    } else {
      assert stages[i := s][1..] == stages[1..][i - 1 := s];
      SizeUpdate(stages[1..], i - 1, s);
    }
  }

  lemma {:induction false} InsertSize<T>(s: seq<Entry<T>>, e: Entry<T>)
    ensures |Insert(s, e)| == |s| + 1
  {
    if s != [] {
      InsertSize(s[1..], e);
    }
  }

  lemma {:induction false} SizeAppend<T>(a: seq<seq<Entry<T>>>, b: seq<seq<Entry<T>>>)
    ensures Size(a + b) == Size(a) + Size(b)
    ensures Flatten(a + b) == Flatten(a) + Flatten(b)
  {
    if a == [] {
      assert a + b == b;
    } else {
      assert (a + b)[1..] == a[1..] + b;
      SizeAppend(a[1..], b);
    }
  }

  lemma MoveSize<T>(stages: seq<seq<Entry<T>>>)
    requires stages != []
    ensures Size(Advanced(stages)) == Size(stages)
  {
    SizeAppend(stages[1..], [[]]);
    assert Size<T>([[]]) == 0 by {
      AllEmpty<T>([[]]);
    }
  }

  lemma SplitLast<T>(stages: seq<seq<Entry<T>>>, k: nat)
    requires k < |stages|
    ensures Size(stages[..k + 1]) == Size(stages[..k]) + |stages[k]|
    ensures Flatten(stages[..k + 1]) == Flatten(stages[..k]) + stages[k]
  {
    assert stages[..k + 1] == stages[..k] + [stages[k]];
    SizeAppend(stages[..k], [stages[k]]);
    assert [stages[k]][1..] == [];
    assert Flatten([stages[k]]) == stages[k];
  }

  // ---------- order ----------

  /** Highest priority first, and of the same priority the one that arrived first; the data is the arrival. */
  ghost predicate Ranked(s: seq<Entry<nat>>) {
    forall i, j | 0 <= i < j < |s| ::
      s[j].priority < s[i].priority || (s[j].priority == s[i].priority && s[i].data < s[j].data)
  }

  ghost predicate AllRanked(stages: seq<seq<Entry<nat>>>) {
    forall k | 0 <= k < |stages| :: Ranked(stages[k])
  }

  ghost predicate Earlier(stages: seq<seq<Entry<nat>>>, now: nat) {
    forall k, i | 0 <= k < |stages| && 0 <= i < |stages[k]| :: stages[k][i].data < now
  }

  lemma {:induction false} InsertSplits<T>(s: seq<Entry<T>>, e: Entry<T>) returns (k: nat)
    ensures k <= |s| && Insert(s, e) == s[..k] + [e] + s[k..]
    ensures forall i | 0 <= i < k :: e.priority <= s[i].priority
    ensures k < |s| ==> s[k].priority < e.priority
  {
    if s == [] || s[0].priority < e.priority {
      k := 0;
    } else {
      var m := InsertSplits(s[1..], e);
      k := m + 1;
      assert s[..k] == [s[0]] + s[1..][..m];
      assert s[k..] == s[1..][m..];
    }
  }

  /** Inserting a later arrival keeps the order. */
  lemma InsertRanked(s: seq<Entry<nat>>, e: Entry<nat>)
    requires Ranked(s) && forall i | 0 <= i < |s| :: s[i].data < e.data
    ensures Ranked(Insert(s, e))
  {
    var k := InsertSplits(s, e);
    forall i | k <= i < |s| ensures s[i].priority < e.priority {
    }
  }

  datatype Op = Enq(priority: int) | Deq | Adv

  /** What an operation does to the stages; a dequeue without a ready entry is not one. */
  function Step(stages: seq<seq<Entry<nat>>>, op: Op, now: nat): (r: seq<seq<Entry<nat>>>)
    requires stages != []
    ensures |r| == |stages|
  {
    match op
    case Enq(priority) => Enqueued(stages, Entry(priority, now))
    case Deq => if stages[0] == [] then stages else Dequeued(stages)
    case Adv => Advanced(stages)
  }

  /** The stages after `ops`, the first of which happens at `start`. */
  function Run(stages: seq<seq<Entry<nat>>>, ops: seq<Op>, start: nat): (r: seq<seq<Entry<nat>>>)
    requires stages != []
    ensures |r| == |stages|
  {
    if ops == [] then stages else Step(Run(stages, ops[..|ops| - 1], start), ops[|ops| - 1], start + |ops| - 1)
  }

  lemma {:induction false} InsertHas<T>(s: seq<Entry<T>>, e: Entry<T>)
    ensures forall x :: x in Insert(s, e) <==> x == e || x in s
  {
    var k := InsertSplits(s, e);
    assert s == s[..k] + s[k..];
  }

  lemma StepRanked(stages: seq<seq<Entry<nat>>>, op: Op, now: nat)
    requires stages != [] && AllRanked(stages) && Earlier(stages, now)
    ensures AllRanked(Step(stages, op, now)) && Earlier(Step(stages, op, now), now + 1)
  {
    if op.Enq? {
      var last := |stages| - 1;
      var e := Entry(op.priority, now);
      InsertRanked(stages[last], e);
      InsertHas(stages[last], e);
      forall i | 0 <= i < |Insert(stages[last], e)| ensures Insert(stages[last], e)[i].data < now + 1 {
        assert Insert(stages[last], e)[i] in Insert(stages[last], e);
      }
    }
  }

  /** In every run every stage is in order, so a dequeue returns the entry of highest priority of the ready
      stage, and of those the oldest. */
  lemma {:induction false} EveryStageIsRanked(latency: nat, ops: seq<Op>)
    ensures var r := Run(seq(latency + 1, i => []), ops, 0);
            AllRanked(r) && Earlier(r, |ops|)
  {
    if ops != [] {
      EveryStageIsRanked(latency, ops[..|ops| - 1]);
      StepRanked(Run(seq(latency + 1, i => []), ops[..|ops| - 1], 0), ops[|ops| - 1], |ops| - 1);
    }
  }

  lemma FlattenUpdate<T>(stages: seq<seq<Entry<T>>>, i: nat, s: seq<Entry<T>>)
    requires i < |stages|
    ensures multiset(Flatten(stages[i := s])) + multiset(stages[i]) == multiset(Flatten(stages)) + multiset(s)
  {
    SizeAppend(stages[..i], [stages[i]] + stages[i + 1..]);
    SizeAppend([stages[i]], stages[i + 1..]);
    SizeAppend(stages[..i], [s] + stages[i + 1..]);
    SizeAppend([s], stages[i + 1..]);
    assert stages == stages[..i] + ([stages[i]] + stages[i + 1..]);
    assert stages[i := s] == stages[..i] + ([s] + stages[i + 1..]);
    assert [stages[i]][1..] == [] && [s][1..] == [];
    assert Flatten([stages[i]]) == stages[i] && Flatten([s]) == s;
  }

  lemma {:induction false} InsertAdds<T>(s: seq<Entry<T>>, e: Entry<T>)
    ensures multiset(Insert(s, e)) == multiset(s) + multiset{e}
  {
    if s != [] {
      assert s == [s[0]] + s[1..];
      InsertAdds(s[1..], e);
    }
  }

  lemma Cancel<T>(a: multiset<T>, b: multiset<T>, s: multiset<T>, e: multiset<T>)
    requires a + s == b + (s + e)
    ensures a == b + e
  {
    forall x ensures a[x] == (b + e)[x] {
      assert (a + s)[x] == (b + (s + e))[x];
    }
  }

  lemma EnqueuedConserves<T>(stages: seq<seq<Entry<T>>>, e: Entry<T>)
    requires stages != []
    ensures multiset(Flatten(Enqueued(stages, e))) == multiset(Flatten(stages)) + multiset{e}
  {
    var s := stages[|stages| - 1];
    InsertAdds(s, e);
    FlattenUpdate(stages, |stages| - 1, Insert(s, e));
    Cancel(multiset(Flatten(Enqueued(stages, e))), multiset(Flatten(stages)), multiset(s), multiset{e});
  }

  lemma DequeuedConserves<T>(stages: seq<seq<Entry<T>>>)
    requires stages != [] && stages[0] != []
    ensures Flatten(stages) == [stages[0][0]] + Flatten(Dequeued(stages))
  {
    assert stages[0] == [stages[0][0]] + stages[0][1..];
    assert Dequeued(stages)[1..] == stages[1..];
  }

  lemma AdvancedConserves<T>(stages: seq<seq<Entry<T>>>)
    requires stages != []
    ensures Flatten(Advanced(stages)) == Flatten(stages)
  {
    var none: seq<seq<Entry<T>>> := [[]];
    SizeAppend(stages[1..], none);
    assert none[1..] == [] && Flatten(none) == [];
  }

  /** Nothing is lost and nothing is invented: an enqueue adds its entry, a dequeue removes the first entry of the ready
      stage, and an advance changes no order at all. */
  lemma StepConserves(stages: seq<seq<Entry<nat>>>, op: Op, now: nat)
    requires stages != []
    ensures op.Enq? ==>
              multiset(Flatten(Step(stages, op, now)))
              == multiset(Flatten(stages)) + multiset{Entry(op.priority, now)}
    ensures op == Deq && stages[0] != [] ==> Flatten(stages) == [stages[0][0]] + Flatten(Step(stages, op, now))
    ensures op == Deq && stages[0] == [] ==> Step(stages, op, now) == stages
    ensures op == Adv ==> Flatten(Step(stages, op, now)) == Flatten(stages)
  {
    match op {
      case Enq(priority) => EnqueuedConserves(stages, Entry(priority, now));
      case Deq =>
        if stages[0] != [] {
          DequeuedConserves(stages);
        }
      case Adv => AdvancedConserves(stages);
    }
  }

  // ---------- latency ----------

  /** How many of the advances in `ops` move the stages. */
  function MoveCount(stages: seq<seq<Entry<nat>>>, ops: seq<Op>, start: nat): nat
    requires stages != []
  {
    if ops == [] then 0
    else
      var p := ops[..|ops| - 1];
      MoveCount(stages, p, start) + if ops[|ops| - 1] == Adv && Moves(Run(stages, p, start)) then 1 else 0
  }

  lemma {:induction false} SizePositive<T>(stages: seq<seq<Entry<T>>>, k: nat)
    requires k < |stages| && stages[k] != []
    ensures 0 < Size(stages)
  {
    if k > 0 {
      SizePositive(stages[1..], k - 1);
    }
  }

  /** Entry `x` is in stage `j` and in no other. */
  ghost predicate OnlyIn(stages: seq<seq<Entry<nat>>>, j: nat, x: Entry<nat>) {
    && j < |stages| && x in stages[j]
    && forall k | 0 <= k < |stages| && k != j :: x !in stages[k]
  }

  /** An operation moves an entry that is not ready yet only with a moving advance. */
  lemma StepStage(stages: seq<seq<Entry<nat>>>, op: Op, now: nat, j: nat, x: Entry<nat>)
    requires OnlyIn(stages, j, x) && 0 < j && x.data != now
    ensures OnlyIn(Step(stages, op, now), if op == Adv && Moves(stages) then j - 1 else j, x)
  {
    match op {
      case Enq(priority) =>
        InsertHas(stages[|stages| - 1], Entry(priority, now));
      case Deq =>
        if stages[0] != [] {
          assert forall y | y in stages[0][1..] :: y in stages[0];
        }
      case Adv =>
    }
  }

  /** Until it has been moved `k` times, an entry of stage `k` stays queued, one stage further up for each
      advance that moves the stages, and nowhere else. */
  lemma {:induction false} StageAfter(stages: seq<seq<Entry<nat>>>, ops: seq<Op>, start: nat, k: nat, x: Entry<nat>)
    requires OnlyIn(stages, k, x) && x.data < start
    ensures MoveCount(stages, ops, start) < k ==> OnlyIn(Run(stages, ops, start), k - MoveCount(stages, ops, start), x)
    ensures MoveCount(stages, ops, start) == k && (ops == [] || MoveCount(stages, ops[..|ops| - 1], start) < k) ==>
              OnlyIn(Run(stages, ops, start), 0, x)
  {
    if ops != [] {
      var p, op := ops[..|ops| - 1], ops[|ops| - 1];
      StageAfter(stages, p, start, k, x);
      if MoveCount(stages, p, start) < k {
        StepStage(Run(stages, p, start), op, start + |p|, k - MoveCount(stages, p, start), x);
      }
    }
  }

  lemma Arrives(stages: seq<seq<Entry<nat>>>, priority: int, now: nat)
    requires stages != [] && Earlier(stages, now)
    ensures OnlyIn(Step(stages, Enq(priority), now), |stages| - 1, Entry(priority, now))
  {
    var x := Entry(priority, now);
    InsertHas(stages[|stages| - 1], x);
    forall k | 0 <= k < |stages| ensures x !in stages[k] {
    }
  }

  /** An entry becomes ready with exactly the `latency`-th advance after its arrival that moves the stages: until
      then it is queued and not ready, with that advance it is ready, and without latency it is ready at once. */
  lemma ReadyAfterLatency(stages: seq<seq<Entry<nat>>>, priority: int, ops: seq<Op>, now: nat)
    requires stages != [] && Earlier(stages, now)
    ensures var x := Entry(priority, now);
            var s := Step(stages, Enq(priority), now);
            var latency, m := |stages| - 1, MoveCount(s, ops, now + 1);
            var r := Run(s, ops, now + 1);
            && (m < latency ==> x in r[latency - m] && x !in r[0])
            && (m == latency && (ops == [] || MoveCount(s, ops[..|ops| - 1], now + 1) < latency) ==> x in r[0])
            && (latency == 0 ==> x in s[0])
  {
    Arrives(stages, priority, now);
    StageAfter(Step(stages, Enq(priority), now), ops, now + 1, |stages| - 1, Entry(priority, now));
  }

  /** A ready entry that is not taken holds back everything behind it. */
  lemma ReadyStalls<T>(stages: seq<seq<Entry<T>>>)
    requires stages != []
    ensures Moves(stages) <==> stages[0] == [] && exists k :: 0 <= k < |stages| && stages[k] != []
  {
    if Size(stages) != 0 && forall k | 0 <= k < |stages| :: stages[k] == [] {
      AllEmpty(stages);
    }
    if k :| 0 <= k < |stages| && stages[k] != [] {
      SizePositive(stages, k);
    }
  }
}
