/** The clock-domain crosser: how often the other domain is clocked. */
module ClockDomain {
  import opened Numbers

  datatype Counters = Counters(one: nat, two: nat, calls: nat)

  /** How many steps of `clock2` bring `two` up to `one`. */
  function Rounds(one: nat, two: nat, clock2: nat): (r: nat)
    requires 0 < clock2
    decreases one - two
  {
    if one <= two then 0 else Rounds(one, two + clock2, clock2) + 1
  }

  function Next(clock1: nat, clock2: nat, callback: bool, s: Counters): Counters
    requires 0 < clock2
  {
    if clock1 == clock2 && callback then s.(calls := s.calls + 1)
    else
      var one := s.one + clock1;
      var rounds := Rounds(one, s.two, clock2);
      var two := s.two + rounds * clock2;
      var calls := s.calls + if callback then rounds else 0;
      if one == two then Counters(0, 0, calls) else Counters(one, two, calls)
  }

  class ClockDomainCrosser {
    const clock1: nat
    const clock2: nat
    const callback: bool
    var counter1: nat
    var counter2: nat
    /** How often the callback has been called. */
    var calls: nat

    function State(): Counters
      reads this
    {
      Counters(counter1, counter2, calls)
    }

    constructor (clock1: nat, clock2: nat, callback: bool)
      ensures this.clock1 == clock1 && this.clock2 == clock2 && this.callback == callback
      ensures State() == Counters(0, 0, 0)
    {
      this.clock1, this.clock2, this.callback := clock1, clock2, callback;
      counter1, counter2, calls := 0, 0, 0;
    }

    method Update()
      requires 0 < clock2
      modifies this
      ensures State() == Next(clock1, clock2, callback, old(State()))
    {
      if clock1 == clock2 && callback {
        calls := calls + 1;
        return;
      }
      counter1 := counter1 + clock1;
      ghost var done: nat := 0;
      while counter2 < counter1
        invariant counter1 == old(counter1) + clock1
        invariant counter2 == old(counter2) + done * clock2
        invariant calls == old(calls) + if callback then done else 0
        invariant done + Rounds(counter1, counter2, clock2) == Rounds(counter1, old(counter2), clock2)
        decreases counter1 - counter2
      {
        assert (done + 1) * clock2 == done * clock2 + clock2;
        counter2 := counter2 + clock2;
        if callback {
          calls := calls + 1;
        }
        done := done + 1;
      }
      if counter1 == counter2 {
        counter1, counter2 := 0, 0;
      }
    }
  }

  // ---------- what a run of updates does ----------

  function Run(clock1: nat, clock2: nat, callback: bool, n: nat): Counters
    requires 0 < clock2
  {
    if n == 0 then Counters(0, 0, 0) else Next(clock1, clock2, callback, Run(clock1, clock2, callback, n - 1))
  }

  /** Catching up stops at the first multiple that is not too small. */
  lemma {:induction false} RoundsAreLeast(one: nat, two: nat, clock2: nat)
    requires 0 < clock2 && two <= one + clock2 - 1
    ensures var up := two + Rounds(one, two, clock2) * clock2;
            one <= up < one + clock2
    decreases one - two
  {
    if two < one {
      RoundsAreLeast(one, two + clock2, clock2);
      var r := Rounds(one, two + clock2, clock2);
      assert (r + 1) * clock2 == r * clock2 + clock2;
    }
  }

  /** After `n` updates `m` and `k` count what happened since the counters were last zero. */
  ghost predicate Since(clock1: nat, clock2: nat, s: Counters, m: nat, k: nat) {
    && s.one == m * clock1 && s.two == k * clock2
    && s.one <= s.two < s.one + clock2
  }

  lemma NextSince(clock1: nat, clock2: nat, callback: bool, s: Counters, m: nat, k: nat) returns (m': nat, k': nat)
    requires 0 < clock2 && Since(clock1, clock2, s, m, k)
    ensures Since(clock1, clock2, Next(clock1, clock2, callback, s), m', k')
  {
    if clock1 == clock2 && callback {
      m', k' := m, k;
    } else {
      var rounds := Rounds(s.one + clock1, s.two, clock2);
      RoundsAreLeast(s.one + clock1, s.two, clock2);
      assert (m + 1) * clock1 == m * clock1 + clock1;
      assert (k + rounds) * clock2 == k * clock2 + rounds * clock2;
      m', k' := m + 1, k + rounds;
      if s.one + clock1 == s.two + rounds * clock2 {
        m', k' := 0, 0;
      }
    }
  }

  /** The counters always stay within one step of each other. */
  lemma {:induction false} CountersStayClose(clock1: nat, clock2: nat, callback: bool, n: nat) returns (m: nat, k: nat)
    requires 0 < clock2
    ensures Since(clock1, clock2, Run(clock1, clock2, callback, n), m, k)
  {
    if n == 0 {
      m, k := 0, 0;
    } else {
      var m0, k0 := CountersStayClose(clock1, clock2, callback, n - 1);
      m, k := NextSince(clock1, clock2, callback, Run(clock1, clock2, callback, n - 1), m0, k0);
    }
  }

  /** Without a callback nothing is ever called. */
  lemma {:induction false} NeverCalled(clock1: nat, clock2: nat, n: nat)
    requires 0 < clock2
    ensures Run(clock1, clock2, false, n).calls == 0
  {
    if n > 0 {
      NeverCalled(clock1, clock2, n - 1);
    }
  }

  /** `c` is `a / b` rounded up. */
  predicate IsCeiling(c: int, a: int, b: int) {
    (c - 1) * b < a <= c * b
  }

  lemma NextAhead(clock1: nat, clock2: nat, s: Counters)
    requires 0 < clock2
    ensures var r := Next(clock1, clock2, true, s);
            r.calls * clock2 - r.two + r.one == s.calls * clock2 - s.two + s.one + clock1
  {
    if clock1 == clock2 {
      Distribute(s.calls, 1, clock2);
    } else {
      Distribute(s.calls, Rounds(s.one + clock1, s.two, clock2), clock2);
    }
  }

  /** The calls that the whole run is ahead of the first domain are what the counters say. */
  lemma {:induction false} CallsAhead(clock1: nat, clock2: nat, n: nat)
    requires 0 < clock2
    ensures var s := Run(clock1, clock2, true, n);
            s.calls * clock2 - n * clock1 == s.two - s.one
  {
    if n > 0 {
      CallsAhead(clock1, clock2, n - 1);
      NextAhead(clock1, clock2, Run(clock1, clock2, true, n - 1));
      Distribute(n, 1, clock1);
    }
  }

  /** After `n` updates the callback has been called `n * clock1 / clock2` times, rounded up. */
  lemma CallsAfter(clock1: nat, clock2: nat, n: nat)
    requires 0 < clock2
    ensures IsCeiling(Run(clock1, clock2, true, n).calls, n * clock1, clock2)
  {
    var m, k := CountersStayClose(clock1, clock2, true, n);
    CallsAhead(clock1, clock2, n);
    var calls := Run(clock1, clock2, true, n).calls;
    Distribute(calls, 1, clock2);
  }

  lemma NextBelow(clock1: nat, clock2: nat, callback: bool, s: Counters, m: nat, k: nat, a: nat, b: nat)
    requires 0 < clock2 && Since(clock1, clock2, s, m, k) && a * clock1 == b * clock2
    requires s.one < a * clock1 && s.two <= a * clock1
    ensures var r := Next(clock1, clock2, callback, s);
            0 < clock1 ==> r.one < a * clock1 && r.two <= a * clock1
  {
    if 0 < clock1 && !(clock1 == clock2 && callback) {
      var rounds := Rounds(s.one + clock1, s.two, clock2);
      MultipleSteps(m, a, clock1);
      RoundsAreLeast(s.one + clock1, s.two, clock2);
      Distribute(k, rounds, clock2);
      Distribute(k + rounds, 1, clock2);
      if s.two + rounds * clock2 - clock2 < b * clock2 {
        MultipleSteps(k + rounds - 1, b, clock2);
      }
    }
  }

  /** A common multiple of the clocks is never passed, and counters that reach it start again. */
  lemma {:induction false} BelowCommonMultiple(clock1: nat, clock2: nat, callback: bool, n: nat, a: nat, b: nat)
    requires 0 < clock1 && 0 < clock2 && 0 < a && a * clock1 == b * clock2
    ensures var s := Run(clock1, clock2, callback, n);
            s.one < a * clock1 && s.two <= a * clock1
  {
    if n == 0 {
      assert a * clock1 > 0;
    } else {
      BelowCommonMultiple(clock1, clock2, callback, n - 1, a, b);
      var m, k := CountersStayClose(clock1, clock2, callback, n - 1);
      NextBelow(clock1, clock2, callback, Run(clock1, clock2, callback, n - 1), m, k, a, b);
    }
  }

  /** A smaller multiple is smaller by a whole step. */
  lemma MultipleSteps(i: int, j: int, step: nat)
    requires 0 < step && i * step < j * step
    ensures i * step + step <= j * step
  {
    Distribute(i, j, step);
    ProductSign(i - j, step);
    Distribute(j, i + 1, step);
    Distribute(i, 1, step);
    ProductSign(j - (i + 1), step);
  }
}
