/** Powers of two, quotients and remainders, as several components use them. */
module Numbers {

  function Pow2(n: nat): (r: nat)
    ensures 0 < r
  {
    if n == 0 then 1 else 2 * Pow2(n - 1)
  }

  /** The logarithm rounded down, and 0 for 0. */
  function FloorLog2(n: nat): (p: nat)
    ensures 0 < n ==> Pow2(p) <= n < Pow2(p + 1)
  {
    if n <= 1 then 0 else FloorLog2(n / 2) + 1
  }

  lemma {:induction false} Pow2Sum(a: nat, b: nat)
    ensures Pow2(a + b) == Pow2(a) * Pow2(b)
  {
    if a > 0 {
      Pow2Sum(a - 1, b);
    }
  }

  lemma {:induction false} Pow2Order(a: nat, b: nat)
    ensures a <= b <==> Pow2(a) <= Pow2(b)
  {
    if 0 < a && 0 < b {
      Pow2Order(a - 1, b - 1);
    }
  }

  /** `hi` units and `lo`. */
  function Glue(hi: nat, unit: nat, lo: nat): nat {
    hi * unit + lo
  }

  function Hi(a: nat, unit: nat): nat
    requires 0 < unit
  {
    a / unit
  }

  function Lo(a: nat, unit: nat): (r: nat)
    requires 0 < unit
    ensures r < unit
  {
    a % unit
  }

  lemma Distribute(x: int, y: int, z: int)
    ensures (x + y) * z == x * z + y * z
    ensures (x - y) * z == x * z - y * z
  {
  }

  lemma Associate(x: int, y: int, z: int)
    ensures x * y * z == x * (y * z)
  {
  }

  lemma ProductSign(x: int, y: int)
    ensures 0 <= x && 0 <= y ==> 0 <= x * y
  {
  }

  lemma Small(k: int, e: int, d: int)
    requires k * d == e && -d < e < d
    ensures k == 0
  {
    ProductSign(k - 1, d);
    ProductSign(-1 - k, d);
    Distribute(k, 1, d);
    Distribute(-1, k, d);
  }

  lemma Divided(a: nat, unit: nat)
    requires 0 < unit
    ensures a == Glue(Hi(a, unit), unit, Lo(a, unit))
  {
  }

  /** Quotient and remainder are unique. */
  lemma Glued(hi: nat, unit: nat, lo: nat)
    requires lo < unit
    ensures Hi(Glue(hi, unit, lo), unit) == hi && Lo(Glue(hi, unit, lo), unit) == lo
  {
    var x := Glue(hi, unit, lo);
    Divided(x, unit);
    Distribute(Hi(x, unit), hi, unit);
    Small(Hi(x, unit) - hi, lo - Lo(x, unit), unit);
  }

  lemma Glue3(u: nat, v: nat, r: nat, s: nat, t: nat)
    requires v < t && r < s
    ensures Glue(Glue(u, t, v), s, r) == Glue(u, s * t, Glue(v, s, r)) && Glue(v, s, r) < s * t
  {
    Distribute(u * t, v, s);
    Associate(u, t, s);
    assert t * s == s * t;
    ProductSign(t - v - 1, s);
    Distribute(t - v - 1, v + 1, s);
    Distribute(v, 1, s);
  }

  lemma DivideTwice(a: nat, s: nat, t: nat)
    requires 0 < s && 0 < t
    ensures 0 < s * t && Hi(a, s * t) == Hi(Hi(a, s), t)
  {
    var q, r := Hi(a, s), Lo(a, s);
    var u, v := Hi(q, t), Lo(q, t);
    Divided(a, s);
    Divided(q, t);
    Glue3(u, v, r, s, t);
    Glued(u, s * t, Glue(v, s, r));
  }
}
