/** How MacSim's cache cuts an address into tag and set; shifts and masks are divisions by powers of two. */
module CacheAddress {
  import opened Numbers

  method Log2Int(n: nat) returns (power: nat)
    ensures power == FloorLog2(n)
  {
    power := 0;
    var m: nat := n / 2;
    assert m != 0 ==> FloorLog2(n) == FloorLog2(m) + 1;
    while m != 0
      invariant m == 0 ==> power == FloorLog2(n)
      invariant m != 0 ==> power + 1 + FloorLog2(m) == FloorLog2(n)
    {
      power := power + 1;
      m := m / 2;
    }
  }

  datatype Geometry = Geometry(numSets: nat, assoc: nat, lineSize: nat, tiles: nat, interleave: nat, bypass: bool)
  {
    predicate Valid() {
      0 < numSets && 0 < assoc && 0 < lineSize && 0 < tiles && 0 < interleave
    }

    function LineBytes(): nat {
      Pow2(FloorLog2(lineSize))
    }

    function SetCount(): nat {
      Pow2(FloorLog2(numSets))
    }

    function Stripe(): nat {
      Pow2(FloorLog2(interleave))
    }

    function TileBits(): nat {
      if tiles == Pow2(FloorLog2(tiles)) then FloorLog2(tiles) else 0
    }

    /** The address without the bits that choose the tile. */
    function ModAddr(addr: nat): nat
      requires Valid()
    {
      if tiles == 1 then addr
      else if TileBits() != 0 then
        Glue(Hi(addr, Pow2(FloorLog2(interleave) + TileBits())), Stripe(), Lo(addr, Stripe()))
      else Glue(Hi(Hi(addr, Stripe()), tiles), Stripe(), Lo(addr, Stripe()))
    }

    function Tile(addr: nat): nat
      requires Valid()
    {
      Lo(Hi(addr, Stripe()), tiles)
    }

    function LineNumber(addr: nat): nat
      requires Valid()
    {
      Hi(ModAddr(addr), LineBytes())
    }

    function SetOf(addr: nat): (s: nat)
      requires Valid()
      ensures s < numSets
    {
      Lo(LineNumber(addr), SetCount())
    }

    function TagOf(addr: nat): nat
      requires Valid()
    {
      Glue(Hi(LineNumber(addr), SetCount()), SetCount(), 0)
    }

    function BaseLine(addr: nat): nat
      requires Valid()
    {
      Glue(Hi(addr, LineBytes()), LineBytes(), 0)
    }

    /** The base of a line is the multiple of the line size, rounded down to a power of two, that `addr` lies behind. */
    lemma BaseIs(addr: nat)
      requires Valid()
      ensures BaseLine(addr) % LineBytes() == 0
      ensures BaseLine(addr) <= addr < BaseLine(addr) + LineBytes()
      ensures LineBytes() <= lineSize < 2 * LineBytes() && exists k :: LineBytes() == Pow2(k)
    {
      Divided(addr, LineBytes());
      Glued(Hi(addr, LineBytes()), LineBytes(), 0);
      assert Lo(BaseLine(addr), LineBytes()) == 0;
    }

    /** Tag and set together are the number of the line within its tile, and the set is its remainder. */
    lemma TagAndSetAre(addr: nat)
      requires Valid()
      ensures Lo(TagOf(addr), SetCount()) == 0 && SetOf(addr) < SetCount() <= numSets < 2 * SetCount()
      ensures tiles == 1 ==> TagOf(addr) + SetOf(addr) == Hi(addr, LineBytes())
      ensures TagOf(addr) + SetOf(addr) ==
              Hi(Glue(Hi(Hi(addr, Stripe()), tiles), Stripe(), Lo(addr, Stripe())), LineBytes())
      ensures Stripe() <= interleave < 2 * Stripe()
    {
      TileFormsAgree(addr);
      Divided(LineNumber(addr), SetCount());
      Glued(Hi(LineNumber(addr), SetCount()), SetCount(), 0);
    }

    /** Both ways to remove the tile bits are the division by the number of tiles. */
    lemma TileFormsAgree(addr: nat)
      requires Valid()
      ensures ModAddr(addr) == Glue(Hi(Hi(addr, Stripe()), tiles), Stripe(), Lo(addr, Stripe()))
    {
      if tiles == 1 {
        Divided(addr, Stripe());
      } else if TileBits() != 0 {
        Pow2Sum(FloorLog2(interleave), TileBits());
        DivideTwice(addr, Stripe(), tiles);
      }
    }

    /** Tile and tile-free address determine the address. */
    lemma AddressRecovered(addr: nat)
      requires Valid()
      ensures addr == Glue(Glue(Hi(ModAddr(addr), Stripe()), tiles, Tile(addr)), Stripe(), Lo(ModAddr(addr), Stripe()))
    {
      TileFormsAgree(addr);
      Glued(Hi(Hi(addr, Stripe()), tiles), Stripe(), Lo(addr, Stripe()));
      Divided(Hi(addr, Stripe()), tiles);
      Divided(addr, Stripe());
    }

    predicate SameTagAndSet(a: nat, b: nat)
      requires Valid()
    {
      TagOf(a) == TagOf(b) && SetOf(a) == SetOf(b)
    }

    lemma SameTagAndSetIff(a: nat, b: nat)
      requires Valid()
      ensures SameTagAndSet(a, b) <==> LineNumber(a) == LineNumber(b)
    {
      Divided(LineNumber(a), SetCount());
      Divided(LineNumber(b), SetCount());
    }

    lemma SameBaseIff(a: nat, b: nat)
      requires Valid()
      ensures BaseLine(a) == BaseLine(b) <==> Hi(a, LineBytes()) == Hi(b, LineBytes())
    {
      Glued(Hi(a, LineBytes()), LineBytes(), 0);
      Glued(Hi(b, LineBytes()), LineBytes(), 0);
    }

    predicate LinesAreTold()
      requires Valid()
    {
      tiles == 1 || LineBytes() <= Stripe()
    }

    lemma SameLineIff(a: nat, b: nat)
      requires Valid() && LinesAreTold() && Tile(a) == Tile(b)
      ensures SameTagAndSet(a, b) <==> BaseLine(a) == BaseLine(b)
    {
      SameTagAndSetIff(a, b);
      SameBaseIff(a, b);
      if tiles > 1 {
        LineInStripe(a);
        LineInStripe(b);
        SameDigits(Hi(a, Stripe()), Hi(b, Stripe()), tiles, LinesPerStripe(),
                   Hi(Lo(a, Stripe()), LineBytes()), Hi(Lo(b, Stripe()), LineBytes()));
      } else {
        assert LineNumber(a) == Hi(a, LineBytes()) && LineNumber(b) == Hi(b, LineBytes());
      }
    }

    function LinesPerStripe(): nat
      requires Valid() && LineBytes() <= Stripe()
    {
      Pow2Order(FloorLog2(lineSize), FloorLog2(interleave));
      Pow2(FloorLog2(interleave) - FloorLog2(lineSize))
    }

    /** The number of a line, with and without the tile: stripe, then line in the stripe. */
    lemma LineInStripe(a: nat)
      requires Valid() && LineBytes() <= Stripe()
      ensures Hi(Lo(a, Stripe()), LineBytes()) < LinesPerStripe()
      ensures Hi(a, LineBytes()) == Glue(Hi(a, Stripe()), LinesPerStripe(), Hi(Lo(a, Stripe()), LineBytes()))
      ensures LineNumber(a) == Glue(Hi(Hi(a, Stripe()), tiles), LinesPerStripe(), Hi(Lo(a, Stripe()), LineBytes()))
    {
      var d := LinesPerStripe();
      Pow2Order(FloorLog2(lineSize), FloorLog2(interleave));
      Pow2Sum(FloorLog2(interleave) - FloorLog2(lineSize), FloorLog2(lineSize));
      TileFormsAgree(a);
      Divided(a, Stripe());
      GlueDivided(Hi(a, Stripe()), d, LineBytes(), Lo(a, Stripe()));
      GlueDivided(Hi(Hi(a, Stripe()), tiles), d, LineBytes(), Lo(a, Stripe()));
    }

    /** The first address whose line is taken for line 0 although it is another one. */
    function Alias(): nat
      requires Valid() && !LinesAreTold()
    {
      Glue(Glue(StripesPerLine() - 1, tiles, 0), Stripe(), 0)
    }

    function StripesPerLine(): (k: nat)
      requires Valid() && Stripe() < LineBytes()
      ensures 2 <= k
    {
      Pow2Order(FloorLog2(lineSize), FloorLog2(interleave));
      Pow2(FloorLog2(lineSize) - FloorLog2(interleave))
    }

    lemma StripesOfTile(k: nat)
      requires Valid()
      ensures Tile(Glue(Glue(k, tiles, 0), Stripe(), 0)) == 0
      ensures ModAddr(Glue(Glue(k, tiles, 0), Stripe(), 0)) == Glue(k, Stripe(), 0)
    {
      Glued(Glue(k, tiles, 0), Stripe(), 0);
      Glued(k, tiles, 0);
      TileFormsAgree(Glue(Glue(k, tiles, 0), Stripe(), 0));
    }

    lemma StripesOfLine()
      requires Valid() && Stripe() < LineBytes()
      ensures Glue(StripesPerLine() - 1, Stripe(), 0) + Stripe() == LineBytes()
    {
      Pow2Order(FloorLog2(lineSize), FloorLog2(interleave));
      Pow2Sum(FloorLog2(lineSize) - FloorLog2(interleave), FloorLog2(interleave));
    }

    lemma AliasCollides()
      requires Valid() && !LinesAreTold()
      ensures Tile(0) == Tile(Alias()) && SameTagAndSet(0, Alias()) && BaseLine(0) != BaseLine(Alias())
    {
      var k := StripesPerLine() - 1;
      StripesOfTile(0);
      StripesOfTile(k);
      StripesOfLine();
      StripesFit(k, tiles, Stripe());
      Below(Glue(k, Stripe(), 0), LineBytes());
      Below(0, LineBytes());
      Below(Alias(), LineBytes());
      SameTagAndSetIff(0, Alias());
      SameBaseIff(0, Alias());
    }

    /** A cache tells the lines of its tile apart exactly if it is the only tile or a stripe holds whole lines. */
    lemma LinesAreToldIff()
      requires Valid()
      ensures LinesAreTold() <==>
              forall a: nat, b: nat | Tile(a) == Tile(b) :: SameTagAndSet(a, b) <==> BaseLine(a) == BaseLine(b)
    {
      if LinesAreTold() {
        forall a: nat, b: nat | Tile(a) == Tile(b) ensures SameTagAndSet(a, b) <==> BaseLine(a) == BaseLine(b) {
          SameLineIff(a, b);
        }
      } else {
        AliasCollides();
      }
    }
  }

  // ---------- arithmetic ----------

  /** Dividing by a factor of the unit. */
  lemma GlueDivided(hi: nat, p: nat, l: nat, r: nat)
    requires 0 < l && r < p * l
    ensures Hi(Glue(hi, p * l, r), l) == Glue(hi, p, Hi(r, l)) && Hi(r, l) < p
  {
    var v, w := Hi(r, l), Lo(r, l);
    Divided(r, l);
    QuotientBelow(v, w, p, l);
    Glue3(hi, v, w, l, p);
    assert l * p == p * l;
    Glued(Glue(hi, p, v), l, w);
  }

  lemma QuotientBelow(v: nat, w: nat, p: nat, l: nat)
    requires Glue(v, l, w) < p * l
    ensures v < p
  {
    assert p <= v ==> (v - p) * l >= 0;
  }

  /** Dropping the same low digit of the leading part changes no comparison. */
  lemma SameDigits(qa: nat, qb: nat, t: nat, d: nat, ra: nat, rb: nat)
    requires 0 < t && ra < d && rb < d && Lo(qa, t) == Lo(qb, t)
    ensures Glue(Hi(qa, t), d, ra) == Glue(Hi(qb, t), d, rb) <==> Glue(qa, d, ra) == Glue(qb, d, rb)
  {
    Glued(Hi(qa, t), d, ra);
    Glued(Hi(qb, t), d, rb);
    Glued(qa, d, ra);
    Glued(qb, d, rb);
    Divided(qa, t);
    Divided(qb, t);
  }

  lemma StripesFit(k: nat, t: nat, s: nat)
    requires 1 <= k && 2 <= t
    ensures Glue(k, s, 0) + s <= Glue(Glue(k, t, 0), s, 0)
  {
    assert k * t >= k * 2;
    assert (k * t - k - 1) * s >= 0;
  }

  lemma Below(a: nat, unit: nat)
    requires 0 < unit
    ensures Hi(a, unit) == 0 <==> a < unit
  {
    Divided(a, unit);
  }
}
