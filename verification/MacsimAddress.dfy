/** Where MacSim's DRAM controller finds an address: bank and row, with permutation-based interleaving.

    The test for a power-of-two number of controllers compares before it masks, so it holds for one controller
    only; dividing by the number of controllers is right in both branches.
  */
module MacsimAddress {
  import opened Numbers

  /** Exclusive or of the lowest `bits` bits. */
  function Xor(a: nat, b: nat, bits: nat): (r: nat)
    ensures r < Pow2(bits)
  {
    if bits == 0 then 0
    else 2 * Xor(a / 2, b / 2, bits - 1) + if a % 2 == b % 2 then 0 else 1
  }

  // ---------- bits ----------

  predicate Bit(n: nat, i: nat) {
    if i == 0 then n % 2 == 1 else Bit(n / 2, i - 1)
  }

  lemma {:induction false} XorBit(a: nat, b: nat, bits: nat, i: nat)
    requires i < bits
    ensures Bit(Xor(a, b, bits), i) <==> Bit(a, i) != Bit(b, i)
  {
    assert Xor(a, b, bits) / 2 == Xor(a / 2, b / 2, bits - 1);
    if i > 0 {
      XorBit(a / 2, b / 2, bits - 1, i - 1);
    }
  }

  lemma HiTwice(a: nat, p: nat, q: nat)
    ensures Hi(Hi(a, Pow2(p)), Pow2(q)) == Hi(a, Pow2(p + q))
  {
    Pow2Sum(p, q);
    DivideTwice(a, Pow2(p), Pow2(q));
  }

  lemma {:induction false} HiBit(a: nat, s: nat, i: nat)
    ensures Bit(Hi(a, Pow2(s)), i) <==> Bit(a, s + i)
  {
    if s == 0 {
      Divided(a, 1);
    } else {
      HiBit(a / 2, s - 1, i);
      HiTwice(a, 1, s - 1);
      assert Hi(a, Pow2(1)) == a / 2;
    }
  }

  /** The lowest digit and the others. */
  lemma LoHalf(a: nat, s: nat)
    requires 0 < s
    ensures Lo(a, Pow2(s)) == 2 * Lo(a / 2, Pow2(s - 1)) + a % 2
  {
    var h := a / 2;
    var p := Pow2(s - 1);
    Divided(h, p);
    Distribute(Hi(h, p), Hi(h, p), p);
    assert a == 2 * h + a % 2;
    assert Glue(Hi(h, p), 2 * p, 2 * Lo(h, p) + a % 2) == a by {
      Associate(Hi(h, p), 2, p);
      Associate(2, Hi(h, p), p);
    }
    Glued(Hi(h, p), 2 * p, 2 * Lo(h, p) + a % 2);
  }

  lemma {:induction false} LoBit(a: nat, s: nat, i: nat)
    requires i < s
    ensures Bit(Lo(a, Pow2(s)), i) <==> Bit(a, i)
  {
    LoHalf(a, s);
    if i > 0 {
      assert Lo(a, Pow2(s)) / 2 == Lo(a / 2, Pow2(s - 1));
      LoBit(a / 2, s - 1, i - 1);
    }
  }

  lemma {:induction false} SameBits(a: nat, b: nat, s: nat)
    requires forall i: nat | i < s :: Bit(a, i) == Bit(b, i)
    ensures Lo(a, Pow2(s)) == Lo(b, Pow2(s))
  {
    if s > 0 {
      LoHalf(a, s);
      LoHalf(b, s);
      assert Bit(a, 0) == Bit(b, 0);
      forall i: nat | i < s - 1 ensures Bit(a / 2, i) == Bit(b / 2, i) {
        assert Bit(a, i + 1) == Bit(b, i + 1);
      }
      SameBits(a / 2, b / 2, s - 1);
    }
  }

  // ---------- places ----------

  datatype Place = Place(column: nat, bank: nat, row: nat)

  datatype Mapping = Mapping(rowBufferBits: nat, bankBits: nat, xorShift: nat, controllers: nat, permute: bool)
  {
    /** The bank bits are the logarithm of the number of banks, rounded down. */
    predicate Fits(banks: nat) {
      0 < controllers && Pow2(bankBits) <= banks
    }

    /** The address without the column and without the controller that it belongs to. */
    function Upper(addr: nat): nat
      requires 0 < controllers
    {
      Hi(Hi(addr, Pow2(rowBufferBits)), controllers)
    }

    function XorBits(addr: nat): nat {
      Lo(Hi(addr, Pow2(xorShift)), Pow2(bankBits))
    }

    function Locate(addr: nat): (p: Place)
      requires 0 < controllers
      ensures p.bank < Pow2(bankBits)
    {
      var bank := Lo(Upper(addr), Pow2(bankBits));
      Place(Lo(addr, Pow2(rowBufferBits)),
            if permute then Xor(bank, XorBits(addr), bankBits) else bank,
            Hi(Upper(addr), Pow2(bankBits)))
    }

    function Controller(addr: nat): nat
      requires 0 < controllers
    {
      Lo(Hi(addr, Pow2(rowBufferBits)), controllers)
    }

    /** The address is row, bank, controller and column, one after the other, where the bank is the one before
        permutation; permutation flips the bits of the bank that are set in the address from `xorShift` on. */
    lemma LocateIs(addr: nat)
      requires 0 < controllers
      ensures var p, bank := Locate(addr), this.(permute := false).Locate(addr).bank;
              && addr == Glue(Glue(Glue(p.row, Pow2(bankBits), bank), controllers, Controller(addr)),
                              Pow2(rowBufferBits), p.column)
              && p.column < Pow2(rowBufferBits) && bank < Pow2(bankBits) && p.bank < Pow2(bankBits)
              && (forall i: nat | i < bankBits ::
                    Bit(p.bank, i) <==> (Bit(bank, i) != (permute && Bit(addr, xorShift + i))))
    {
      Divided(addr, Pow2(rowBufferBits));
      Divided(Hi(addr, Pow2(rowBufferBits)), controllers);
      Divided(Upper(addr), Pow2(bankBits));
      var bank := Lo(Upper(addr), Pow2(bankBits));
      forall i: nat | i < bankBits
        ensures permute ==> (Bit(Locate(addr).bank, i) <==> (Bit(bank, i) != Bit(addr, xorShift + i)))
      {
        XorBit(bank, XorBits(addr), bankBits, i);
        LoBit(Hi(addr, Pow2(xorShift)), bankBits, i);
        HiBit(addr, xorShift, i);
      }
    }

    /** Without permutation, column, bank, row and controller determine the address. */
    lemma LocateIsInjective(a: nat, b: nat)
      requires 0 < controllers && !permute && Controller(a) == Controller(b) && Locate(a) == Locate(b)
      ensures a == b
    {
      Divided(Upper(a), Pow2(bankBits));
      Divided(Upper(b), Pow2(bankBits));
      Divided(Hi(a, Pow2(rowBufferBits)), controllers);
      Divided(Hi(b, Pow2(rowBufferBits)), controllers);
      Divided(a, Pow2(rowBufferBits));
      Divided(b, Pow2(rowBufferBits));
    }

    /** The bits of an address below and above its bank are those of column, controller and row. */
    lemma OuterBits(a: nat, b: nat, k: nat, i: nat)
      requires controllers == Pow2(k) && Controller(a) == Controller(b) && Locate(a) == Locate(b)
      requires i < rowBufferBits + k || rowBufferBits + k + bankBits <= i
      ensures Bit(a, i) == Bit(b, i)
    {
      if i < rowBufferBits {
        LoBit(a, rowBufferBits, i);
        LoBit(b, rowBufferBits, i);
      } else if i < rowBufferBits + k {
        ControllerBit(a, k, i - rowBufferBits);
        ControllerBit(b, k, i - rowBufferBits);
      } else {
        RowBit(a, k, i - rowBufferBits - k - bankBits);
        RowBit(b, k, i - rowBufferBits - k - bankBits);
      }
    }

    lemma ControllerBit(a: nat, k: nat, i: nat)
      requires controllers == Pow2(k) && i < k
      ensures Bit(Controller(a), i) == Bit(a, rowBufferBits + i)
    {
      LoBit(Hi(a, Pow2(rowBufferBits)), k, i);
      HiBit(a, rowBufferBits, i);
    }

    lemma RowBit(a: nat, k: nat, i: nat)
      requires controllers == Pow2(k)
      ensures Bit(Locate(a).row, i) == Bit(a, rowBufferBits + k + bankBits + i)
    {
      HiBit(Upper(a), bankBits, i);
      HiBit(Hi(a, Pow2(rowBufferBits)), k, bankBits + i);
      HiBit(a, rowBufferBits, k + bankBits + i);
    }

    /** A bit of the bank is one bit of the address, or that bit against another one. */
    lemma BankBit(a: nat, k: nat, i: nat)
      requires controllers == Pow2(k) && permute && i < bankBits
      ensures Bit(Locate(a).bank, i) <==> Bit(a, rowBufferBits + k + i) != Bit(a, xorShift + i)
    {
      var bank := Lo(Upper(a), Pow2(bankBits));
      XorBit(bank, XorBits(a), bankBits, i);
      LoBit(Upper(a), bankBits, i);
      HiBit(Hi(a, Pow2(rowBufferBits)), k, i);
      HiBit(a, rowBufferBits, k + i);
      LoBit(Hi(a, Pow2(xorShift)), bankBits, i);
      HiBit(a, xorShift, i);
    }

    /** If the permuting bits lie higher, the bits of the bank are recovered from the highest down. */
    lemma {:induction false} BitsFromAbove(a: nat, b: nat, k: nat, i: nat)
      requires controllers == Pow2(k) && permute && rowBufferBits + k < xorShift
      requires Controller(a) == Controller(b) && Locate(a) == Locate(b)
      ensures Bit(a, rowBufferBits + k + i) == Bit(b, rowBufferBits + k + i)
      decreases bankBits - i
    {
      if i < bankBits {
        var d := xorShift - rowBufferBits - k;
        BitsFromAbove(a, b, k, i + d);
        assert rowBufferBits + k + (i + d) == xorShift + i;
        BankBit(a, k, i);
        BankBit(b, k, i);
      } else {
        OuterBits(a, b, k, rowBufferBits + k + i);
      }
    }

    /** If they lie lower, from the lowest up. */
    lemma {:induction false} BitsFromBelow(a: nat, b: nat, k: nat, i: nat)
      requires controllers == Pow2(k) && permute && xorShift < rowBufferBits + k && i < rowBufferBits + k + bankBits
      requires Controller(a) == Controller(b) && Locate(a) == Locate(b)
      ensures Bit(a, i) == Bit(b, i)
    {
      if rowBufferBits + k <= i {
        var j := i - rowBufferBits - k;
        BitsFromBelow(a, b, k, xorShift + j);
        BankBit(a, k, j);
        BankBit(b, k, j);
      } else {
        OuterBits(a, b, k, i);
      }
    }

    predicate Permutes(k: nat) {
      !permute || bankBits == 0 || xorShift != rowBufferBits + k
    }

    lemma PermutedIsInjective(a: nat, b: nat, k: nat)
      requires controllers == Pow2(k) && permute && xorShift != rowBufferBits + k
      requires Controller(a) == Controller(b) && Locate(a) == Locate(b)
      ensures a == b
    {
      var all := rowBufferBits + k + bankBits;
      forall i: nat | i < all ensures Bit(a, i) == Bit(b, i) {
        if i < rowBufferBits + k {
          OuterBits(a, b, k, i);
        } else if xorShift < rowBufferBits + k {
          BitsFromBelow(a, b, k, i);
        } else {
          BitsFromAbove(a, b, k, i - rowBufferBits - k);
        }
      }
      SameBits(a, b, all);
      RowIs(a, k);
      RowIs(b, k);
      Divided(a, Pow2(all));
      Divided(b, Pow2(all));
    }

    lemma RowIs(a: nat, k: nat)
      requires controllers == Pow2(k)
      ensures Locate(a).row == Hi(a, Pow2(rowBufferBits + k + bankBits))
    {
      HiTwice(a, rowBufferBits, k);
      HiTwice(a, rowBufferBits + k, bankBits);
    }

    /** With a power of two of controllers, column, bank, row and controller determine the address exactly if the
        permuting bits are not the bits of the bank themselves. */
    lemma LocateIsInjectiveIff(k: nat)
      requires controllers == Pow2(k)
      ensures Permutes(k) <==>
              forall a: nat, b: nat | Controller(a) == Controller(b) && Locate(a) == Locate(b) :: a == b
    {
      if Permutes(k) {
        forall a: nat, b: nat | Controller(a) == Controller(b) && Locate(a) == Locate(b) ensures a == b {
          if permute && bankBits > 0 {
            PermutedIsInjective(a, b, k);
          } else if permute {
            NoBankBits(a, b);
          } else {
            LocateIsInjective(a, b);
          }
        }
      } else {
        Collides(k);
      }
    }

    lemma NoBankBits(a: nat, b: nat)
      requires 0 < controllers && bankBits == 0 && Controller(a) == Controller(b) && Locate(a) == Locate(b)
      ensures a == b
    {
      this.(permute := false).LocateIsInjective(a, b);
    }

    /** A bank taken against itself is always 0. */
    lemma Collides(k: nat)
      requires controllers == Pow2(k) && !Permutes(k)
      ensures var b := Pow2(rowBufferBits + k);
              0 != b && Controller(0) == Controller(b) && Locate(0) == Locate(b)
    {
      var b := Pow2(rowBufferBits + k);
      Pow2Sum(rowBufferBits, k);
      Pow2Sum(k, rowBufferBits);
      Glued(Pow2(k), Pow2(rowBufferBits), 0);
      Glued(1, Pow2(k), 0);
      Glued(1, b, 0);
      Glued(0, Pow2(bankBits), 1);
      Glued(0, Pow2(bankBits), 0);
      ZeroIs(rowBufferBits);
      ZeroIs(k);
      ZeroIs(xorShift);
      XorSelf(1, bankBits);
      XorSelf(0, bankBits);
    }
  }

  lemma ZeroIs(p: nat)
    ensures Hi(0, Pow2(p)) == 0 && Lo(0, Pow2(p)) == 0
  {
    Glued(0, Pow2(p), 0);
  }

  lemma {:induction false} XorSelf(a: nat, bits: nat)
    ensures Xor(a, a, bits) == 0
  {
    if bits > 0 {
      XorSelf(a / 2, bits - 1);
    }
  }
}
