/** Slicing a 32-bit address into fields, and the number of the queue that the fields select. */
module AddressSlicing {
  import opened Numbers
  import opened Options

  const WORD := 0x1_0000_0000

  /** Rank, bank group, bank, subarray, row and column, in this order. */
  const FIELDS := 6
  const BANK_GROUP := 1
  const BANK := 2
  const SUB_ARRAY := 3

  /** The number of bits for `n` different values. */
  method Log2(n: nat) returns (bits: nat)
    ensures n <= Pow2(bits)
    ensures 0 < bits ==> Pow2(bits - 1) < n
    ensures bits == Bits(n)
  {
    bits := 0;
    var value: nat := n / 2;
    assert value != 0 ==> FloorLog2(n) == FloorLog2(value) + 1;
    while value > 0
      invariant value == 0 ==> bits == FloorLog2(n)
      invariant value != 0 ==> bits + 1 + FloorLog2(value) == FloorLog2(n)
    {
      value := value / 2;
      bits := bits + 1;
    }
    if Pow2(bits) < n {
      bits := bits + 1;
    }
  }

  function Bits(n: nat): (bits: nat)
    ensures n <= Pow2(bits) && (0 < bits ==> Pow2(bits - 1) < n)
  {
    if Pow2(FloorLog2(n)) < n then FloorLog2(n) + 1 else FloorLog2(n)
  }

  // ---------- slicing ----------

  /** A field and its width, as the format string and the table of sizes give them. */
  datatype Slice = Slice(field: nat, bits: nat)

  predicate FormatOk(format: seq<Slice>) {
    forall i | 0 <= i < |format| :: format[i].field < FIELDS
  }

  /** A digit above the last field aborts the construction. */
  method Parse(format: seq<nat>, memTable: seq<nat>) returns (r: Option<seq<Slice>>)
    requires |memTable| == FIELDS
    ensures r.Some? <==> forall i | 0 <= i < |format| :: format[i] < FIELDS
    ensures r.Some? ==> |r.value| == |format| && FormatOk(r.value)
    ensures r.Some? ==> forall i | 0 <= i < |format| :: r.value[i] == Slice(format[i], Bits(memTable[format[i]]))
  {
    var slices: seq<Slice> := [];
    for i := 0 to |format|
      invariant |slices| == i
      invariant forall j | 0 <= j < i :: format[j] < FIELDS && slices[j] == Slice(format[j], Bits(memTable[format[j]]))
    {
      if format[i] >= FIELDS {
        return None;
      }
      var bits := Log2(memTable[format[i]]);
      slices := slices + [Slice(format[i], bits)];
    }
    r := Some(slices);
  }

  function Low(a: nat, bits: nat): (r: nat)
    ensures r < Pow2(bits)
  {
    Lo(a, Pow2(bits))
  }

  function High(a: nat, bits: nat): nat {
    Hi(a, Pow2(bits))
  }

  function Join(hi: nat, bits: nat, lo: nat): nat {
    Glue(hi, Pow2(bits), lo)
  }

  lemma LowHigh(a: nat, bits: nat)
    ensures a == Join(High(a, bits), bits, Low(a, bits))
  {
    Divided(a, Pow2(bits));
  }

  /** The fields once the slices from `n` on have been taken, the last one from the lowest bits. */
  function Fields(format: seq<Slice>, a: nat, n: nat, fields: seq<nat>): (r: seq<nat>)
    requires n <= |format| && FormatOk(format) && |fields| == FIELDS
    ensures |r| == FIELDS
    decreases |format| - n
  {
    if n == |format| then fields
    else
      var r := Fields(format, a, n + 1, fields);
      r[format[n].field := Low(Rest(format, a, n + 1), format[n].bits)]
  }

  /** What is left of the address above the slices from `n` on. */
  function Rest(format: seq<Slice>, a: nat, n: nat): nat
    requires n <= |format|
    decreases |format| - n
  {
    if n == |format| then a else High(Rest(format, a, n + 1), format[n].bits)
  }

  /** The fields of an address, and the levels that select its queue; the rank is always taken as 0 there. */
  method AddressMapping(format: seq<Slice>, address: nat, fields: seq<nat>) returns (r: seq<nat>, addressMap: seq<nat>)
    requires FormatOk(format) && |fields| == FIELDS
    ensures r == Fields(format, address % WORD, 0, fields)
    ensures addressMap == Levels(r) == [0, r[1], r[2], r[3]]
  {
    var temp: nat := address % WORD;
    r := fields;
    for index := |format| downto 0
      invariant |r| == FIELDS
      invariant temp == Rest(format, address % WORD, index)
      invariant r == Fields(format, address % WORD, index, fields)
    {
      var tempAddr;
      tempAddr, temp := ShiftOut(temp, format[index].bits);
      r := r[format[index].field := tempAddr];
    }
    addressMap := [0, r[BANK_GROUP], r[BANK], r[SUB_ARRAY]];
  }

  /** Shift the low bits out, and back in as zeros; what differs then from the address is the field. */
  method ShiftOut(tempB: nat, bits: nat) returns (tempAddr: nat, rest: nat)
    ensures tempAddr == Low(tempB, bits) && rest == High(tempB, bits)
  {
    var tempA := High(tempB, bits);
    tempA := Join(tempA, bits, 0);
    LowHigh(tempB, bits);
    tempAddr := tempB - tempA;
    JoinHigh(High(tempB, bits), bits);
    rest := High(tempA, bits);
  }

  lemma JoinHigh(hi: nat, bits: nat)
    ensures High(Join(hi, bits, 0), bits) == hi
  {
    Glued(hi, Pow2(bits), 0);
  }

  ghost predicate NoRepeats(format: seq<Slice>) {
    forall i, j | 0 <= i < j < |format| :: format[i].field != format[j].field
  }

  /** The fields put side by side again, from slice `n` on. */
  function Recombined(format: seq<Slice>, fields: seq<nat>, n: nat): nat
    requires n <= |format| && FormatOk(format) && |fields| == FIELDS
    decreases |format| - n
  {
    if n == |format| then 0
    else Join(fields[format[n].field], TotalBits(format, n + 1), Recombined(format, fields, n + 1))
  }

  function TotalBits(format: seq<Slice>, n: nat): nat
    requires n <= |format|
    decreases |format| - n
  {
    if n == |format| then 0 else format[n].bits + TotalBits(format, n + 1)
  }

  lemma {:induction false} FieldIs(format: seq<Slice>, a: nat, n: nat, fields: seq<nat>, i: nat)
    requires n <= i < |format| && FormatOk(format) && |fields| == FIELDS && NoRepeats(format)
    ensures Fields(format, a, n, fields)[format[i].field] == Low(Rest(format, a, i + 1), format[i].bits)
    decreases |format| - n
  {
    if n < i {
      FieldIs(format, a, n + 1, fields, i);
    }
  }

  /** Every field of a format without repeats is below the power of two of its width. */
  lemma FieldsAreNarrow(format: seq<Slice>, a: nat, fields: seq<nat>, i: nat)
    requires i < |format| && FormatOk(format) && |fields| == FIELDS && NoRepeats(format)
    ensures Fields(format, a, 0, fields)[format[i].field] < Pow2(format[i].bits)
  {
    FieldIs(format, a, 0, fields, i);
  }

  lemma JoinTwice(hi: nat, bits: nat, mid: nat, low: nat, lo: nat)
    ensures Join(Join(hi, bits, mid), low, lo) == Join(hi, bits + low, Join(mid, low, lo))
  {
    Pow2Sum(bits, low);
    Associate(hi, Pow2(bits), Pow2(low));
    Distribute(hi * Pow2(bits), mid, Pow2(low));
  }

  /** No bit is lost: the rest and the fields make up the address. */
  lemma {:induction false} RestAndFields(format: seq<Slice>, a: nat, fields: seq<nat>, n: nat)
    requires n <= |format| && FormatOk(format) && |fields| == FIELDS && NoRepeats(format)
    ensures var all := Fields(format, a, 0, fields);
            && a == Join(Rest(format, a, n), TotalBits(format, n), Recombined(format, all, n))
            && Recombined(format, all, n) < Pow2(TotalBits(format, n))
    decreases |format| - n
  {
    var all := Fields(format, a, 0, fields);
    if n < |format| {
      RestAndFields(format, a, fields, n + 1);
      FieldIs(format, a, 0, fields, n);
      var r, bits, low := Rest(format, a, n + 1), format[n].bits, TotalBits(format, n + 1);
      LowHigh(r, bits);
      JoinTwice(High(r, bits), bits, Low(r, bits), low, Recombined(format, all, n + 1));
      JoinFits(Low(r, bits), bits, low, Recombined(format, all, n + 1));
    }
  }

  lemma JoinFits(mid: nat, bits: nat, low: nat, lo: nat)
    requires mid < Pow2(bits) && lo < Pow2(low)
    ensures Join(mid, low, lo) < Pow2(bits + low)
  {
    Pow2Sum(bits, low);
    Distribute(Pow2(bits) - mid - 1, mid + 1, Pow2(low));
    Distribute(mid, 1, Pow2(low));
    ProductSign(Pow2(bits) - mid - 1, Pow2(low));
  }

  /** The fields of a format without repeats, put side by side, are the address modulo their total width. */
  lemma SlicingLosesNothing(format: seq<Slice>, a: nat, fields: seq<nat>)
    requires FormatOk(format) && |fields| == FIELDS && NoRepeats(format)
    ensures Recombined(format, Fields(format, a, 0, fields), 0) == Low(a, TotalBits(format, 0))
  {
    RestAndFields(format, a, fields, 0);
    Glued(Rest(format, a, 0), Pow2(TotalBits(format, 0)), Recombined(format, Fields(format, a, 0, fields), 0));
  }

  // ---------- queues ----------

  /** The level at which queues are kept: the first that is marked. */
  function QueueLevel(queueMap: seq<nat>): (r: Option<nat>)
    ensures r.Some? ==> r.value < |queueMap| && queueMap[r.value] == 1
                        && forall i | 0 <= i < r.value :: queueMap[i] != 1
    ensures r.None? ==> forall i | 0 <= i < |queueMap| :: queueMap[i] != 1
  {
    if queueMap == [] then None
    else
      var n := |queueMap| - 1;
      var p := QueueLevel(queueMap[..n]);
      if p.None? && queueMap[n] == 1 then Some(n) else p
  }

  function Product(sizes: seq<nat>, n: nat): nat
    requires n <= |sizes|
  {
    if n == 0 then 1 else Product(sizes, n - 1) * sizes[n - 1]
  }

  /** The product of the upper levels that are not zero; zero if there are none. */
  function Level(addr: seq<nat>, n: nat): (r: nat)
    requires n <= |addr|
  {
    if n == 0 then 0
    else if addr[n - 1] == 0 then Level(addr, n - 1)
    else if Level(addr, n - 1) == 0 then addr[n - 1]
    else Level(addr, n - 1) * addr[n - 1]
  }

  method QueueNumber(queueMap: seq<nat>, memTable: seq<nat>) returns (count: nat)
    requires QueueLevel(queueMap).Some? ==> QueueLevel(queueMap).value < |memTable|
    ensures count == match QueueLevel(queueMap) case None => 1 case Some(i) => Product(memTable, i + 1)
    ensures QueueLevel(queueMap) == Some(0) ==> count == memTable[0]
    ensures QueueLevel(queueMap) == Some(1) ==> count == memTable[0] * memTable[1]
    ensures QueueLevel(queueMap) == Some(2) ==> count == memTable[0] * memTable[1] * memTable[2]
    ensures QueueLevel(queueMap) == Some(3) ==> count == memTable[0] * memTable[1] * memTable[2] * memTable[3]
  {
    SmallProducts(memTable);
    count := 1;
    for index := 0 to |queueMap|
      invariant count == 1 && forall i | 0 <= i < index :: queueMap[i] != 1
    {
      if queueMap[index] == 1 {
        for n := 0 to index + 1
          invariant count == Product(memTable, n)
        {
          count := count * memTable[n];
        }
        return;
      }
    }
  }

  lemma SmallProducts(sizes: seq<nat>)
    ensures 1 <= |sizes| ==> Product(sizes, 1) == sizes[0]
    ensures 2 <= |sizes| ==> Product(sizes, 2) == sizes[0] * sizes[1]
    ensures 3 <= |sizes| ==> Product(sizes, 3) == sizes[0] * sizes[1] * sizes[2]
    ensures 4 <= |sizes| ==> Product(sizes, 4) == sizes[0] * sizes[1] * sizes[2] * sizes[3]
  {
  }

  /** The units with 1 in place of 0. */
  function NonZeros(addr: seq<nat>): (r: seq<nat>)
    ensures |r| == |addr|
  {
    seq(|addr|, i requires 0 <= i < |addr| => if addr[i] == 0 then 1 else addr[i])
  }

  lemma {:induction false} NonZeroProduct(addr: seq<nat>, n: nat)
    requires n <= |addr|
    ensures 1 <= Product(NonZeros(addr), n)
    ensures (forall i | 0 <= i < n :: addr[i] == 0) ==> Product(NonZeros(addr), n) == 1
  {
    if n > 0 {
      NonZeroProduct(addr, n - 1);
      ProductSign(Product(NonZeros(addr), n - 1) - 1, NonZeros(addr)[n - 1] - 1);
    }
  }

  /** The upper levels count as the product of those that are not zero, and as 0 if all are. */
  lemma {:induction false} LevelIs(addr: seq<nat>, n: nat)
    requires n <= |addr|
    ensures Level(addr, n) == if forall i | 0 <= i < n :: addr[i] == 0 then 0 else Product(NonZeros(addr), n)
  {
    if n > 0 {
      LevelIs(addr, n - 1);
      NonZeroProduct(addr, n - 1);
    }
  }

  function QueueIndex(addr: seq<nat>, memTable: seq<nat>, index: nat): nat
    requires index < |addr| && index < |memTable|
  {
    addr[index] + Level(addr, index) * memTable[index]
  }

  method DecodeQueue(addr: seq<nat>, queueMap: seq<nat>, memTable: seq<nat>) returns (queue: nat)
    requires QueueLevel(queueMap).Some? ==> QueueLevel(queueMap).value < |addr| <= |memTable|
    ensures queue == match QueueLevel(queueMap) case None => 0 case Some(i) => QueueIndex(addr, memTable, i)
    ensures QueueLevel(queueMap).Some? ==>
              var i := QueueLevel(queueMap).value;
              queue == addr[i] + (if forall n | 0 <= n < i :: addr[n] == 0 then 0 else Product(NonZeros(addr), i))
                                 * memTable[i]
  {
    if QueueLevel(queueMap).Some? {
      LevelIs(addr, QueueLevel(queueMap).value);
    }
    queue := 0;
    for index := 0 to |queueMap|
      invariant queue == 0 && forall i | 0 <= i < index :: queueMap[i] != 1
    {
      if queueMap[index] == 1 {
        queue := addr[index];
        var level: nat := 0;
        for n := 0 to index
          invariant level == Level(addr, n)
        {
          if addr[n] > 0 {
            if level == 0 {
              level := addr[n];
            } else {
              level := level * addr[n];
            }
          }
        }
        queue := queue + level * memTable[index];
        return;
      }
    }
  }

  ghost predicate InTable(addr: seq<nat>, sizes: seq<nat>, n: nat) {
    n <= |addr| && n <= |sizes| && forall i | 0 <= i < n :: addr[i] < sizes[i]
  }

  lemma TimesMore(x: nat, y: nat, s: nat)
    requires x < y && 1 <= s
    ensures x * s < y * s && x * s <= y * s - s && x <= x * s
  {
    Distribute(x, y - x, s);
    ProductSign(y - x - 1, s);
    Distribute(y - x - 1, 1, s);
    ProductSign(x, s - 1);
    Distribute(s, 1, x);
  }

  lemma {:induction false} LevelBelow(addr: seq<nat>, sizes: seq<nat>, n: nat)
    requires InTable(addr, sizes, n)
    ensures Level(addr, n) < Product(sizes, n)
  {
    if n > 0 {
      LevelBelow(addr, sizes, n - 1);
      var x, y, s := Level(addr, n - 1), Product(sizes, n - 1), sizes[n - 1];
      TimesMore(x, y, s);
      TimesMore(0, y, s);
      var a := addr[n - 1];
      if a > 0 {
        if x == 0 {
          TimesMore(a, s, y);
          assert s * y == y * s;
        } else {
          assert x * (s - a) >= 0;
          assert x * s == x * a + x * (s - a);
        }
      }
    }
  }

  /** The queue of an address whose levels are in their tables exists. */
  lemma QueueExists(addr: seq<nat>, memTable: seq<nat>, index: nat)
    requires index < |addr| && InTable(addr, memTable, index + 1)
    ensures QueueIndex(addr, memTable, index) < Product(memTable, index + 1)
  {
    LevelBelow(addr, memTable, index);
    TimesMore(Level(addr, index), Product(memTable, index), memTable[index]);
  }

  /** For a level whose size is a power of two the sliced field is in its table. */
  lemma FieldInTable(format: seq<Slice>, a: nat, fields: seq<nat>, size: nat, k: nat, i: nat)
    requires i < |format| && FormatOk(format) && |fields| == FIELDS && NoRepeats(format)
    requires size == Pow2(k) && format[i].bits == Bits(size)
    ensures Fields(format, a, 0, fields)[format[i].field] < size
  {
    FieldsAreNarrow(format, a, fields, i);
    BitsOfPow2(k);
  }

  lemma {:induction false} BitsOfPow2(k: nat)
    ensures FloorLog2(Pow2(k)) == k && Bits(Pow2(k)) == k
  {
    if k > 0 {
      BitsOfPow2(k - 1);
      assert Pow2(k) / 2 == Pow2(k - 1);
    }
  }

  /** The levels that select the queue of a sliced address. */
  function Levels(fields: seq<nat>): seq<nat>
    requires |fields| == FIELDS
  {
    [0, fields[BANK_GROUP], fields[BANK], fields[SUB_ARRAY]]
  }

  /** The format names level `l`, whose size is a power of two, with the bits of that size. */
  ghost predicate Slices(format: seq<Slice>, l: nat, size: nat) {
    && (exists k :: size == Pow2(k))
    && exists i :: 0 <= i < |format| && format[i] == Slice(l, Bits(size))
  }

  /** Every address has a queue: with sizes that are powers of two and a format without repeats that names each
      level from the bank group to the queue level, whatever the address. */
  lemma AddressHasQueue(format: seq<Slice>, a: nat, fields: seq<nat>, memTable: seq<nat>, index: nat)
    requires FormatOk(format) && |fields| == FIELDS && NoRepeats(format)
    requires index <= SUB_ARRAY && index < |memTable| && 1 <= memTable[0]
    requires forall l | 1 <= l <= index :: Slices(format, l, memTable[l])
    ensures QueueIndex(Levels(Fields(format, a, 0, fields)), memTable, index) < Product(memTable, index + 1)
  {
    var levels := Levels(Fields(format, a, 0, fields));
    forall l | 0 <= l <= index ensures levels[l] < memTable[l] {
      if l > 0 {
        assert Slices(format, l, memTable[l]);
        var k :| memTable[l] == Pow2(k);
        var i :| 0 <= i < |format| && format[i] == Slice(l, Bits(memTable[l]));
        FieldInTable(format, a, fields, memTable[l], k, i);
      }
    }
    QueueExists(levels, memTable, index);
  }

  // ---------- when different banks get different queues ----------

  predicate Wide(sizes: seq<nat>, i: nat)
    requires i < |sizes|
  {
    2 <= sizes[i]
  }

  /** At most one of the upper levels has more than one unit. */
  ghost predicate OneUpperLevel(sizes: seq<nat>, index: nat)
    requires index <= |sizes|
  {
    forall i, j | 0 <= i < j < index :: !(Wide(sizes, i) && Wide(sizes, j))
  }

  ghost predicate Separates(sizes: seq<nat>, index: nat)
    requires index < |sizes|
  {
    forall a: seq<nat>, b: seq<nat> |
      |a| == |b| == index + 1 && InTable(a, sizes, index + 1) && InTable(b, sizes, index + 1)
      && QueueIndex(a, sizes, index) == QueueIndex(b, sizes, index) :: a == b
  }

  lemma {:induction false} LevelOfOne(addr: seq<nat>, sizes: seq<nat>, index: nat, n: nat)
    requires n <= index && index <= |sizes| && InTable(addr, sizes, index) && OneUpperLevel(sizes, index)
    ensures Level(addr, n) == 0 <==> forall i | 0 <= i < n :: addr[i] == 0
    ensures forall i | 0 <= i < n && addr[i] != 0 :: Level(addr, n) == addr[i]
  {
    if n > 0 {
      LevelOfOne(addr, sizes, index, n - 1);
      forall i | 0 <= i < n - 1 ensures addr[n - 1] == 0 || addr[i] == 0 {
        assert (Wide(sizes, i) && Wide(sizes, n - 1)) || addr[i] == 0 || addr[n - 1] == 0;
      }
    }
  }

  lemma SameUpperLevels(a: seq<nat>, b: seq<nat>, sizes: seq<nat>, index: nat)
    requires index <= |sizes| && InTable(a, sizes, index) && InTable(b, sizes, index)
    requires OneUpperLevel(sizes, index) && Level(a, index) == Level(b, index)
    ensures a[..index] == b[..index]
  {
    LevelOfOne(a, sizes, index, index);
    LevelOfOne(b, sizes, index, index);
    if Level(a, index) != 0 {
      var j := NonZero(a, index);
      var k := NonZero(b, index);
      assert Wide(sizes, j) && Wide(sizes, k);
      assert forall i | 0 <= i < index && Wide(sizes, i) :: i == j;
      forall i | 0 <= i < index ensures a[i] == b[i] {
        assert Wide(sizes, i) || (a[i] == 0 && b[i] == 0);
      }
    }
  }

  lemma SeparatesOne(a: seq<nat>, b: seq<nat>, sizes: seq<nat>, index: nat)
    requires index < |sizes| && |a| == |b| == index + 1 && InTable(a, sizes, index + 1) && InTable(b, sizes, index + 1)
    requires OneUpperLevel(sizes, index) && QueueIndex(a, sizes, index) == QueueIndex(b, sizes, index)
    ensures a == b
  {
    Glued(Level(a, index), sizes[index], a[index]);
    Glued(Level(b, index), sizes[index], b[index]);
    SameUpperLevels(a, b, sizes, index);
    assert a == a[..index] + [a[index]] && b == b[..index] + [b[index]];
  }

  lemma NonZero(addr: seq<nat>, n: nat) returns (j: nat)
    requires n <= |addr| && !(forall i | 0 <= i < n :: addr[i] == 0)
    ensures j < n && addr[j] != 0
  {
    j :| 0 <= j < n && addr[j] != 0;
  }

  function Unit(n: nat, i: nat): (r: seq<nat>)
    ensures |r| == n
  {
    seq(n, k => if k == i then 1 else 0)
  }

  lemma {:induction false} LevelOfUnit(n: nat, i: nat, m: nat)
    requires m <= n
    ensures Level(Unit(n, i), m) == if i < m then 1 else 0
  {
    if m > 0 {
      LevelOfUnit(n, i, m - 1);
    }
  }

  /** Different units get different queues exactly if at most one of the levels above the queue level has more
      than one unit: else unit 1 of one level and unit 1 of another share a queue. */
  lemma SeparatesIff(sizes: seq<nat>, index: nat)
    requires index < |sizes| && forall i | 0 <= i <= index :: 1 <= sizes[i]
    ensures Separates(sizes, index) <==> OneUpperLevel(sizes, index)
  {
    if OneUpperLevel(sizes, index) {
      forall a: seq<nat>, b: seq<nat> |
        |a| == |b| == index + 1 && InTable(a, sizes, index + 1) && InTable(b, sizes, index + 1)
        && QueueIndex(a, sizes, index) == QueueIndex(b, sizes, index)
        ensures a == b
      {
        SeparatesOne(a, b, sizes, index);
      }
    } else {
      var i, j :| 0 <= i < j < index && Wide(sizes, i) && Wide(sizes, j);
      var a, b := Unit(index + 1, i), Unit(index + 1, j);
      LevelOfUnit(index + 1, i, index);
      LevelOfUnit(index + 1, j, index);
      assert a[i] != b[i];
    }
  }
}
