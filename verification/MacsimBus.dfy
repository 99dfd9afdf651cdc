/** The data bus of a MacSim DRAM channel: which byte of which cycle is handed out next.

    A bus is described by the cycle `ready` whose bytes are being handed out and the number `avail` of
    bytes of that cycle that are left.  Its position counts all bytes that could have been moved so far.
  */
module MacsimBus {
  datatype Bus = Bus(ready: nat, avail: nat)

  predicate BusOk(b: Bus, width: nat) {
    1 <= b.avail <= width
  }

  function Position(b: Bus, width: nat): int {
    width * b.ready + (width - b.avail)
  }

  /** A transfer of `size` bytes that starts at `cycle`. */
  function Acquire(b: Bus, width: nat, size: nat, cycle: nat): Bus
    requires BusOk(b, width)
  {
    if size < b.avail then Bus(cycle, b.avail - size)
    else Bus(cycle + (size - b.avail) / width + 1, width - (size - b.avail) % width)
  }

  /** A transfer takes exactly its size, plus the full cycles that the bus was idle before. */
  lemma AcquireAdvances(b: Bus, width: nat, size: nat, cycle: nat)
    requires BusOk(b, width) && b.ready <= cycle
    ensures var n := Acquire(b, width, size, cycle);
            && BusOk(n, width) && cycle <= n.ready
            && Position(n, width) == Position(b, width) + size + width * (cycle - b.ready)
  {
    if size >= b.avail {
      var x := size - b.avail;
      var q, r := x / width, x % width;
      assert x == width * q + r;
      assert width * (cycle + q + 1) == width * cycle + width * q + width;
    }
    assert width * (cycle - b.ready) == width * cycle - width * b.ready;
  }

  /** The position determines the bus: `ready` is the cycle it falls in. */
  lemma PositionIsReady(b: Bus, width: nat)
    requires BusOk(b, width)
    ensures b.ready == Position(b, width) / width && width - b.avail == Position(b, width) % width
  {
    var p := Position(b, width);
    var d := b.ready - p / width;
    assert width * d == p % width - (width - b.avail);
    TooFar(width, d);
  }

  lemma TooFar(width: nat, d: int)
    requires 0 < width
    ensures 0 < d ==> width <= width * d
    ensures d < 0 ==> width * d + width <= 0
  {
  }

  // ---------- many transfers ----------

  datatype Transfer = Transfer(size: nat, cycle: nat)

  /** Every transfer starts when the bus is ready, as the grant loop requires. */
  predicate InOrder(b: Bus, width: nat, ts: seq<Transfer>)
    requires BusOk(b, width)
    decreases |ts|
  {
    ts == [] || (b.ready <= ts[0].cycle
                 && (AcquireAdvances(b, width, ts[0].size, ts[0].cycle);
                     InOrder(Acquire(b, width, ts[0].size, ts[0].cycle), width, ts[1..])))
  }

  function After(b: Bus, width: nat, ts: seq<Transfer>): (r: Bus)
    requires BusOk(b, width) && InOrder(b, width, ts)
    ensures BusOk(r, width) && b.ready <= r.ready
    decreases |ts|
  {
    if ts == [] then b
    else
      AcquireAdvances(b, width, ts[0].size, ts[0].cycle);
      After(Acquire(b, width, ts[0].size, ts[0].cycle), width, ts[1..])
  }

  /** The transfers `ts`, in order, lead from one state of the bus to the other. */
  predicate Moves(width: nat, from: Bus, ts: seq<Transfer>, to: Bus) {
    BusOk(from, width) && InOrder(from, width, ts) && to == After(from, width, ts)
  }

  /** Runs of transfers can be put one after the other. */
  lemma {:induction false} Compose(b: Bus, width: nat, p: seq<Transfer>, q: seq<Transfer>)
    requires BusOk(b, width) && InOrder(b, width, p) && InOrder(After(b, width, p), width, q)
    ensures InOrder(b, width, p + q) && After(b, width, p + q) == After(After(b, width, p), width, q)
    decreases |p|
  {
    if p == [] {
      assert p + q == q;
    } else {
      AcquireAdvances(b, width, p[0].size, p[0].cycle);
      Compose(Acquire(b, width, p[0].size, p[0].cycle), width, p[1..], q);
      assert (p + q)[1..] == p[1..] + q;
    }
  }

  function Bytes(ts: seq<Transfer>): nat {
    if ts == [] then 0 else ts[0].size + Bytes(ts[1..])
  }

  lemma {:induction false} BytesFit(b: Bus, width: nat, ts: seq<Transfer>)
    requires BusOk(b, width) && InOrder(b, width, ts)
    ensures Position(b, width) + Bytes(ts) <= Position(After(b, width, ts), width)
    decreases |ts|
  {
    if ts != [] {
      AcquireAdvances(b, width, ts[0].size, ts[0].cycle);
      assert width * (ts[0].cycle - b.ready) >= 0;
      BytesFit(Acquire(b, width, ts[0].size, ts[0].cycle), width, ts[1..]);
    }
  }

  /** So many bytes fit into the cycles from `from` to `to`. */
  predicate FitsCycles(bytes: nat, width: nat, from: nat, to: nat) {
    bytes < width * (to - from + 1)
  }

  /** No run moves more than the bus width per cycle: what has been moved fits into the cycles passed. */
  lemma NeverFasterThanTheBus(b: Bus, width: nat, ts: seq<Transfer>)
    requires BusOk(b, width) && InOrder(b, width, ts)
    ensures FitsCycles(Bytes(ts), width, b.ready, After(b, width, ts).ready)
  {
    BytesFit(b, width, ts);
    Distribute(width, b.ready, After(b, width, ts).ready);
  }

  lemma Distribute(width: nat, from: nat, to: nat)
    ensures width * (to - from + 1) == width * to - width * from + width
  {
  }
}
