/** A cycle of MacSim's DRAM controller over all its banks: who gets the command bus, who gets the data bus. */
module MacsimSchedule {
  import opened Options
  import opened MacsimBanks
  import opened MacsimBus

  datatype Config = Config(numBank: nat, numChannel: nat, width: nat, entries: nat, lat: Latency, merge: bool,
                           frfcfs: bool)
  {
    predicate Valid() {
      0 < numChannel && 0 < width
    }

    /** The banks of channel `i` are `i * PerChannel()` up to `(i + 1) * PerChannel()`. */
    function PerChannel(): nat
      requires Valid()
    {
      numBank / numChannel
    }

    lemma ChannelFits(i: nat)
      requires Valid() && i < numChannel
      ensures (i + 1) * PerChannel() <= numBank
    {
      var n := PerChannel();
      assert numBank == n * numChannel + numBank % numChannel;
      Monotone(i + 1, numChannel, n);
    }

    lemma Monotone(a: nat, b: nat, n: nat)
      requires a <= b
      ensures a * n <= b * n && a * n <= n * b
    {
    }
  }

  // ---------- arbitration ----------

  /** The bank with the oldest time stamp among those in `[lo, hi)` that want to be picked. */
  function PickOldest(want: Bank -> bool, banks: seq<Bank>, lo: nat, hi: nat): (k: Option<nat>)
    requires hi <= |banks|
    ensures k.Some? ==> lo <= k.value < hi && want(banks[k.value])
  {
    if hi <= lo then None
    else
      var p := PickOldest(want, banks, lo, hi - 1);
      if want(banks[hi - 1]) && banks[hi - 1].timestamp < (if p.Some? then banks[p.value].timestamp else NEVER)
      then Some(hi - 1) else p
  }

  /** Bank `j` comes before bank `k`: an older stamp, or the same stamp and a smaller index. */
  predicate Earlier(banks: seq<Bank>, j: nat, k: nat)
    requires j < |banks| && k < |banks|
  {
    banks[j].timestamp < banks[k].timestamp || (banks[j].timestamp == banks[k].timestamp && j < k)
  }

  lemma {:induction false} PickOldestIsFirst(want: Bank -> bool, banks: seq<Bank>, lo: nat, hi: nat, j: nat)
    requires hi <= |banks| && lo <= j < hi && want(banks[j]) && banks[j].timestamp < NEVER
    ensures var p := PickOldest(want, banks, lo, hi);
            p.Some? && !Earlier(banks, j, p.value)
    ensures banks[PickOldest(want, banks, lo, hi).value].timestamp < NEVER
  {
    if j < hi - 1 {
      PickOldestIsFirst(want, banks, lo, hi - 1, j);
    } else {
      PickBelow(want, banks, lo, hi - 1);
    }
  }

  lemma {:induction false} PickBelow(want: Bank -> bool, banks: seq<Bank>, lo: nat, hi: nat)
    requires hi <= |banks|
    ensures var p := PickOldest(want, banks, lo, hi);
            p.Some? ==> banks[p.value].timestamp < NEVER
  {
    if lo < hi {
      PickBelow(want, banks, lo, hi - 1);
    }
  }

  /** One channel's command slot. */
  function CommandSlot(banks: seq<Bank>, lo: nat, hi: nat, cycle: nat, lat: Latency): (r: seq<Bank>)
    requires hi <= |banks|
    ensures |r| == |banks|
  {
    match PickOldest(WantsCommand, banks, lo, hi)
    case None => banks
    case Some(k) => banks[k := GiveCommand(banks[k], cycle, lat)]
  }

  function CommandPhase(c: Config, banks: seq<Bank>, cycle: nat, channels: nat): (r: seq<Bank>)
    requires c.Valid() && |banks| == c.numBank && channels <= c.numChannel
    ensures |r| == |banks|
  {
    if channels == 0 then banks
    else
      var r := CommandPhase(c, banks, cycle, channels - 1);
      c.ChannelFits(channels - 1);
      CommandSlot(r, (channels - 1) * c.PerChannel(), channels * c.PerChannel(), cycle, c.lat)
  }

  // ---------- data ----------

  function Waiting(banks: seq<Bank>, cycle: nat, hi: nat): nat
    requires hi <= |banks|
  {
    if hi == 0 then 0 else Waiting(banks, cycle, hi - 1) + if WantsData(banks[hi - 1], cycle) then 1 else 0
  }

  lemma {:induction false} WaitingDrops(banks: seq<Bank>, cycle: nat, hi: nat, k: nat, b: Bank)
    requires hi <= |banks| && k < |banks| && WantsData(banks[k], cycle) && !WantsData(b, cycle)
    ensures Waiting(banks[k := b], cycle, hi) == Waiting(banks, cycle, hi) - if k < hi then 1 else 0
  {
    if hi > 0 {
      WaitingDrops(banks, cycle, hi - 1, k, b);
    }
  }

  function DataWanted(cycle: nat): Bank -> bool {
    b => WantsData(b, cycle)
  }

  datatype DataResult = DataResult(banks: seq<Bank>, bus: Bus, transfers: seq<Transfer>)

  /** Grant the data bus of one channel until it is taken for this cycle or nobody waits. */
  function DataSlot(banks: seq<Bank>, lo: nat, hi: nat, bus: Bus, width: nat, cycle: nat): (r: DataResult)
    requires hi <= |banks| && BusOk(bus, width)
    ensures |r.banks| == |banks| && BusOk(r.bus, width)
    decreases Waiting(banks, cycle, |banks|)
  {
    if cycle < bus.ready then DataResult(banks, bus, [])
    else
      match PickOldest(DataWanted(cycle), banks, lo, hi)
      case None => DataResult(banks, bus, [])
      case Some(k) =>
        var size := banks[k].current.value.size;
        AcquireAdvances(bus, width, size, cycle);
        var next := Acquire(bus, width, size, cycle);
        WaitingDrops(banks, cycle, |banks|, k, GiveData(banks[k], next.ready));
        var rest := DataSlot(banks[k := GiveData(banks[k], next.ready)], lo, hi, next, width, cycle);
        rest.(transfers := [Transfer(size, cycle)] + rest.transfers)
  }

  /** What one cycle moves over a channel's bus is a run of in-order transfers. */
  lemma {:induction false} DataSlotTransfers(banks: seq<Bank>, lo: nat, hi: nat, bus: Bus, width: nat, cycle: nat)
    requires hi <= |banks| && BusOk(bus, width)
    ensures var r := DataSlot(banks, lo, hi, bus, width, cycle);
            && InOrder(bus, width, r.transfers)
            && r.bus == After(bus, width, r.transfers)
            && (r.bus.ready <= cycle ==> PickOldest(DataWanted(cycle), r.banks, lo, hi) == None)
    decreases Waiting(banks, cycle, |banks|)
  {
    if bus.ready <= cycle {
      match PickOldest(DataWanted(cycle), banks, lo, hi)
      case None =>
      case Some(k) =>
        var size := banks[k].current.value.size;
        AcquireAdvances(bus, width, size, cycle);
        var next := Acquire(bus, width, size, cycle);
        WaitingDrops(banks, cycle, |banks|, k, GiveData(banks[k], next.ready));
        DataSlotTransfers(banks[k := GiveData(banks[k], next.ready)], lo, hi, next, width, cycle);
        var ts := DataSlot(banks, lo, hi, bus, width, cycle).transfers;
        assert ts[0] == Transfer(size, cycle);
        assert ts[1..] == DataSlot(banks[k := GiveData(banks[k], next.ready)], lo, hi, next, width, cycle).transfers;
    }
  }

  datatype Channels = Channels(banks: seq<Bank>, buses: seq<Bus>)

  predicate BusesOk(buses: seq<Bus>, width: nat) {
    forall i | 0 <= i < |buses| :: BusOk(buses[i], width)
  }

  function DataPhase(c: Config, banks: seq<Bank>, buses: seq<Bus>, cycle: nat, channels: nat): (r: Channels)
    requires c.Valid() && |banks| == c.numBank && channels <= c.numChannel == |buses| && BusesOk(buses, c.width)
    ensures |r.banks| == |banks| && |r.buses| == |buses| && BusesOk(r.buses, c.width)
  {
    if channels == 0 then Channels(banks, buses)
    else
      var r := DataPhase(c, banks, buses, cycle, channels - 1);
      c.ChannelFits(channels - 1);
      var i := channels - 1;
      var d := DataSlot(r.banks, i * c.PerChannel(), channels * c.PerChannel(), r.buses[i], c.width, cycle);
      Channels(d.banks, r.buses[i := d.bus])
  }

  /** What is granted on the bus of channel `i`. */
  function Grants(c: Config, banks: seq<Bank>, buses: seq<Bus>, cycle: nat, i: nat): seq<Transfer>
    requires c.Valid() && |banks| == c.numBank && i < c.numChannel == |buses| && BusesOk(buses, c.width)
  {
    var r := DataPhase(c, banks, buses, cycle, i);
    c.ChannelFits(i);
    DataSlot(r.banks, i * c.PerChannel(), (i + 1) * c.PerChannel(), r.buses[i], c.width, cycle).transfers
  }

  lemma {:induction false} OwnBus(c: Config, banks: seq<Bank>, buses: seq<Bus>, cycle: nat, channels: nat, i: nat)
    requires c.Valid() && |banks| == c.numBank && channels <= c.numChannel == |buses| && BusesOk(buses, c.width)
    requires channels <= i < |buses|
    ensures DataPhase(c, banks, buses, cycle, channels).buses[i] == buses[i]
  {
    if channels > 0 {
      OwnBus(c, banks, buses, cycle, channels - 1, i);
    }
  }

  /** A cycle's grants on a channel's bus are in order and lead to the state of the bus after the cycle. */
  lemma {:induction false} GrantsOnBus(c: Config, banks: seq<Bank>, buses: seq<Bus>, cycle: nat, channels: nat, i: nat)
    requires c.Valid() && |banks| == c.numBank && channels <= c.numChannel == |buses| && BusesOk(buses, c.width)
    requires i < channels
    ensures InOrder(buses[i], c.width, Grants(c, banks, buses, cycle, i))
    ensures DataPhase(c, banks, buses, cycle, channels).buses[i]
            == After(buses[i], c.width, Grants(c, banks, buses, cycle, i))
  {
    if i < channels - 1 {
      GrantsOnBus(c, banks, buses, cycle, channels - 1, i);
    } else {
      OwnBus(c, banks, buses, cycle, i, i);
      var r := DataPhase(c, banks, buses, cycle, i);
      c.ChannelFits(i);
      DataSlotTransfers(r.banks, i * c.PerChannel(), (i + 1) * c.PerChannel(), r.buses[i], c.width, cycle);
    }
  }

  // ---------- a whole cycle ----------

  function CompleteAll(banks: seq<Bank>, cycle: nat, merge: bool): (r: seq<Bank>)
    ensures |r| == |banks| && forall i | 0 <= i < |banks| :: r[i] == Complete(banks[i], cycle, merge)
  {
    seq(|banks|, i requires 0 <= i < |banks| => Complete(banks[i], cycle, merge))
  }

  function NewAll(banks: seq<Bank>, cycle: nat, frfcfs: bool): (r: seq<Bank>)
    ensures |r| == |banks| && forall i | 0 <= i < |banks| :: r[i] == New(banks[i], cycle, frfcfs)
  {
    seq(|banks|, i requires 0 <= i < |banks| => New(banks[i], cycle, frfcfs))
  }

  /** The banks when the cycle's bus grants are over. */
  function AfterGrants(c: Config, banks: seq<Bank>, buses: seq<Bus>, cycle: nat): (r: seq<Bank>)
    requires c.Valid() && |banks| == c.numBank && |buses| == c.numChannel && BusesOk(buses, c.width)
    ensures |r| == |banks|
  {
    DataPhase(c, CommandPhase(c, banks, cycle, c.numChannel), buses, cycle, c.numChannel).banks
  }

  /** The scheduling part of a cycle: command bus, data bus, completions, new requests. */
  function Cycle(c: Config, banks: seq<Bank>, buses: seq<Bus>, cycle: nat): (r: Channels)
    requires c.Valid() && |banks| == c.numBank && |buses| == c.numChannel && BusesOk(buses, c.width)
    ensures |r.banks| == |banks| && |r.buses| == |buses| && BusesOk(r.buses, c.width)
  {
    var d := DataPhase(c, CommandPhase(c, banks, cycle, c.numChannel), buses, cycle, c.numChannel);
    Channels(NewAll(CompleteAll(d.banks, cycle, c.merge), cycle, c.frfcfs), d.buses)
  }

  // ---------- safety ----------

  ghost predicate AllOk(banks: seq<Bank>) {
    forall i | 0 <= i < |banks| :: BankOk(banks[i])
  }

  /** The clock and every latency stay below the "not yet" value. */
  predicate ClockOk(c: Config, cycle: nat) {
    cycle + c.lat.precharge < NEVER && cycle + c.lat.activate < NEVER && cycle + c.lat.column < NEVER
  }

  lemma {:induction false} CommandPhaseOk(c: Config, banks: seq<Bank>, cycle: nat, channels: nat)
    requires c.Valid() && |banks| == c.numBank && channels <= c.numChannel && AllOk(banks) && ClockOk(c, cycle)
    ensures AllOk(CommandPhase(c, banks, cycle, channels))
  {
    if channels > 0 {
      CommandPhaseOk(c, banks, cycle, channels - 1);
      var r := CommandPhase(c, banks, cycle, channels - 1);
      c.ChannelFits(channels - 1);
      var p := PickOldest(WantsCommand, r, (channels - 1) * c.PerChannel(), channels * c.PerChannel());
      if p.Some? {
        GiveCommandOk(r[p.value], cycle, c.lat);
      }
    }
  }

  /** The buses will be free again before the counters overflow. */
  predicate Finite(r: DataResult) {
    r.bus.ready < NEVER
  }

  lemma {:induction false} DataSlotOk(banks: seq<Bank>, lo: nat, hi: nat, bus: Bus, width: nat, cycle: nat)
    requires hi <= |banks| && BusOk(bus, width) && AllOk(banks)
    requires Finite(DataSlot(banks, lo, hi, bus, width, cycle))
    ensures AllOk(DataSlot(banks, lo, hi, bus, width, cycle).banks)
    decreases Waiting(banks, cycle, |banks|)
  {
    if bus.ready <= cycle {
      match PickOldest(DataWanted(cycle), banks, lo, hi)
      case None =>
      case Some(k) =>
        var size := banks[k].current.value.size;
        AcquireAdvances(bus, width, size, cycle);
        var next := Acquire(bus, width, size, cycle);
        WaitingDrops(banks, cycle, |banks|, k, GiveData(banks[k], next.ready));
        DataSlotTransfers(banks[k := GiveData(banks[k], next.ready)], lo, hi, next, width, cycle);
        GiveDataOk(banks[k], cycle, next.ready);
        DataSlotOk(banks[k := GiveData(banks[k], next.ready)], lo, hi, next, width, cycle);
    }
  }

  lemma {:induction false} DataPhaseOk(c: Config, banks: seq<Bank>, buses: seq<Bus>, cycle: nat, channels: nat)
    requires c.Valid() && |banks| == c.numBank && channels <= c.numChannel == |buses| && BusesOk(buses, c.width)
    requires AllOk(banks)
    requires forall i | 0 <= i < channels :: DataPhase(c, banks, buses, cycle, channels).buses[i].ready < NEVER
    ensures AllOk(DataPhase(c, banks, buses, cycle, channels).banks)
  {
    if channels > 0 {
      var r := DataPhase(c, banks, buses, cycle, channels - 1);
      var i := channels - 1;
      forall n | 0 <= n < channels - 1 ensures r.buses[n].ready < NEVER {
        assert DataPhase(c, banks, buses, cycle, channels).buses[n] == r.buses[n];
      }
      DataPhaseOk(c, banks, buses, cycle, channels - 1);
      c.ChannelFits(i);
      assert DataPhase(c, banks, buses, cycle, channels).buses[i] ==
             DataSlot(r.banks, i * c.PerChannel(), channels * c.PerChannel(), r.buses[i], c.width, cycle).bus;
      DataSlotOk(r.banks, i * c.PerChannel(), channels * c.PerChannel(), r.buses[i], c.width, cycle);
    }
  }

  /** Bank machine safety is kept by every cycle. */
  lemma CycleOk(c: Config, banks: seq<Bank>, buses: seq<Bus>, cycle: nat)
    requires c.Valid() && |banks| == c.numBank && |buses| == c.numChannel && BusesOk(buses, c.width)
    requires AllOk(banks) && ClockOk(c, cycle)
    requires forall i | 0 <= i < |buses| :: Cycle(c, banks, buses, cycle).buses[i].ready < NEVER
    ensures AllOk(Cycle(c, banks, buses, cycle).banks)
  {
    CommandPhaseOk(c, banks, cycle, c.numChannel);
    var mid := CommandPhase(c, banks, cycle, c.numChannel);
    assert Cycle(c, banks, buses, cycle).buses == DataPhase(c, mid, buses, cycle, c.numChannel).buses;
    DataPhaseOk(c, mid, buses, cycle, c.numChannel);
    var d := DataPhase(c, mid, buses, cycle, c.numChannel);
    forall i | 0 <= i < |banks| ensures BankOk(Cycle(c, banks, buses, cycle).banks[i]) {
      CompleteOk(d.banks[i], cycle, c.merge);
      NewOk(Complete(d.banks[i], cycle, c.merge), cycle, c.frfcfs);
    }
  }

  // ---------- no overtaking on the command bus ----------

  /** Nothing but a command can end a bank's wait, and whoever starts waiting is stamped with this cycle. */
  predicate Settles(b: Bank, n: Bank, cycle: nat) {
    && (WantsCommand(b) ==> n.current == b.current && n.timestamp == b.timestamp)
    && (!WantsCommand(b) && WantsCommand(n) ==> n.timestamp == cycle)
  }

  /** What a request arriving at a bank may change. */
  predicate OnlyBuffered(b: Bank, n: Bank) {
    n.current == b.current && n.timestamp == b.timestamp
  }

  /** The banks of a channel that are served before bank `k`. */
  function Ahead(banks: seq<Bank>, lo: nat, hi: nat, k: nat): set<nat>
    requires hi <= |banks| && k < |banks|
  {
    set j: nat | lo <= j < hi && WantsCommand(banks[j]) && Earlier(banks, j, k)
  }

  lemma CompleteSettles(b: Bank, cycle: nat, merge: bool)
    requires BankOk(b) && cycle < NEVER
    ensures WantsCommand(b) ==> Complete(b, cycle, merge) == b
    ensures WantsCommand(Complete(b, cycle, merge)) ==> WantsCommand(b)
  {
  }

  lemma {:induction false} DataSlotSettles(banks: seq<Bank>, lo: nat, hi: nat, bus: Bus, width: nat, cycle: nat, j: nat)
    requires hi <= |banks| && BusOk(bus, width) && j < |banks|
    ensures var r := DataSlot(banks, lo, hi, bus, width, cycle).banks;
            && (WantsCommand(banks[j]) ==> r[j] == banks[j])
            && (WantsCommand(r[j]) ==> WantsCommand(banks[j]))
    decreases Waiting(banks, cycle, |banks|)
  {
    if bus.ready <= cycle {
      match PickOldest(DataWanted(cycle), banks, lo, hi)
      case None =>
      case Some(k) =>
        var size := banks[k].current.value.size;
        AcquireAdvances(bus, width, size, cycle);
        var next := Acquire(bus, width, size, cycle);
        WaitingDrops(banks, cycle, |banks|, k, GiveData(banks[k], next.ready));
        DataSlotSettles(banks[k := GiveData(banks[k], next.ready)], lo, hi, next, width, cycle, j);
    }
  }

  lemma {:induction false} DataPhaseSettles(c: Config, banks: seq<Bank>, buses: seq<Bus>, cycle: nat, channels: nat,
                                            j: nat)
    requires c.Valid() && |banks| == c.numBank && channels <= c.numChannel == |buses| && BusesOk(buses, c.width)
    requires j < |banks|
    ensures var r := DataPhase(c, banks, buses, cycle, channels).banks;
            && (WantsCommand(banks[j]) ==> r[j] == banks[j])
            && (WantsCommand(r[j]) ==> WantsCommand(banks[j]))
  {
    if channels > 0 {
      DataPhaseSettles(c, banks, buses, cycle, channels - 1, j);
      var r := DataPhase(c, banks, buses, cycle, channels - 1);
      c.ChannelFits(channels - 1);
      DataSlotSettles(r.banks, (channels - 1) * c.PerChannel(), channels * c.PerChannel(), r.buses[channels - 1],
                      c.width, cycle, j);
    }
  }

  /** After the command slots, the rest of a cycle only settles banks. */
  lemma RestSettles(c: Config, banks: seq<Bank>, buses: seq<Bus>, cycle: nat, j: nat)
    requires c.Valid() && |banks| == c.numBank && |buses| == c.numChannel && BusesOk(buses, c.width)
    requires AllOk(banks) && ClockOk(c, cycle) && j < |banks|
    requires forall i | 0 <= i < |buses| :: Cycle(c, banks, buses, cycle).buses[i].ready < NEVER
    ensures Settles(CommandPhase(c, banks, cycle, c.numChannel)[j], Cycle(c, banks, buses, cycle).banks[j], cycle)
  {
    CommandPhaseOk(c, banks, cycle, c.numChannel);
    var mid := CommandPhase(c, banks, cycle, c.numChannel);
    assert Cycle(c, banks, buses, cycle).buses == DataPhase(c, mid, buses, cycle, c.numChannel).buses;
    DataPhaseOk(c, mid, buses, cycle, c.numChannel);
    DataPhaseSettles(c, mid, buses, cycle, c.numChannel, j);
    var d := DataPhase(c, mid, buses, cycle, c.numChannel).banks;
    CompleteSettles(d[j], cycle, c.merge);
  }

  /** What the slot of channel `k` does to bank `j`, if the slots before have left that channel alone. */
  lemma SlotIs(c: Config, r: seq<Bank>, banks: seq<Bank>, cycle: nat, k: nat, i: nat, j: nat)
    requires c.Valid() && |r| == |banks| == c.numBank && k < c.numChannel && i < c.numChannel && j < |banks|
    requires i * c.PerChannel() <= j < (i + 1) * c.PerChannel() <= |banks| && (k + 1) * c.PerChannel() <= |banks|
    requires i == k ==> forall m | k * c.PerChannel() <= m < (k + 1) * c.PerChannel() :: r[m] == banks[m]
    ensures var t := CommandSlot(r, k * c.PerChannel(), (k + 1) * c.PerChannel(), cycle, c.lat);
            t[j] == if i == k then CommandSlot(banks, i * c.PerChannel(), (i + 1) * c.PerChannel(), cycle, c.lat)[j]
                    else r[j]
  {
    var n := c.PerChannel();
    if i == k {
      PickSame(WantsCommand, r, banks, i * n, (i + 1) * n);
    } else if i < k {
      c.Monotone(i + 1, k, n);
    } else {
      c.Monotone(k + 1, i, n);
    }
  }

  lemma {:induction false} CommandPhaseIs(c: Config, banks: seq<Bank>, cycle: nat, channels: nat, i: nat, j: nat)
    requires c.Valid() && |banks| == c.numBank && channels <= c.numChannel && i < c.numChannel && j < |banks|
    requires i * c.PerChannel() <= j < (i + 1) * c.PerChannel()
    ensures (i + 1) * c.PerChannel() <= |banks|
    ensures CommandPhase(c, banks, cycle, channels)[j] ==
            if i < channels then CommandSlot(banks, i * c.PerChannel(), (i + 1) * c.PerChannel(), cycle, c.lat)[j]
            else banks[j]
  {
    c.ChannelFits(i);
    if channels > 0 {
      var k := channels - 1;
      var r := CommandPhase(c, banks, cycle, k);
      c.ChannelFits(k);
      CommandPhaseIs(c, banks, cycle, k, i, j);
      if i == k {
        forall m | k * c.PerChannel() <= m < (k + 1) * c.PerChannel() ensures r[m] == banks[m] {
          CommandPhaseIs(c, banks, cycle, k, i, m);
        }
      }
      SlotIs(c, r, banks, cycle, k, i, j);
    }
  }

  lemma {:induction false} PickSame(want: Bank -> bool, p: seq<Bank>, q: seq<Bank>, lo: nat, hi: nat)
    requires |p| == |q| && hi <= |p| && forall k | lo <= k < hi :: p[k] == q[k]
    ensures PickOldest(want, p, lo, hi) == PickOldest(want, q, lo, hi)
  {
    if lo < hi {
      PickSame(want, p, q, lo, hi - 1);
    }
  }

  ghost predicate StateOk(c: Config, s: Channels, cycle: nat)
    requires c.Valid()
  {
    && |s.banks| == c.numBank && |s.buses| == c.numChannel && BusesOk(s.buses, c.width)
    && AllOk(s.banks) && ClockOk(c, cycle)
    && (forall i | 0 <= i < |s.buses| :: Cycle(c, s.banks, s.buses, cycle).buses[i].ready < NEVER)
    && (forall j | 0 <= j < |s.banks| :: WantsCommand(s.banks[j]) ==> s.banks[j].timestamp < cycle)
  }

  /** `n` follows `s`: one cycle, and then requests may have arrived. */
  ghost predicate NextChannels(c: Config, s: Channels, n: Channels, cycle: nat)
    requires c.Valid() && StateOk(c, s, cycle)
  {
    var r := Cycle(c, s.banks, s.buses, cycle);
    && StateOk(c, n, cycle + 1)
    && n.buses == r.buses
    && forall j | 0 <= j < |s.banks| :: OnlyBuffered(r.banks[j], n.banks[j])
  }

  function Granted(c: Config, s: Channels, i: nat): Option<nat>
    requires c.Valid() && |s.banks| == c.numBank && i < c.numChannel
  {
    c.ChannelFits(i);
    PickOldest(WantsCommand, s.banks, i * c.PerChannel(), (i + 1) * c.PerChannel())
  }

  /** A bank that waits and is not granted still waits, with its stamp; any other bank of its channel
      that waits afterwards either did so before, or has a later stamp. */
  lemma WaitGoesOn(c: Config, s: Channels, n: Channels, cycle: nat, i: nat, j: nat)
    requires c.Valid() && StateOk(c, s, cycle) && NextChannels(c, s, n, cycle) && i < c.numChannel
    requires i * c.PerChannel() <= j < (i + 1) * c.PerChannel() && j < |s.banks|
    ensures WantsCommand(s.banks[j]) && Granted(c, s, i) != Some(j) ==>
              WantsCommand(n.banks[j]) && n.banks[j].timestamp == s.banks[j].timestamp
    ensures WantsCommand(n.banks[j]) ==>
              n.banks[j].timestamp == cycle
              || (WantsCommand(s.banks[j]) && Granted(c, s, i) != Some(j)
                  && n.banks[j].timestamp == s.banks[j].timestamp)
  {
    CommandPhaseIs(c, s.banks, cycle, c.numChannel, i, j);
    RestSettles(c, s.banks, s.buses, cycle, j);
    assert OnlyBuffered(Cycle(c, s.banks, s.buses, cycle).banks[j], n.banks[j]);
  }

  /** Each cycle in which bank `k` waits in vain, fewer banks are ahead of it. */
  lemma AheadShrinks(c: Config, s: Channels, n: Channels, cycle: nat, i: nat, k: nat)
    requires c.Valid() && StateOk(c, s, cycle) && NextChannels(c, s, n, cycle) && i < c.numChannel
    requires i * c.PerChannel() <= k < (i + 1) * c.PerChannel() <= |s.banks|
    requires WantsCommand(s.banks[k]) && Granted(c, s, i) != Some(k)
    ensures WantsCommand(n.banks[k])
    ensures var lo, hi := i * c.PerChannel(), (i + 1) * c.PerChannel();
            Ahead(n.banks, lo, hi, k) < Ahead(s.banks, lo, hi, k)
  {
    var lo, hi := i * c.PerChannel(), (i + 1) * c.PerChannel();
    WaitGoesOn(c, s, n, cycle, i, k);
    PickOldestIsFirst(WantsCommand, s.banks, lo, hi, k);
    var p := Granted(c, s, i).value;
    forall j | j in Ahead(n.banks, lo, hi, k) ensures j in Ahead(s.banks, lo, hi, k) && j != p {
      WaitGoesOn(c, s, n, cycle, i, j);
    }
    assert p in Ahead(s.banks, lo, hi, k);
  }

  lemma AheadIsSmall(banks: seq<Bank>, lo: nat, hi: nat, k: nat)
    requires lo <= k < hi <= |banks|
    ensures |Ahead(banks, lo, hi, k)| < hi - lo
  {
    RangeSize(lo, hi, k, Ahead(banks, lo, hi, k));
  }

  lemma {:induction false} RangeSize(lo: nat, hi: nat, k: nat, s: set<nat>)
    requires lo <= k < hi && k !in s && forall j | j in s :: lo <= j < hi
    ensures |s| < hi - lo
  {
    if hi - 1 == k {
      if s != {} {
        RangeSize'(lo, hi - 1, s);
      }
    } else {
      RangeSize(lo, hi - 1, k, s - {hi - 1});
    }
  }

  lemma {:induction false} RangeSize'(lo: nat, hi: nat, s: set<nat>)
    requires lo <= hi && forall j | j in s :: lo <= j < hi
    ensures |s| <= hi - lo
  {
    if lo < hi {
      RangeSize'(lo, hi - 1, s - {hi - 1});
    }
  }

  ghost predicate IsWindow(c: Config, run: seq<Channels>, start: nat)
    requires c.Valid()
  {
    && (forall n | 0 <= n < |run| :: StateOk(c, run[n], start + n))
    && (forall n | 0 <= n < |run| - 1 :: NextChannels(c, run[n], run[n + 1], start + n))
  }

  lemma TailIsRun(c: Config, run: seq<Channels>, start: nat)
    requires c.Valid() && IsWindow(c, run, start) && run != []
    ensures IsWindow(c, run[1..], start + 1)
  {
    forall m | 0 <= m < |run| - 1 ensures StateOk(c, run[1..][m], start + 1 + m) {
      assert StateOk(c, run[m + 1], start + (m + 1));
    }
    forall m | 0 <= m < |run| - 2 ensures NextChannels(c, run[1..][m], run[1..][m + 1], start + 1 + m) {
      assert NextChannels(c, run[m + 1], run[(m + 1) + 1], start + (m + 1));
    }
  }

  /** A bank that is not granted in the first cycle waits in the next, with fewer banks ahead. */
  lemma WaitsOn(c: Config, run: seq<Channels>, start: nat, i: nat, k: nat)
    requires c.Valid() && IsWindow(c, run, start) && run != [] && i < c.numChannel && StateOk(c, run[0], start)
    requires i * c.PerChannel() <= k < (i + 1) * c.PerChannel() <= c.numBank
    requires WantsCommand(run[0].banks[k]) && Granted(c, run[0], i) != Some(k)
    requires |Ahead(run[0].banks, i * c.PerChannel(), (i + 1) * c.PerChannel(), k)| < |run|
    ensures 1 < |run| && |run[1].banks| == c.numBank && WantsCommand(run[1].banks[k])
    ensures |Ahead(run[1].banks, i * c.PerChannel(), (i + 1) * c.PerChannel(), k)|
            < |Ahead(run[0].banks, i * c.PerChannel(), (i + 1) * c.PerChannel(), k)|
  {
    var lo, hi := i * c.PerChannel(), (i + 1) * c.PerChannel();
    PickOldestIsFirst(WantsCommand, run[0].banks, lo, hi, k);
    assert Granted(c, run[0], i).value in Ahead(run[0].banks, lo, hi, k);
    assert NextChannels(c, run[0], run[0 + 1], start + 0);
    AheadShrinks(c, run[0], run[1], start, i, k);
    SmallerSet(Ahead(run[1].banks, lo, hi, k), Ahead(run[0].banks, lo, hi, k));
  }

  lemma {:induction false} GrantFollows(c: Config, run: seq<Channels>, start: nat, i: nat, k: nat) returns (n: nat)
    requires c.Valid() && IsWindow(c, run, start) && run != [] && i < c.numChannel
    requires i * c.PerChannel() <= k < (i + 1) * c.PerChannel() <= c.numBank
    requires WantsCommand(run[0].banks[k])
    requires |Ahead(run[0].banks, i * c.PerChannel(), (i + 1) * c.PerChannel(), k)| < |run|
    ensures n < |run| && Granted(c, run[n], i) == Some(k)
    decreases |run|
  {
    var lo, hi := i * c.PerChannel(), (i + 1) * c.PerChannel();
    assert StateOk(c, run[0], start + 0);
    if Granted(c, run[0], i) == Some(k) {
      n := 0;
    } else {
      WaitsOn(c, run, start, i, k);
      TailIsRun(c, run, start);
      var m := GrantFollows(c, run[1..], start + 1, i, k);
      n := m + 1;
    }
  }

  lemma SmallerSet(a: set<nat>, b: set<nat>)
    requires a < b
    ensures |a| < |b|
  {
    assert b == a + (b - a);
    assert a * (b - a) == {};
  }

  /** A bank that asks for the command bus is granted it within as many command slots as its channel has
      banks. */
  lemma GrantWithin(c: Config, run: seq<Channels>, start: nat, i: nat, k: nat) returns (n: nat)
    requires c.Valid() && IsWindow(c, run, start) && i < c.numChannel && |run| == c.PerChannel()
    requires i * c.PerChannel() <= k < (i + 1) * c.PerChannel() <= c.numBank
    requires run != [] && WantsCommand(run[0].banks[k])
    ensures n < c.PerChannel() && Granted(c, run[n], i) == Some(k)
  {
    assert StateOk(c, run[0], start + 0);
    AheadIsSmall(run[0].banks, i * c.PerChannel(), (i + 1) * c.PerChannel(), k);
    assert (i + 1) * c.PerChannel() - i * c.PerChannel() == c.PerChannel();
    n := GrantFollows(c, run, start, i, k);
  }
}
