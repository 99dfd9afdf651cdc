/** When MacSim's controller serves a request: how its commands follow each other, when its data moves, and when it
    ends. */
module MacsimService {
  import opened Options
  import opened MacsimBanks
  import opened MacsimBus
  import opened MacsimSchedule
  import Numbers
  import R = MacsimRuns

  // ---------- one command after the other ----------

  /** When the last command given for the request in service is over. */
  function LastEnds(b: Bank, lat: Latency): nat
    requires b.log != [] && |b.times| == |b.log|
  {
    var n := |b.log| - 1;
    b.times[n].at + if b.log[n] == Precharge then lat.precharge
                    else if b.log[n] == Activate then lat.activate
                    else lat.column
  }

  /** Command `k` was given when it had been asked for, and had been asked for from the end of the one before. */
  predicate InTurn(b: Bank, lat: Latency, k: nat)
    requires k < |b.log| == |b.times|
  {
    && b.times[k].asked <= b.times[k].at
    && (0 < k ==>
          b.times[k].asked == b.times[k - 1].at + if b.log[k - 1] == Precharge then lat.precharge
                                                  else if b.log[k - 1] == Activate then lat.activate
                                                  else lat.column)
  }

  /** The times of a bank fit its state in cycle `now`, where what was over before has been noticed. */
  predicate Timed(b: Bank, lat: Latency, now: nat) {
    && |b.times| == |b.log|
    && (forall k | 0 <= k < |b.log| :: InTurn(b, lat, k))
    && (b.current.Some? ==>
          match b.current.value.state
          case Cmd => b.log != [] ==> b.timestamp == LastEnds(b, lat)
          case CmdWait => b.log != [] && b.bankReady == LastEnds(b, lat) && now <= b.bankReady
          case Data => b.log != [] && b.dataAvail == LastEnds(b, lat)
          case DataWait => now <= b.dataReady
          case Init => true)
  }

  predicate AllTimed(banks: seq<Bank>, lat: Latency, now: nat) {
    forall j | 0 <= j < |banks| :: Timed(banks[j], lat, now)
  }

  lemma CommandTimed(b: Bank, lat: Latency, now: nat)
    requires BankOk(b) && Timed(b, lat, now) && WantsCommand(b) && b.timestamp <= now
    ensures Timed(GiveCommand(b, now, lat), lat, now)
  {
    var n := GiveCommand(b, now, lat);
    forall k | 0 <= k < |n.log| ensures InTurn(n, lat, k) {
      if k < |b.log| {
        assert InTurn(b, lat, k);
      }
    }
  }

  lemma {:induction false} CommandPhaseTimed(c: Config, banks: seq<Bank>, now: nat, channels: nat)
    requires c.Valid() && |banks| == c.numBank && channels <= c.numChannel && AllOk(banks) && ClockOk(c, now)
    requires AllTimed(banks, c.lat, now) && R.Stamped(banks, now)
    ensures AllTimed(CommandPhase(c, banks, now, channels), c.lat, now)
  {
    if channels > 0 {
      CommandPhaseTimed(c, banks, now, channels - 1);
      var r := CommandPhase(c, banks, now, channels - 1);
      c.ChannelFits(channels - 1);
      CommandPhaseOk(c, banks, now, channels - 1);
      var p := PickOldest(WantsCommand, r, (channels - 1) * c.PerChannel(), channels * c.PerChannel());
      if p.Some? {
        R.CommandPhaseWaits(c, banks, now, channels - 1, p.value);
        assert r[p.value] == banks[p.value];
        CommandTimed(r[p.value], c.lat, now);
      }
    }
  }

  // ---------- one transfer after the other ----------

  lemma {:induction false} PrefixInOrder(b: Bus, width: nat, ts: seq<Transfer>, n: nat)
    requires BusOk(b, width) && InOrder(b, width, ts) && n <= |ts|
    ensures InOrder(b, width, ts[..n])
    decreases |ts|
  {
    if n > 0 {
      AcquireAdvances(b, width, ts[0].size, ts[0].cycle);
      PrefixInOrder(Acquire(b, width, ts[0].size, ts[0].cycle), width, ts[1..], n - 1);
      assert ts[..n][1..] == ts[1..][..n - 1];
    }
  }

  /** The state of the bus after the first `n` transfers. */
  function Upto(b: Bus, width: nat, ts: seq<Transfer>, n: nat): (r: Bus)
    requires BusOk(b, width) && InOrder(b, width, ts) && n <= |ts|
    ensures BusOk(r, width)
  {
    PrefixInOrder(b, width, ts, n);
    After(b, width, ts[..n])
  }

  /** Transfer `k` of `ts` moves the data of the request that `b` has in service, and `n` is `b` after that grant. */
  predicate GrantedBy(bus: Bus, width: nat, ts: seq<Transfer>, k: nat, cycle: nat, b: Bank, n: Bank)
    requires BusOk(bus, width) && InOrder(bus, width, ts)
  {
    && k < |ts| && b.current.Some? && b.current.value.state == Data && b.dataAvail <= cycle
    && ts[k] == Transfer(b.current.value.size, cycle)
    && n.current == Some(b.current.value.(state := DataWait)) && n.log == b.log && n.times == b.times
    && n.dataReady == Upto(bus, width, ts, k + 1).ready
  }

  lemma UptoShifts(bus: Bus, width: nat, ts: seq<Transfer>, k: nat)
    requires BusOk(bus, width) && InOrder(bus, width, ts) && ts != [] && k < |ts|
    ensures (AcquireAdvances(bus, width, ts[0].size, ts[0].cycle);
             Upto(bus, width, ts, k + 1) == Upto(Acquire(bus, width, ts[0].size, ts[0].cycle), width, ts[1..], k))
  {
    AcquireAdvances(bus, width, ts[0].size, ts[0].cycle);
    assert ts[..k + 1][1..] == ts[1..][..k];
    PrefixInOrder(bus, width, ts, k + 1);
  }

  /** What the grant loop does to bank `j`: nothing, or it is granted one of the transfers. */
  ghost predicate GrantedOrSame(bus: Bus, width: nat, ts: seq<Transfer>, cycle: nat, b: Bank, n: Bank)
    requires BusOk(bus, width) && InOrder(bus, width, ts)
  {
    n == b || exists k: nat :: GrantedBy(bus, width, ts, k, cycle, b, n)
  }

  /** `ts` is a transfer that leads from `bus` to `next`, and then `rest`. */
  predicate Precedes(bus: Bus, width: nat, ts: seq<Transfer>, next: Bus, rest: seq<Transfer>) {
    && BusOk(bus, width) && BusOk(next, width) && InOrder(bus, width, ts) && InOrder(next, width, rest)
    && ts != [] && ts[1..] == rest && next == Acquire(bus, width, ts[0].size, ts[0].cycle)
  }

  lemma FirstGranted(bus: Bus, width: nat, ts: seq<Transfer>, next: Bus, rest: seq<Transfer>, cycle: nat, b: Bank)
    requires Precedes(bus, width, ts, next, rest) && WantsData(b, cycle)
    requires ts[0] == Transfer(b.current.value.size, cycle)
    ensures GrantedBy(bus, width, ts, 0, cycle, b, GiveData(b, next.ready))
  {
    UptoShifts(bus, width, ts, 0);
    assert rest[..0] == [];
  }

  lemma LaterGranted(bus: Bus, width: nat, ts: seq<Transfer>, next: Bus, rest: seq<Transfer>, cycle: nat,
                     b: Bank, n: Bank)
    requires Precedes(bus, width, ts, next, rest) && GrantedOrSame(next, width, rest, cycle, b, n)
    ensures GrantedOrSame(bus, width, ts, cycle, b, n)
  {
    if n != b {
      var k: nat :| GrantedBy(next, width, rest, k, cycle, b, n);
      UptoShifts(bus, width, ts, k + 1);
      assert GrantedBy(bus, width, ts, k + 1, cycle, b, n);
    }
  }

  lemma SlotPrecedes(banks: seq<Bank>, lo: nat, hi: nat, bus: Bus, width: nat, cycle: nat, p: nat)
    requires hi <= |banks| && BusOk(bus, width) && bus.ready <= cycle
    requires PickOldest(DataWanted(cycle), banks, lo, hi) == Some(p)
    ensures var size := banks[p].current.value.size;
            var next := Acquire(bus, width, size, cycle);
            var more := banks[p := GiveData(banks[p], next.ready)];
            && BusOk(next, width)
            && var r, rest := DataSlot(banks, lo, hi, bus, width, cycle), DataSlot(more, lo, hi, next, width, cycle);
               && Precedes(bus, width, r.transfers, next, rest.transfers)
               && r.transfers[0] == Transfer(size, cycle) && r.banks == rest.banks
  {
    var size := banks[p].current.value.size;
    AcquireAdvances(bus, width, size, cycle);
    var next := Acquire(bus, width, size, cycle);
    var more := banks[p := GiveData(banks[p], next.ready)];
    WaitingDrops(banks, cycle, |banks|, p, GiveData(banks[p], next.ready));
    DataSlotTransfers(banks, lo, hi, bus, width, cycle);
    DataSlotTransfers(more, lo, hi, next, width, cycle);
  }

  lemma {:induction false} DataSlotGrants(banks: seq<Bank>, lo: nat, hi: nat, bus: Bus, width: nat, cycle: nat, j: nat)
    requires hi <= |banks| && BusOk(bus, width) && j < |banks|
    ensures var r := DataSlot(banks, lo, hi, bus, width, cycle);
            && InOrder(bus, width, r.transfers)
            && (if lo <= j < hi then GrantedOrSame(bus, width, r.transfers, cycle, banks[j], r.banks[j])
                else r.banks[j] == banks[j])
    decreases Waiting(banks, cycle, |banks|)
  {
    DataSlotTransfers(banks, lo, hi, bus, width, cycle);
    if bus.ready <= cycle {
      match PickOldest(DataWanted(cycle), banks, lo, hi)
      case None =>
      case Some(p) =>
        var next := Acquire(bus, width, banks[p].current.value.size, cycle);
        var b := GiveData(banks[p], next.ready);
        SlotPrecedes(banks, lo, hi, bus, width, cycle, p);
        WaitingDrops(banks, cycle, |banks|, p, b);
        DataSlotGrants(banks[p := b], lo, hi, next, width, cycle, j);
        SlotGrants(banks, lo, hi, bus, width, cycle, p, j);
    }
  }

  lemma SlotGrants(banks: seq<Bank>, lo: nat, hi: nat, bus: Bus, width: nat, cycle: nat, p: nat, j: nat)
    requires hi <= |banks| && BusOk(bus, width) && bus.ready <= cycle && j < |banks|
    requires PickOldest(DataWanted(cycle), banks, lo, hi) == Some(p)
    requires var next := Acquire(bus, width, banks[p].current.value.size, cycle);
             var more := banks[p := GiveData(banks[p], next.ready)];
             BusOk(next, width)
             && var rest := DataSlot(more, lo, hi, next, width, cycle);
                && InOrder(next, width, rest.transfers)
                && (if lo <= j < hi then GrantedOrSame(next, width, rest.transfers, cycle, more[j], rest.banks[j])
                    else rest.banks[j] == more[j])
    ensures var r := DataSlot(banks, lo, hi, bus, width, cycle);
            && InOrder(bus, width, r.transfers)
            && (if lo <= j < hi then GrantedOrSame(bus, width, r.transfers, cycle, banks[j], r.banks[j])
                else r.banks[j] == banks[j])
  {
    SlotPrecedes(banks, lo, hi, bus, width, cycle, p);
    var next := Acquire(bus, width, banks[p].current.value.size, cycle);
    var r := DataSlot(banks, lo, hi, bus, width, cycle);
    var rest := DataSlot(banks[p := GiveData(banks[p], next.ready)], lo, hi, next, width, cycle);
    if j == p {
      FirstGranted(bus, width, r.transfers, next, rest.transfers, cycle, banks[p]);
    } else if lo <= j < hi {
      LaterGranted(bus, width, r.transfers, next, rest.transfers, cycle, banks[j], r.banks[j]);
    }
  }

  /** What a cycle's grants do to bank `j`: nothing, or the bus of its channel `i` grants it one of its transfers. */
  ghost predicate ServedOn(c: Config, banks: seq<Bank>, buses: seq<Bus>, cycle: nat, i: nat, b: Bank, n: Bank)
    requires c.Valid() && |banks| == c.numBank && |buses| == c.numChannel && BusesOk(buses, c.width)
  {
    && i < c.numChannel
    && InOrder(buses[i], c.width, Grants(c, banks, buses, cycle, i))
    && exists k: nat :: GrantedBy(buses[i], c.width, Grants(c, banks, buses, cycle, i), k, cycle, b, n)
  }

  predicate InChannel(c: Config, i: nat, j: nat)
    requires c.Valid()
  {
    i * c.PerChannel() <= j < (i + 1) * c.PerChannel()
  }

  lemma LastSlotServes(c: Config, banks: seq<Bank>, buses: seq<Bus>, cycle: nat, i: nat, j: nat)
    requires c.Valid() && |banks| == c.numBank && i < c.numChannel == |buses| && BusesOk(buses, c.width)
    requires j < |banks| && (InChannel(c, i, j) ==> DataPhase(c, banks, buses, cycle, i).banks[j] == banks[j])
    ensures var r, n := DataPhase(c, banks, buses, cycle, i), DataPhase(c, banks, buses, cycle, i + 1);
            || n.banks[j] == r.banks[j]
            || (InChannel(c, i, j) && ServedOn(c, banks, buses, cycle, i, banks[j], n.banks[j]))
  {
    c.ChannelFits(i);
    OwnBus(c, banks, buses, cycle, i, i);
    var r := DataPhase(c, banks, buses, cycle, i);
    DataSlotGrants(r.banks, i * c.PerChannel(), (i + 1) * c.PerChannel(), r.buses[i], c.width, cycle, j);
  }

  lemma {:induction false} DataPhaseServes(c: Config, banks: seq<Bank>, buses: seq<Bus>, cycle: nat, channels: nat,
                                           j: nat) returns (i: nat)
    requires c.Valid() && |banks| == c.numBank && channels <= c.numChannel == |buses| && BusesOk(buses, c.width)
    requires j < |banks|
    ensures var n := DataPhase(c, banks, buses, cycle, channels).banks[j];
            && (channels * c.PerChannel() <= j ==> n == banks[j])
            && (n == banks[j] || (InChannel(c, i, j) && ServedOn(c, banks, buses, cycle, i, banks[j], n)))
  {
    i := 0;
    if channels > 0 {
      i := DataPhaseServes(c, banks, buses, cycle, channels - 1, j);
      Numbers.Distribute(channels - 1, 1, c.PerChannel());
      LastSlotServes(c, banks, buses, cycle, channels - 1, j);
      var r := DataPhase(c, banks, buses, cycle, channels - 1);
      if DataPhase(c, banks, buses, cycle, channels).banks[j] != r.banks[j] {
        i := channels - 1;
      }
    }
  }

  // ---------- a cycle keeps the times ----------

  lemma UptoNext(b: Bus, width: nat, ts: seq<Transfer>, k: nat)
    requires BusOk(b, width) && InOrder(b, width, ts) && k < |ts|
    ensures Upto(b, width, ts, k).ready <= ts[k].cycle
    ensures Upto(b, width, ts, k + 1) == Acquire(Upto(b, width, ts, k), width, ts[k].size, ts[k].cycle)
    decreases |ts|
  {
    if k == 0 {
      UptoShifts(b, width, ts, 0);
      assert ts[..0] == [] && ts[1..][..0] == [];
    } else {
      AcquireAdvances(b, width, ts[0].size, ts[0].cycle);
      UptoNext(Acquire(b, width, ts[0].size, ts[0].cycle), width, ts[1..], k - 1);
      UptoShifts(b, width, ts, k);
      UptoShifts(b, width, ts, k - 1);
    }
  }

  lemma GrantTimed(bus: Bus, width: nat, ts: seq<Transfer>, k: nat, b: Bank, n: Bank, lat: Latency, now: nat)
    requires BusOk(bus, width) && InOrder(bus, width, ts) && GrantedBy(bus, width, ts, k, now, b, n)
    requires Timed(b, lat, now)
    ensures Timed(n, lat, now)
  {
    UptoNext(bus, width, ts, k);
    AcquireAdvances(Upto(bus, width, ts, k), width, ts[k].size, ts[k].cycle);
    forall x | 0 <= x < |n.log| ensures InTurn(n, lat, x) {
      assert InTurn(b, lat, x);
    }
  }

  /** What is over has been noticed, apart from a command. */
  lemma CompleteTimed(b: Bank, lat: Latency, now: nat, merge: bool)
    requires BankOk(b) && Timed(b, lat, now) && now < NEVER
    ensures var m := Complete(b, now, merge);
            Timed(m, lat, now) && (m.current.Some? && m.current.value.state == DataWait ==> now < m.dataReady)
  {
    var m := Complete(b, now, merge);
    forall x | 0 <= x < |m.log| ensures InTurn(m, lat, x) {
      assert InTurn(b, lat, x);
    }
  }

  lemma NewTimed(b: Bank, lat: Latency, now: nat, frfcfs: bool)
    requires Timed(b, lat, now) && (b.current.Some? && b.current.value.state == DataWait ==> now < b.dataReady)
    ensures Timed(New(b, now, frfcfs), lat, now + 1)
  {
    var n := New(b, now, frfcfs);
    SortKeeps(b.buffer, b.rid);
    forall x | 0 <= x < |n.log| ensures InTurn(n, lat, x) {
      assert InTurn(b, lat, x);
    }
  }

  lemma GrantsOk(c: Config, s: R.System)
    requires R.Sound(c, s) && R.InTime(c, s)
    ensures AllOk(AfterGrants(c, s.banks, s.buses, s.cycle))
  {
    var mid := CommandPhase(c, s.banks, s.cycle, c.numChannel);
    CommandPhaseOk(c, s.banks, s.cycle, c.numChannel);
    assert Cycle(c, s.banks, s.buses, s.cycle).buses == DataPhase(c, mid, s.buses, s.cycle, c.numChannel).buses;
    DataPhaseOk(c, mid, s.buses, s.cycle, c.numChannel);
  }

  lemma ServedTimed(c: Config, banks: seq<Bank>, buses: seq<Bus>, cycle: nat, i: nat, b: Bank, n: Bank)
    requires c.Valid() && |banks| == c.numBank && |buses| == c.numChannel && BusesOk(buses, c.width)
    requires ServedOn(c, banks, buses, cycle, i, b, n) && Timed(b, c.lat, cycle)
    ensures Timed(n, c.lat, cycle)
  {
    var ts := Grants(c, banks, buses, cycle, i);
    var k: nat :| GrantedBy(buses[i], c.width, ts, k, cycle, b, n);
    GrantTimed(buses[i], c.width, ts, k, b, n, c.lat, cycle);
  }

  lemma BankTimed(c: Config, s: R.System, j: nat)
    requires R.Sound(c, s) && R.InTime(c, s) && AllTimed(s.banks, c.lat, s.cycle) && j < |s.banks|
    ensures Timed(AfterGrants(c, s.banks, s.buses, s.cycle)[j], c.lat, s.cycle)
  {
    var mid := CommandPhase(c, s.banks, s.cycle, c.numChannel);
    CommandPhaseTimed(c, s.banks, s.cycle, c.numChannel);
    var i := DataPhaseServes(c, mid, s.buses, s.cycle, c.numChannel, j);
    var n := AfterGrants(c, s.banks, s.buses, s.cycle)[j];
    if n != mid[j] {
      ServedTimed(c, mid, s.buses, s.cycle, i, mid[j], n);
    }
  }

  ghost predicate SoundAndTimed(c: Config, s: R.System) {
    R.Sound(c, s) && AllTimed(s.banks, c.lat, s.cycle)
  }

  lemma TickTimed(c: Config, s: R.System, t: R.System)
    requires SoundAndTimed(c, s) && R.InTime(c, s) && t == R.TickStep(c, s)
    ensures AllTimed(t.banks, c.lat, t.cycle)
  {
    var d := AfterGrants(c, s.banks, s.buses, s.cycle);
    GrantsOk(c, s);
    forall j | 0 <= j < |t.banks| ensures Timed(t.banks[j], c.lat, t.cycle) {
      BankTimed(c, s, j);
      CompleteTimed(d[j], c.lat, s.cycle, c.merge);
      NewTimed(Complete(d[j], s.cycle, c.merge), c.lat, s.cycle, c.frfcfs);
    }
  }

  lemma ArriveTimed(s: R.System, ev: R.Event, t: R.System, lat: Latency)
    requires ev.Arrive? && ev.bid < |s.banks| && AllTimed(s.banks, lat, s.cycle) && t == R.ArriveStep(s, ev)
    ensures AllTimed(t.banks, lat, t.cycle)
  {
    forall j | 0 <= j < |t.banks| ensures Timed(t.banks[j], lat, s.cycle) {
      assert Timed(s.banks[j], lat, s.cycle);
      forall x | 0 <= x < |t.banks[j].log| ensures InTurn(t.banks[j], lat, x) {
        assert InTurn(s.banks[j], lat, x);
      }
    }
  }

  lemma NextTimed(c: Config, s: R.System, ev: R.Event, t: R.System)
    requires SoundAndTimed(c, s) && R.Follows(c, s, ev, t)
    ensures AllTimed(t.banks, c.lat, t.cycle)
  {
    if ev.Tick? {
      TickTimed(c, s, t);
    } else {
      ArriveTimed(s, ev, t, c.lat);
    }
  }

  lemma NextIsTimed(c: Config, states: seq<R.System>, events: seq<R.Event>, n: nat)
    requires R.IsRun(c, states, events) && 0 < n <= |events| && SoundAndTimed(c, states[n - 1])
    ensures SoundAndTimed(c, states[n])
  {
    R.EveryRunIsSound(c, states, events, n);
    assert R.Follows(c, states[n - 1], events[n - 1], states[n - 1 + 1]);
    NextTimed(c, states[n - 1], events[n - 1], states[n]);
  }

  lemma BeginIsTimed(c: Config, states: seq<R.System>, events: seq<R.Event>)
    requires R.IsRun(c, states, events)
    ensures SoundAndTimed(c, states[0])
  {
    R.EveryRunIsSound(c, states, events, 0);
  }

  lemma {:induction false} RunIsTimed(c: Config, states: seq<R.System>, events: seq<R.Event>, n: nat)
    requires R.IsRun(c, states, events) && n <= |events|
    ensures SoundAndTimed(c, states[n])
  {
    if n == 0 {
      BeginIsTimed(c, states, events);
    } else {
      RunIsTimed(c, states, events, n - 1);
      NextIsTimed(c, states, events, n);
    }
  }

  // ---------- where a moving request was granted its transfer ----------

  predicate IsMoving(b: Bank) {
    b.current.Some? && b.current.value.state == DataWait
  }

  /** In the cycle that begins in `s`, transfer `k` on channel `i` was granted to the request that `b` has in service,
      after its last command was over. */
  ghost predicate GrantIn(c: Config, s: R.System, i: nat, k: nat, j: nat, b: Bank) {
    && R.Shaped(c, s) && i < c.numChannel && InChannel(c, i, j)
    && var ts := Grants(c, CommandPhase(c, s.banks, s.cycle, c.numChannel), s.buses, s.cycle, i);
       && InOrder(s.buses[i], c.width, ts) && k < |ts|
       && b.current.Some? && ts[k] == Transfer(b.current.value.size, s.cycle)
       && b.dataReady == Upto(s.buses[i], c.width, ts, k + 1).ready
       && b.log != [] && |b.times| == |b.log| && LastEnds(b, c.lat) <= s.cycle
  }

  lemma {:induction false} CommandPhaseGives(c: Config, banks: seq<Bank>, cycle: nat, channels: nat, j: nat)
    requires c.Valid() && |banks| == c.numBank && channels <= c.numChannel && j < |banks|
    ensures var r := CommandPhase(c, banks, cycle, channels)[j];
            r == banks[j] || (WantsCommand(banks[j]) && r == GiveCommand(banks[j], cycle, c.lat))
  {
    if channels > 0 {
      CommandPhaseGives(c, banks, cycle, channels - 1, j);
      c.ChannelFits(channels - 1);
    }
  }

  lemma StillMoving(c: Config, s: R.System, j: nat)
    requires R.Shaped(c, s) && j < |s.banks| && IsMoving(s.banks[j])
    ensures AfterGrants(c, s.banks, s.buses, s.cycle)[j] == s.banks[j]
  {
    CommandPhaseGives(c, s.banks, s.cycle, c.numChannel, j);
    var mid := CommandPhase(c, s.banks, s.cycle, c.numChannel);
    var i := DataPhaseServes(c, mid, s.buses, s.cycle, c.numChannel, j);
  }

  lemma GrantedIn(c: Config, s: R.System, i: nat, j: nat, b: Bank, n: Bank) returns (k: nat)
    requires R.Shaped(c, s) && InChannel(c, i, j) && Timed(b, c.lat, s.cycle)
    requires ServedOn(c, CommandPhase(c, s.banks, s.cycle, c.numChannel), s.buses, s.cycle, i, b, n)
    ensures GrantIn(c, s, i, k, j, n)
  {
    var ts := Grants(c, CommandPhase(c, s.banks, s.cycle, c.numChannel), s.buses, s.cycle, i);
    k :| GrantedBy(s.buses[i], c.width, ts, k, s.cycle, b, n);
  }

  lemma GrantedNow(c: Config, s: R.System, j: nat) returns (i: nat, k: nat)
    requires SoundAndTimed(c, s) && R.InTime(c, s) && j < |s.banks| && !IsMoving(s.banks[j])
    requires IsMoving(AfterGrants(c, s.banks, s.buses, s.cycle)[j])
    ensures GrantIn(c, s, i, k, j, AfterGrants(c, s.banks, s.buses, s.cycle)[j])
  {
    var mid := CommandPhase(c, s.banks, s.cycle, c.numChannel);
    CommandPhaseGives(c, s.banks, s.cycle, c.numChannel, j);
    CommandPhaseTimed(c, s.banks, s.cycle, c.numChannel);
    i := DataPhaseServes(c, mid, s.buses, s.cycle, c.numChannel, j);
    k := GrantedIn(c, s, i, j, mid[j], AfterGrants(c, s.banks, s.buses, s.cycle)[j]);
  }

  lemma SameGrant(c: Config, s: R.System, i: nat, k: nat, j: nat, b: Bank, n: Bank)
    requires GrantIn(c, s, i, k, j, b)
    requires SameService(b, n)
    ensures GrantIn(c, s, i, k, j, n)
  {
  }

  /** A bank whose data moves in state `t` was left alone since the grants of the cycle before. */
  lemma MovesOn(c: Config, s: R.System, t: R.System, j: nat)
    requires R.Shaped(c, s) && t == R.TickStep(c, s) && j < |t.banks| && IsMoving(t.banks[j])
    ensures t.banks[j] == AfterGrants(c, s.banks, s.buses, s.cycle)[j]
  {
  }

  lemma ArrivesBeside(s: R.System, ev: R.Event, t: R.System, j: nat)
    requires ev.Arrive? && ev.bid < |s.banks| && t == R.ArriveStep(s, ev) && j < |s.banks|
    ensures |t.banks| == |s.banks|
    ensures SameService(s.banks[j], t.banks[j])
  {
  }

  /** What one event tells about a bank whose data moves after it: its data moved before, or it was granted now. */
  lemma MovedBefore(c: Config, s: R.System, ev: R.Event, t: R.System, j: nat) returns (i: nat, k: nat)
    requires SoundAndTimed(c, s) && R.Follows(c, s, ev, t) && j < |s.banks| == |t.banks| && IsMoving(t.banks[j])
    ensures if IsMoving(s.banks[j])
            then SameService(s.banks[j], t.banks[j])
            else ev.Tick? && GrantIn(c, s, i, k, j, t.banks[j])
  {
    i, k := 0, 0;
    if ev.Arrive? {
      ArrivesBeside(s, ev, t, j);
    } else {
      MovesOn(c, s, t, j);
      if IsMoving(s.banks[j]) {
        StillMoving(c, s, j);
      } else {
        i, k := GrantedNow(c, s, j);
      }
    }
  }

  /** The request in service, its commands and the end of its transfer are the same. */
  predicate SameService(b: Bank, n: Bank) {
    n.current == b.current && n.dataReady == b.dataReady && n.log == b.log && n.times == b.times
  }

  lemma MovedInRun(c: Config, states: seq<R.System>, events: seq<R.Event>, n: nat, j: nat) returns (i: nat, k: nat)
    requires R.IsRun(c, states, events) && 0 < n <= |events| && j < c.numBank == |states[n].banks|
    requires IsMoving(states[n].banks[j])
    ensures |states[n - 1].banks| == c.numBank
    ensures if IsMoving(states[n - 1].banks[j]) then SameService(states[n - 1].banks[j], states[n].banks[j])
            else events[n - 1].Tick? && GrantIn(c, states[n - 1], i, k, j, states[n].banks[j])
  {
    RunIsTimed(c, states, events, n - 1);
    assert R.Follows(c, states[n - 1], events[n - 1], states[n - 1 + 1]);
    i, k := MovedBefore(c, states[n - 1], events[n - 1], states[n], j);
  }

  lemma {:induction false} MovingSince(c: Config, states: seq<R.System>, events: seq<R.Event>, n: nat, j: nat)
    returns (m: nat, i: nat, k: nat)
    requires R.IsRun(c, states, events) && n <= |events| && j < c.numBank == |states[n].banks|
    requires IsMoving(states[n].banks[j])
    ensures m < n && events[m].Tick? && GrantIn(c, states[m], i, k, j, states[n].banks[j])
  {
    if n > 0 {
      i, k := MovedInRun(c, states, events, n, j);
      m := n - 1;
      if IsMoving(states[n - 1].banks[j]) {
        m, i, k := MovingSince(c, states, events, n - 1, j);
        SameGrant(c, states[m], i, k, j, states[n - 1].banks[j], states[n].banks[j]);
      }
    }
  }

  // ---------- every end ----------

  lemma DoneIsMoving(c: Config, s: R.System, j: nat)
    requires SoundAndTimed(c, s) && R.InTime(c, s) && j < |s.banks|
    requires IsDone(AfterGrants(c, s.banks, s.buses, s.cycle)[j], s.cycle)
    ensures var b := AfterGrants(c, s.banks, s.buses, s.cycle)[j];
            IsMoving(b) && b.dataReady == s.cycle && Served(b.log) && Timed(b, c.lat, s.cycle)
  {
    GrantsOk(c, s);
    BankTimed(c, s, j);
    assert BankOk(AfterGrants(c, s.banks, s.buses, s.cycle)[j]);
  }

  lemma EndWasGranted(c: Config, states: seq<R.System>, events: seq<R.Event>, n: nat, j: nat)
    returns (m: nat, i: nat, k: nat)
    requires R.IsRun(c, states, events) && n < |events| && SoundAndTimed(c, states[n]) && R.InTime(c, states[n])
    requires events[n].Tick? && j < |states[n].banks|
    requires IsMoving(AfterGrants(c, states[n].banks, states[n].buses, states[n].cycle)[j])
    ensures m <= n && events[m].Tick?
    ensures GrantIn(c, states[m], i, k, j, AfterGrants(c, states[n].banks, states[n].buses, states[n].cycle)[j])
  {
    if IsMoving(states[n].banks[j]) {
      StillMoving(c, states[n], j);
      m, i, k := MovingSince(c, states, events, n, j);
    } else {
      m := n;
      i, k := GrantedNow(c, states[n], j);
    }
  }

  /** `size` bytes, granted in cycle `at`, take the bus from state `from` to state `to`. */
  predicate TakesBus(width: nat, from: Bus, to: Bus, size: nat, at: nat) {
    && from.ready <= at && at <= to.ready && 1 <= to.avail <= width
    && width * to.ready + (width - to.avail)
       == width * from.ready + (width - from.avail) + size + width * (at - from.ready)
  }

  /** In the cycle that begins in `s`, transfer `k` on the channel `i` of bank `j` is one of `size` bytes, and takes its
      bus from state `from` to state `to`. */
  ghost predicate TransferIn(c: Config, s: R.System, i: nat, k: nat, j: nat, size: nat, from: Bus, to: Bus) {
    && R.Shaped(c, s) && i < c.numChannel && i * c.PerChannel() <= j < (i + 1) * c.PerChannel()
    && var ts := R.TransfersIn(c, s, R.Tick, i);
       && InOrder(s.buses[i], c.width, ts) && k < |ts| && ts[k] == Transfer(size, s.cycle)
       && from == Upto(s.buses[i], c.width, ts, k) && to == Upto(s.buses[i], c.width, ts, k + 1)
       && TakesBus(c.width, from, to, size, s.cycle)
  }

  lemma GrantTakesBus(c: Config, s: R.System, i: nat, k: nat, j: nat, b: Bank) returns (from: Bus, to: Bus)
    requires GrantIn(c, s, i, k, j, b)
    ensures BusOk(from, c.width) && TransferIn(c, s, i, k, j, b.current.value.size, from, to)
    ensures b.dataReady == to.ready
  {
    var ts := Grants(c, CommandPhase(c, s.banks, s.cycle, c.numChannel), s.buses, s.cycle, i);
    from, to := Upto(s.buses[i], c.width, ts, k), Upto(s.buses[i], c.width, ts, k + 1);
    UptoNext(s.buses[i], c.width, ts, k);
    AcquireAdvances(from, c.width, ts[k].size, s.cycle);
  }

  /** What fits between grant and end. */
  lemma SizeFits(width: nat, from: Bus, to: Bus, size: nat, at: nat)
    requires TakesBus(width, from, to, size, at) && BusOk(from, width)
    ensures size < width * (to.ready - at + 1)
  {
    Numbers.Distribute(to.ready - at, 1, width);
    Numbers.Distribute(to.ready, at, width);
    Numbers.Distribute(at, from.ready, width);
    assert width * (to.ready - at + 1) == width * to.ready - width * at + width;
    assert width * (at - from.ready) == width * at - width * from.ready;
  }

  /** The service of a request, up to its grant in cycle `at`: at most a precharge, an activate, and the column
      command; each was given once it had been asked for, was asked for exactly when the one before it was over, and
      the grant did not come before the column command was over. */
  predicate ServedInTime(b: Bank, lat: Latency, at: nat) {
    var n := |b.log|;
    && 1 <= n <= 3 && |b.times| == n
    && (forall x | 0 <= x < n :: b.times[x].asked <= b.times[x].at)
    && b.log[n - 1] == Column && b.times[n - 1].at + lat.column <= at
    && (2 <= n ==> b.log[n - 2] == Activate && b.times[n - 1].asked == b.times[n - 2].at + lat.activate)
    && (n == 3 ==> b.log[0] == Precharge && b.times[1].asked == b.times[0].at + lat.precharge)
  }

  lemma TimedIsServed(b: Bank, lat: Latency, now: nat, at: nat)
    requires Timed(b, lat, now) && Served(b.log) && LastEnds(b, lat) <= at
    ensures ServedInTime(b, lat, at)
  {
    var n := |b.log|;
    forall x | 0 <= x < n ensures b.times[x].asked <= b.times[x].at {
      assert InTurn(b, lat, x);
    }
    assert InTurn(b, lat, n - 1);
    if n == 3 {
      assert InTurn(b, lat, 1);
    }
  }

  /** What is known of a request of `b` that was granted in the cycle that begins in `s` and ends in cycle `end`. */
  ghost predicate EndsInTime(c: Config, s: R.System, i: nat, k: nat, j: nat, b: Bank, from: Bus, to: Bus, end: nat) {
    && b.current.Some? && TransferIn(c, s, i, k, j, b.current.value.size, from, to)
    && s.cycle <= end == to.ready && b.current.value.size < c.width * (end - s.cycle + 1)
    && ServedInTime(b, c.lat, s.cycle)
  }

  lemma GrantEndsInTime(c: Config, s: R.System, i: nat, k: nat, j: nat, b: Bank, end: nat) returns (from: Bus, to: Bus)
    requires GrantIn(c, s, i, k, j, b) && Timed(b, c.lat, end) && Served(b.log) && b.dataReady == end
    ensures EndsInTime(c, s, i, k, j, b, from, to, end)
  {
    from, to := GrantTakesBus(c, s, i, k, j, b);
    SizeFits(c.width, from, to, b.current.value.size, s.cycle);
    TimedIsServed(b, c.lat, end, s.cycle);
  }

  /** In every run: a request that ends in a cycle was served command by command as its latencies demand, was granted
      the bus of its bank's channel in some cycle for a transfer of its own size, and ends exactly in the cycle in which
      the last byte of that transfer is handed out, never earlier than its size and the width allow. */
  lemma EveryEndIsTimely(c: Config, states: seq<R.System>, events: seq<R.Event>, n: nat, j: nat)
    returns (m: nat, i: nat, k: nat, from: Bus, to: Bus)
    requires R.IsRun(c, states, events) && n < |events| && events[n].Tick?
    requires R.Shaped(c, states[n]) && j < c.numBank
    requires var b := AfterGrants(c, states[n].banks, states[n].buses, states[n].cycle)[j];
             b.current.Some? && b.dataReady <= states[n].cycle
    ensures m <= n && events[m].Tick?
    ensures EndsInTime(c, states[m], i, k, j, AfterGrants(c, states[n].banks, states[n].buses, states[n].cycle)[j],
                       from, to, states[n].cycle)
  {
    RunIsTimed(c, states, events, n);
    assert R.Follows(c, states[n], events[n], states[n + 1]);
    DoneIsMoving(c, states[n], j);
    m, i, k := EndWasGranted(c, states, events, n, j);
    from, to := GrantEndsInTime(c, states[m], i, k, j,
                                AfterGrants(c, states[n].banks, states[n].buses, states[n].cycle)[j], states[n].cycle);
  }
}
