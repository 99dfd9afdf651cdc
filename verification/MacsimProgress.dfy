/** MacSim's DRAM controller never starves: while it holds requests, something finishes within a bounded number of
    cycles, and without new requests everything does.
  */
module MacsimProgress {
  import opened Numbers
  import opened Options
  import opened MacsimBanks
  import opened MacsimBus
  import opened MacsimSchedule
  import D = MacsimDram
  import R = MacsimRuns

  // ---------- how far a bank is ----------

  /** The steps that a bank needs at most until its request ends; an idle bank has all of them before it. */
  function Phase(b: Bank): nat {
    match b.current
    case None => 8
    case Some(e) =>
      match e.state
      case Cmd => if b.rid == -1 then 5 else if b.rid == e.rid then 3 else 7
      case CmdWait => if b.rid == -1 then 6 else 4
      case Data => 2
      case DataWait => 1
      case Init => 0
  }

  function Work(banks: seq<Bank>): nat {
    if banks == [] then 0 else Work(banks[..|banks| - 1]) + Phase(banks[|banks| - 1])
  }

  /** A bank is the same, or it wanted this and has taken a step. */
  predicate Stepped(want: Bank -> bool, b: Bank, n: Bank) {
    n == b || (want(b) && Phase(n) < Phase(b))
  }

  predicate AllStepped(want: Bank -> bool, p: seq<Bank>, q: seq<Bank>) {
    |p| == |q| && forall j | 0 <= j < |p| :: Stepped(want, p[j], q[j])
  }

  function InData(): Bank -> bool {
    (b: Bank) => b.current.Some? && b.current.value.state == Data
  }

  function Any(): Bank -> bool {
    b => true
  }

  lemma {:induction false} WorkFalls(p: seq<Bank>, q: seq<Bank>)
    requires AllStepped(Any(), p, q)
    ensures Work(q) <= Work(p)
    ensures p != q ==> Work(q) < Work(p)
  {
    if p != [] {
      var n := |p| - 1;
      WorkFalls(p[..n], q[..n]);
      assert Stepped(Any(), p[n], q[n]);
      if p[..n] == q[..n] && p[n] == q[n] {
        assert p == p[..n] + [p[n]];
        assert q == q[..n] + [q[n]];
      }
    }
  }

  lemma {:induction false} WorkBound(banks: seq<Bank>)
    ensures Work(banks) <= 8 * |banks|
  {
    if banks != [] {
      WorkBound(banks[..|banks| - 1]);
    }
  }

  lemma StepsTrans(p: seq<Bank>, q: seq<Bank>, r: seq<Bank>)
    requires AllStepped(Any(), p, q) && AllStepped(Any(), q, r)
    ensures AllStepped(Any(), p, r)
  {
    forall j | 0 <= j < |p| ensures Stepped(Any(), p[j], r[j]) {
      assert Stepped(Any(), p[j], q[j]) && Stepped(Any(), q[j], r[j]);
    }
  }

  /** A bank that differs at the end has taken a step somewhere. */
  lemma StepsShow(p: seq<Bank>, q: seq<Bank>, r: seq<Bank>, j: nat)
    requires AllStepped(Any(), p, q) && AllStepped(Any(), q, r) && j < |p| && (p[j] != q[j] || q[j] != r[j])
    ensures Phase(r[j]) < Phase(p[j])
  {
    assert Stepped(Any(), p[j], q[j]) && Stepped(Any(), q[j], r[j]);
  }

  lemma ForAny(want: Bank -> bool, p: seq<Bank>, q: seq<Bank>)
    requires AllStepped(want, p, q)
    ensures AllStepped(Any(), p, q)
  {
    forall j | 0 <= j < |p| ensures Stepped(Any(), p[j], q[j]) {
      assert Stepped(want, p[j], q[j]);
    }
  }

  // ---------- every part of a cycle takes steps ----------

  lemma CommandSteps(b: Bank, cycle: nat, lat: Latency)
    requires BankOk(b) && WantsCommand(b)
    ensures Phase(GiveCommand(b, cycle, lat)) < Phase(b)
  {
  }

  lemma {:induction false} CommandPhaseSteps(c: Config, banks: seq<Bank>, cycle: nat, channels: nat)
    requires c.Valid() && |banks| == c.numBank && channels <= c.numChannel && AllOk(banks) && ClockOk(c, cycle)
    ensures AllStepped(WantsCommand, banks, CommandPhase(c, banks, cycle, channels))
  {
    if channels > 0 {
      var r := CommandPhase(c, banks, cycle, channels - 1);
      CommandPhaseSteps(c, banks, cycle, channels - 1);
      CommandPhaseOk(c, banks, cycle, channels - 1);
      c.ChannelFits(channels - 1);
      var p := PickOldest(WantsCommand, r, (channels - 1) * c.PerChannel(), channels * c.PerChannel());
      if p.Some? {
        CommandSteps(r[p.value], cycle, c.lat);
        assert Stepped(WantsCommand, banks[p.value], r[p.value]);
      }
    }
  }

  lemma {:induction false} DataSlotSteps(banks: seq<Bank>, lo: nat, hi: nat, bus: Bus, width: nat, cycle: nat)
    requires hi <= |banks| && BusOk(bus, width)
    ensures AllStepped(InData(), banks, DataSlot(banks, lo, hi, bus, width, cycle).banks)
    ensures forall j | 0 <= j < |banks| && (j < lo || hi <= j) ::
            DataSlot(banks, lo, hi, bus, width, cycle).banks[j] == banks[j]
    decreases Waiting(banks, cycle, |banks|)
  {
    if bus.ready <= cycle {
      match PickOldest(DataWanted(cycle), banks, lo, hi)
      case None =>
      case Some(k) =>
        var size := banks[k].current.value.size;
        AcquireAdvances(bus, width, size, cycle);
        var next := Acquire(bus, width, size, cycle);
        var more := banks[k := GiveData(banks[k], next.ready)];
        WaitingDrops(banks, cycle, |banks|, k, GiveData(banks[k], next.ready));
        DataSlotSteps(more, lo, hi, next, width, cycle);
        var r := DataSlot(banks, lo, hi, bus, width, cycle).banks;
        forall j | 0 <= j < |banks| ensures Stepped(InData(), banks[j], r[j]) {
          assert Stepped(InData(), more[j], r[j]);
        }
    }
  }

  lemma {:induction false} DataPhaseSteps(c: Config, banks: seq<Bank>, buses: seq<Bus>, cycle: nat, channels: nat)
    requires c.Valid() && |banks| == c.numBank && channels <= c.numChannel == |buses| && BusesOk(buses, c.width)
    ensures AllStepped(InData(), banks, DataPhase(c, banks, buses, cycle, channels).banks)
    ensures forall j | channels * c.PerChannel() <= j < |banks| ::
            DataPhase(c, banks, buses, cycle, channels).banks[j] == banks[j]
  {
    if channels > 0 {
      var r := DataPhase(c, banks, buses, cycle, channels - 1);
      DataPhaseSteps(c, banks, buses, cycle, channels - 1);
      c.ChannelFits(channels - 1);
      c.Monotone(channels - 1, channels, c.PerChannel());
      DataSlotSteps(r.banks, (channels - 1) * c.PerChannel(), channels * c.PerChannel(), r.buses[channels - 1], c.width,
                    cycle);
      var t := DataPhase(c, banks, buses, cycle, channels);
      forall j | 0 <= j < |banks| ensures Stepped(InData(), banks[j], t.banks[j]) {
        assert Stepped(InData(), banks[j], r.banks[j]) && Stepped(InData(), r.banks[j], t.banks[j]);
      }
    }
  }

  lemma NewSteps(b: Bank, cycle: nat, frfcfs: bool)
    requires BankOk(b)
    ensures Stepped(Any(), b, New(b, cycle, frfcfs))
    ensures (b.current.None? && b.buffer != []) || IsAwake(b, cycle) ==> Phase(New(b, cycle, frfcfs)) < Phase(b)
  {
    SortKeeps(b.buffer, b.rid);
  }

  // ---------- a cycle in which nothing ends ----------

  ghost predicate Idle(c: Config, s: R.System)
    requires R.Shaped(c, s)
  {
    forall j | 0 <= j < |s.banks| :: !IsDone(AfterGrants(c, s.banks, s.buses, s.cycle)[j], s.cycle)
  }

  lemma GrantsStep(c: Config, s: R.System)
    requires R.Sound(c, s) && R.InTime(c, s)
    ensures var mid := CommandPhase(c, s.banks, s.cycle, c.numChannel);
            var d := AfterGrants(c, s.banks, s.buses, s.cycle);
            && AllStepped(WantsCommand, s.banks, mid) && AllStepped(InData(), mid, d)
            && AllStepped(Any(), s.banks, d) && AllOk(d)
  {
    var mid := CommandPhase(c, s.banks, s.cycle, c.numChannel);
    CommandPhaseSteps(c, s.banks, s.cycle, c.numChannel);
    CommandPhaseOk(c, s.banks, s.cycle, c.numChannel);
    DataPhaseSteps(c, mid, s.buses, s.cycle, c.numChannel);
    assert Cycle(c, s.banks, s.buses, s.cycle).buses == DataPhase(c, mid, s.buses, s.cycle, c.numChannel).buses;
    DataPhaseOk(c, mid, s.buses, s.cycle, c.numChannel);
    ForAny(WantsCommand, s.banks, mid);
    ForAny(InData(), mid, AfterGrants(c, s.banks, s.buses, s.cycle));
    StepsTrans(s.banks, mid, AfterGrants(c, s.banks, s.buses, s.cycle));
  }

  lemma IdleCycle(c: Config, s: R.System)
    requires R.Sound(c, s) && R.InTime(c, s) && Idle(c, s)
    ensures var d, t := AfterGrants(c, s.banks, s.buses, s.cycle), R.TickStep(c, s);
            && AllStepped(Any(), d, t.banks) && AllStepped(Any(), s.banks, t.banks)
            && forall j | 0 <= j < |d| :: t.banks[j] == New(d[j], s.cycle, c.frfcfs)
  {
    GrantsStep(c, s);
    var d, t := AfterGrants(c, s.banks, s.buses, s.cycle), R.TickStep(c, s);
    forall j | 0 <= j < |d| ensures t.banks[j] == New(d[j], s.cycle, c.frfcfs) && Stepped(Any(), d[j], t.banks[j]) {
      assert Complete(d[j], s.cycle, c.merge) == d[j];
      NewSteps(d[j], s.cycle, c.frfcfs);
    }
    StepsTrans(s.banks, d, t.banks);
  }

  // ---------- when nothing moves at all ----------

  predicate QuietBank(b: Bank, cycle: nat) {
    !WantsCommand(b) && (b.current.None? ==> b.buffer == []) && !IsAwake(b, cycle) && !IsDone(b, cycle)
  }

  /** No bank can do anything in this cycle. */
  ghost predicate Quiet(c: Config, s: R.System)
    requires R.Shaped(c, s)
  {
    && (forall j | 0 <= j < |s.banks| :: QuietBank(s.banks[j], s.cycle))
    && (forall i | 0 <= i < c.numChannel && s.buses[i].ready <= s.cycle :: NoData(c, s, i))
  }

  /** No bank of channel `i` waits for the data bus. */
  ghost predicate NoData(c: Config, s: R.System, i: nat)
    requires R.Shaped(c, s) && i < c.numChannel
  {
    forall j | i * c.PerChannel() <= j < (i + 1) * c.PerChannel() && j < |s.banks| :: !WantsData(s.banks[j], s.cycle)
  }

  lemma {:induction false} PickNone(want: Bank -> bool, banks: seq<Bank>, lo: nat, hi: nat)
    requires hi <= |banks| && forall j | lo <= j < hi :: !want(banks[j])
    ensures PickOldest(want, banks, lo, hi) == None
  {
    if lo < hi {
      PickNone(want, banks, lo, hi - 1);
    }
  }

  lemma {:induction false} QuietCommands(c: Config, s: R.System, channels: nat)
    requires R.Shaped(c, s) && Quiet(c, s) && channels <= c.numChannel
    ensures CommandPhase(c, s.banks, s.cycle, channels) == s.banks
  {
    if channels > 0 {
      QuietCommands(c, s, channels - 1);
      c.ChannelFits(channels - 1);
      forall j | 0 <= j < |s.banks| ensures !WantsCommand(s.banks[j]) {
        assert QuietBank(s.banks[j], s.cycle);
      }
      PickNone(WantsCommand, s.banks, (channels - 1) * c.PerChannel(), channels * c.PerChannel());
    }
  }

  lemma {:induction false} QuietData(c: Config, s: R.System, channels: nat)
    requires R.Shaped(c, s) && Quiet(c, s) && channels <= c.numChannel
    ensures DataPhase(c, s.banks, s.buses, s.cycle, channels) == Channels(s.banks, s.buses)
  {
    if channels > 0 {
      var i := channels - 1;
      QuietData(c, s, i);
      c.ChannelFits(i);
      if s.buses[i].ready <= s.cycle {
        assert NoData(c, s, i);
        PickNone(DataWanted(s.cycle), s.banks, i * c.PerChannel(), channels * c.PerChannel());
      }
    }
  }

  lemma QuietCycle(c: Config, s: R.System)
    requires R.Shaped(c, s) && Quiet(c, s)
    ensures R.TickStep(c, s).banks == s.banks && R.TickStep(c, s).buses == s.buses
  {
    QuietCommands(c, s, c.numChannel);
    QuietData(c, s, c.numChannel);
    forall j | 0 <= j < |s.banks| ensures R.TickStep(c, s).banks[j] == s.banks[j] {
      assert QuietBank(s.banks[j], s.cycle);
    }
  }

  // ---------- otherwise some bank takes a step ----------

  /** All banks belong to a channel. */
  ghost predicate Even(c: Config)
    requires c.Valid()
  {
    c.numBank == c.numChannel * c.PerChannel()
  }

  lemma ChannelOf(c: Config, j: nat) returns (i: nat)
    requires c.Valid() && Even(c) && j < c.numBank
    ensures i < c.numChannel && i * c.PerChannel() <= j < (i + 1) * c.PerChannel()
  {
    var n := c.PerChannel();
    i := FindChannel(j, n, c.numChannel);
  }

  lemma {:induction false} FindChannel(j: nat, n: nat, channels: nat) returns (i: nat)
    requires j < channels * n
    ensures i < channels && i * n <= j < (i + 1) * n
  {
    Numbers.Distribute(channels, 1, n);
    if (channels - 1) * n <= j {
      i := channels - 1;
    } else {
      i := FindChannel(j, n, channels - 1);
    }
  }

  lemma PickedMoves(c: Config, s: R.System, i: nat, k: nat)
    requires R.Sound(c, s) && ClockOk(c, s.cycle) && i < c.numChannel && k < |s.banks|
    requires i * c.PerChannel() <= k < (i + 1) * c.PerChannel() <= |s.banks|
    requires PickOldest(WantsCommand, s.banks, i * c.PerChannel(), (i + 1) * c.PerChannel()) == Some(k)
    ensures CommandPhase(c, s.banks, s.cycle, c.numChannel)[k] != s.banks[k]
  {
    CommandPhaseIs(c, s.banks, s.cycle, c.numChannel, i, k);
    CommandSteps(s.banks[k], s.cycle, c.lat);
  }

  lemma SlotMoves(c: Config, s: R.System, i: nat, j: nat) returns (k: nat)
    requires R.Sound(c, s) && ClockOk(c, s.cycle) && i < c.numChannel
    requires i * c.PerChannel() <= j < (i + 1) * c.PerChannel() <= |s.banks| && WantsCommand(s.banks[j])
    ensures k < |s.banks| && CommandPhase(c, s.banks, s.cycle, c.numChannel)[k] != s.banks[k]
  {
    PickOldestIsFirst(WantsCommand, s.banks, i * c.PerChannel(), (i + 1) * c.PerChannel(), j);
    k := PickOldest(WantsCommand, s.banks, i * c.PerChannel(), (i + 1) * c.PerChannel()).value;
    PickedMoves(c, s, i, k);
  }

  lemma CommandMoves(c: Config, s: R.System, j: nat) returns (k: nat)
    requires R.Sound(c, s) && ClockOk(c, s.cycle) && Even(c) && j < |s.banks| && WantsCommand(s.banks[j])
    ensures k < |s.banks| && CommandPhase(c, s.banks, s.cycle, c.numChannel)[k] != s.banks[k]
  {
    var i := ChannelOf(c, j);
    c.ChannelFits(i);
    k := SlotMoves(c, s, i, j);
  }

  lemma DataSlotMoves(banks: seq<Bank>, lo: nat, hi: nat, bus: Bus, width: nat, cycle: nat, j: nat) returns (k: nat)
    requires hi <= |banks| && BusOk(bus, width) && lo <= j < hi && WantsData(banks[j], cycle) && bus.ready <= cycle
    requires banks[j].timestamp < NEVER
    ensures lo <= k < hi && DataSlot(banks, lo, hi, bus, width, cycle).banks[k] != banks[k]
  {
    PickOldestIsFirst(DataWanted(cycle), banks, lo, hi, j);
    k := PickOldest(DataWanted(cycle), banks, lo, hi).value;
    var size := banks[k].current.value.size;
    AcquireAdvances(bus, width, size, cycle);
    var next := Acquire(bus, width, size, cycle);
    var more := banks[k := GiveData(banks[k], next.ready)];
    WaitingDrops(banks, cycle, |banks|, k, GiveData(banks[k], next.ready));
    DataSlotSteps(more, lo, hi, next, width, cycle);
    assert Stepped(InData(), more[k], DataSlot(more, lo, hi, next, width, cycle).banks[k]);
  }

  lemma {:induction false} DataMoves(c: Config, banks: seq<Bank>, buses: seq<Bus>, cycle: nat, channels: nat, i: nat,
                                     j: nat)
    returns (k: nat)
    requires c.Valid() && |banks| == c.numBank && i < channels <= c.numChannel == |buses| && BusesOk(buses, c.width)
    requires i * c.PerChannel() <= j < (i + 1) * c.PerChannel() && j < |banks|
    requires WantsData(banks[j], cycle) && buses[i].ready <= cycle && banks[j].timestamp < NEVER
    ensures k < |banks| && DataPhase(c, banks, buses, cycle, channels).banks[k] != banks[k]
  {
    var r := DataPhase(c, banks, buses, cycle, channels - 1);
    c.ChannelFits(channels - 1);
    DataPhaseSteps(c, banks, buses, cycle, channels - 1);
    var lo, hi := (channels - 1) * c.PerChannel(), channels * c.PerChannel();
    if i == channels - 1 {
      OwnBus(c, banks, buses, cycle, i, i);
      k := DataSlotMoves(r.banks, lo, hi, r.buses[i], c.width, cycle, j);
    } else {
      k := DataMoves(c, banks, buses, cycle, channels - 1, i, j);
      assert Stepped(InData(), banks[k], r.banks[k]);
      DataSlotSteps(r.banks, lo, hi, r.buses[channels - 1], c.width, cycle);
      assert Stepped(InData(), r.banks[k], DataSlot(r.banks, lo, hi, r.buses[channels - 1], c.width, cycle).banks[k]);
    }
  }

  /** A bank that has been granted something is different at the end of the cycle. */
  lemma GrantShows(c: Config, s: R.System, k: nat)
    requires R.Sound(c, s) && R.InTime(c, s) && Idle(c, s) && k < |s.banks|
    requires var mid := CommandPhase(c, s.banks, s.cycle, c.numChannel);
             mid[k] != s.banks[k] || AfterGrants(c, s.banks, s.buses, s.cycle)[k] != mid[k]
    ensures R.TickStep(c, s).banks != s.banks
  {
    GrantsStep(c, s);
    IdleCycle(c, s);
    var mid, d := CommandPhase(c, s.banks, s.cycle, c.numChannel), AfterGrants(c, s.banks, s.buses, s.cycle);
    ForAny(WantsCommand, s.banks, mid);
    ForAny(InData(), mid, d);
    StepsShow(s.banks, mid, d, k);
    assert Stepped(Any(), d[k], R.TickStep(c, s).banks[k]);
  }

  ghost predicate StampsOk(banks: seq<Bank>, cycle: nat) {
    forall j | 0 <= j < |banks| :: banks[j].timestamp <= cycle
  }

  /** A bank that is not quiet takes a step, or gets in the way of one that does. */
  lemma BankMoves(c: Config, s: R.System, j: nat)
    requires R.Sound(c, s) && R.InTime(c, s) && Idle(c, s) && Even(c)
    requires j < |s.banks| && !QuietBank(s.banks[j], s.cycle)
    ensures R.TickStep(c, s).banks != s.banks
  {
    GrantsStep(c, s);
    IdleCycle(c, s);
    var b := s.banks[j];
    var mid, d := CommandPhase(c, s.banks, s.cycle, c.numChannel), AfterGrants(c, s.banks, s.buses, s.cycle);
    if WantsCommand(b) {
      var k := CommandMoves(c, s, j);
      GrantShows(c, s, k);
    } else {
      assert Stepped(WantsCommand, b, mid[j]) && Stepped(InData(), mid[j], d[j]);
      assert BankOk(b);
      assert d[j] == b;
      NewSteps(b, s.cycle, c.frfcfs);
    }
  }

  /** A bank that waits for data is not touched by the command slots. */
  lemma DataStays(c: Config, s: R.System, j: nat)
    requires R.Sound(c, s) && ClockOk(c, s.cycle) && j < |s.banks| && WantsData(s.banks[j], s.cycle)
    ensures CommandPhase(c, s.banks, s.cycle, c.numChannel)[j] == s.banks[j]
  {
    CommandPhaseSteps(c, s.banks, s.cycle, c.numChannel);
    assert Stepped(WantsCommand, s.banks[j], CommandPhase(c, s.banks, s.cycle, c.numChannel)[j]);
  }

  lemma GrantedData(c: Config, s: R.System, i: nat, j: nat) returns (k: nat)
    requires R.Sound(c, s) && ClockOk(c, s.cycle) && i < c.numChannel && s.buses[i].ready <= s.cycle
    requires i * c.PerChannel() <= j < (i + 1) * c.PerChannel() && j < |s.banks|
    requires WantsData(s.banks[j], s.cycle) && s.banks[j].timestamp < NEVER
    ensures k < |s.banks|
    ensures AfterGrants(c, s.banks, s.buses, s.cycle)[k] != CommandPhase(c, s.banks, s.cycle, c.numChannel)[k]
  {
    DataStays(c, s, j);
    k := DataMoves(c, CommandPhase(c, s.banks, s.cycle, c.numChannel), s.buses, s.cycle, c.numChannel, i, j);
  }

  lemma SomeData(c: Config, s: R.System, i: nat) returns (j: nat)
    requires R.Shaped(c, s) && i < c.numChannel && !NoData(c, s, i)
    ensures i * c.PerChannel() <= j < (i + 1) * c.PerChannel() && j < |s.banks| && WantsData(s.banks[j], s.cycle)
  {
    j :| i * c.PerChannel() <= j < (i + 1) * c.PerChannel() && j < |s.banks| && WantsData(s.banks[j], s.cycle);
  }

  lemma ChannelMoves(c: Config, s: R.System, i: nat)
    requires R.Sound(c, s) && R.InTime(c, s) && Idle(c, s) && StampsOk(s.banks, s.cycle)
    requires i < c.numChannel && s.buses[i].ready <= s.cycle && !NoData(c, s, i)
    ensures R.TickStep(c, s).banks != s.banks
  {
    var j := SomeData(c, s, i);
    var k := GrantedData(c, s, i, j);
    GrantShows(c, s, k);
  }

  /** A cycle in which nothing ends lowers the work that is left, unless no bank can do anything. */
  lemma WorkOrQuiet(c: Config, s: R.System)
    requires R.Sound(c, s) && R.InTime(c, s) && Idle(c, s) && Even(c) && StampsOk(s.banks, s.cycle)
    ensures Quiet(c, s) || Work(R.TickStep(c, s).banks) < Work(s.banks)
    ensures Work(R.TickStep(c, s).banks) <= Work(s.banks)
  {
    IdleCycle(c, s);
    WorkFalls(s.banks, R.TickStep(c, s).banks);
    if j: nat :| j < |s.banks| && !QuietBank(s.banks[j], s.cycle) {
      BankMoves(c, s, j);
    } else if i: nat :| i < c.numChannel && s.buses[i].ready <= s.cycle && !NoData(c, s, i) {
      ChannelMoves(c, s, i);
    }
  }

  // ---------- deadlines ----------

  /** When the bank's current step is over. */
  function Deadline(b: Bank): nat {
    match b.current
    case None => 0
    case Some(e) =>
      match e.state
      case CmdWait => b.bankReady
      case Data => b.dataAvail
      case DataWait => b.dataReady
      case _ => 0
  }

  predicate SizesOk(b: Bank, size: nat) {
    && (forall e | e in b.buffer :: e.size <= size)
    && (b.current.Some? ==> b.current.value.size <= size)
  }

  /** `span` covers every latency, and the transfer of `size` bytes. */
  predicate Spans(c: Config, size: nat, span: nat)
    requires c.Valid()
  {
    c.lat.precharge <= span && c.lat.activate <= span && c.lat.column <= span && Hi(size, c.width) < span
  }

  predicate BankTimely(b: Bank, cycle: nat, size: nat, span: nat) {
    Deadline(b) <= cycle + span && b.timestamp <= cycle && SizesOk(b, size)
  }

  predicate BanksTimely(banks: seq<Bank>, cycle: nat, size: nat, span: nat) {
    forall j | 0 <= j < |banks| :: BankTimely(banks[j], cycle, size, span)
  }

  predicate BusTimely(b: Bus, cycle: nat, span: nat) {
    b.ready <= cycle + span
  }

  predicate BusesTimely(buses: seq<Bus>, cycle: nat, span: nat) {
    forall i | 0 <= i < |buses| :: BusTimely(buses[i], cycle, span)
  }

  ghost predicate Timely(s: R.System, size: nat, span: nat) {
    BanksTimely(s.banks, s.cycle, size, span) && BusesTimely(s.buses, s.cycle, span)
  }

  lemma AcquireTimely(b: Bus, width: nat, bytes: nat, cycle: nat, size: nat, span: nat)
    requires BusOk(b, width) && bytes <= size && Hi(size, width) < span
    ensures Acquire(b, width, bytes, cycle).ready <= cycle + span
  {
    if b.avail <= bytes {
      QuotientOrder(bytes - b.avail, size, width);
    }
  }

  lemma QuotientOrder(a: nat, b: nat, d: nat)
    requires a <= b && 0 < d
    ensures Hi(a, d) <= Hi(b, d)
  {
    Divided(a, d);
    Divided(b, d);
    var p: int, q: int := Hi(a, d), Hi(b, d);
    ProductSign(p - q - 1, d);
    Numbers.Distribute(p - q - 1, q + 1, d);
    Numbers.Distribute(q, 1, d);
  }

  lemma {:induction false} CommandPhaseTimely(c: Config, banks: seq<Bank>, cycle: nat, channels: nat, size: nat,
                                              span: nat)
    requires c.Valid() && |banks| == c.numBank && channels <= c.numChannel && Spans(c, size, span)
    requires BanksTimely(banks, cycle, size, span)
    ensures BanksTimely(CommandPhase(c, banks, cycle, channels), cycle, size, span)
  {
    if channels > 0 {
      CommandPhaseTimely(c, banks, cycle, channels - 1, size, span);
      c.ChannelFits(channels - 1);
      var r := CommandPhase(c, banks, cycle, channels - 1);
      var p := PickOldest(WantsCommand, r, (channels - 1) * c.PerChannel(), channels * c.PerChannel());
      if p.Some? {
        assert BankTimely(r[p.value], cycle, size, span);
      }
    }
  }

  lemma {:induction false} DataSlotTimely(banks: seq<Bank>, lo: nat, hi: nat, bus: Bus, width: nat, cycle: nat,
                                          size: nat, span: nat)
    requires hi <= |banks| && BusOk(bus, width) && Hi(size, width) < span
    requires BanksTimely(banks, cycle, size, span) && BusTimely(bus, cycle, span)
    ensures var r := DataSlot(banks, lo, hi, bus, width, cycle);
            BanksTimely(r.banks, cycle, size, span) && BusTimely(r.bus, cycle, span)
    decreases Waiting(banks, cycle, |banks|)
  {
    if bus.ready <= cycle {
      match PickOldest(DataWanted(cycle), banks, lo, hi)
      case None =>
      case Some(k) =>
        var bytes := banks[k].current.value.size;
        assert BankTimely(banks[k], cycle, size, span);
        AcquireAdvances(bus, width, bytes, cycle);
        AcquireTimely(bus, width, bytes, cycle, size, span);
        var next := Acquire(bus, width, bytes, cycle);
        WaitingDrops(banks, cycle, |banks|, k, GiveData(banks[k], next.ready));
        DataSlotTimely(banks[k := GiveData(banks[k], next.ready)], lo, hi, next, width, cycle, size, span);
    }
  }

  lemma {:induction false} DataPhaseTimely(c: Config, banks: seq<Bank>, buses: seq<Bus>, cycle: nat, channels: nat,
                                           size: nat, span: nat)
    requires c.Valid() && |banks| == c.numBank && channels <= c.numChannel == |buses| && BusesOk(buses, c.width)
    requires Spans(c, size, span) && BanksTimely(banks, cycle, size, span) && BusesTimely(buses, cycle, span)
    ensures var r := DataPhase(c, banks, buses, cycle, channels);
            BanksTimely(r.banks, cycle, size, span) && BusesTimely(r.buses, cycle, span)
  {
    if channels > 0 {
      DataPhaseTimely(c, banks, buses, cycle, channels - 1, size, span);
      c.ChannelFits(channels - 1);
      var r := DataPhase(c, banks, buses, cycle, channels - 1);
      assert BusTimely(r.buses[channels - 1], cycle, span);
      DataSlotTimely(r.banks, (channels - 1) * c.PerChannel(), channels * c.PerChannel(), r.buses[channels - 1],
                     c.width, cycle, size, span);
    }
  }

  lemma CompleteTimely(b: Bank, cycle: nat, merge: bool, size: nat, span: nat)
    requires BankTimely(b, cycle, size, span)
    ensures BankTimely(Complete(b, cycle, merge), cycle, size, span)
  {
    if b.current.Some? {
      FilterIn(b.buffer, b.current.value.addr);
    }
  }

  lemma OrderIn(frfcfs: bool, es: seq<Entry>, rid: int, size: nat)
    requires forall e | e in es :: e.size <= size
    ensures forall e | e in Order(frfcfs, es, rid) :: e.size <= size
  {
    SortKeeps(es, rid);
    var r := Order(frfcfs, es, rid);
    forall e | e in r ensures e in es {
      assert e in multiset(r);
    }
  }

  lemma NewTimely(b: Bank, cycle: nat, frfcfs: bool, size: nat, span: nat)
    requires BankTimely(b, cycle, size, span)
    ensures BankTimely(New(b, cycle, frfcfs), cycle + 1, size, span)
  {
    SortKeeps(b.buffer, b.rid);
    OrderIn(frfcfs, b.buffer, b.rid, size);
  }

  lemma TickTimely(c: Config, s: R.System, size: nat, span: nat)
    requires R.Shaped(c, s) && Spans(c, size, span) && Timely(s, size, span)
    ensures Timely(R.TickStep(c, s), size, span)
  {
    var mid := CommandPhase(c, s.banks, s.cycle, c.numChannel);
    CommandPhaseTimely(c, s.banks, s.cycle, c.numChannel, size, span);
    DataPhaseTimely(c, mid, s.buses, s.cycle, c.numChannel, size, span);
    var d, t := DataPhase(c, mid, s.buses, s.cycle, c.numChannel), R.TickStep(c, s);
    forall j | 0 <= j < |t.banks| ensures BankTimely(t.banks[j], t.cycle, size, span) {
      assert BankTimely(d.banks[j], s.cycle, size, span);
      CompleteTimely(d.banks[j], s.cycle, c.merge, size, span);
      NewTimely(Complete(d.banks[j], s.cycle, c.merge), s.cycle, c.frfcfs, size, span);
    }
    forall i | 0 <= i < |t.buses| ensures BusTimely(t.buses[i], t.cycle, span) {
      assert BusTimely(d.buses[i], s.cycle, span);
    }
  }

  lemma ArriveTimely(s: R.System, ev: R.Event, size: nat, span: nat)
    requires Timely(s, size, span) && ev.Arrive? && ev.bid < |s.banks| && ev.size <= size
    ensures Timely(R.ArriveStep(s, ev), size, span)
  {
    var e := Entry(0, Init, ev.addr, ev.rid, ev.size, s.cycle, ev.kind, ev.req);
    var b := s.banks[ev.bid];
    if Accept(b, e).Some? {
      assert BankTimely(b, s.cycle, size, span);
      FilterIn(b.buffer, 0);
    }
  }

  // ---------- how long until the next step ----------

  function LastDeadline(banks: seq<Bank>): nat {
    if banks == [] then 0
    else
      var n := |banks| - 1;
      var m := LastDeadline(banks[..n]);
      if m < Deadline(banks[n]) then Deadline(banks[n]) else m
  }

  function LastReady(buses: seq<Bus>): nat {
    if buses == [] then 0
    else
      var n := |buses| - 1;
      var m := LastReady(buses[..n]);
      if m < buses[n].ready then buses[n].ready else m
  }

  lemma {:induction false} DeadlineBounds(banks: seq<Bank>, bound: nat)
    ensures forall j | 0 <= j < |banks| :: Deadline(banks[j]) <= LastDeadline(banks)
    ensures (forall j | 0 <= j < |banks| :: Deadline(banks[j]) <= bound) ==> LastDeadline(banks) <= bound
  {
    if banks != [] {
      DeadlineBounds(banks[..|banks| - 1], bound);
    }
  }

  lemma {:induction false} ReadyBounds(buses: seq<Bus>, bound: nat)
    ensures forall i | 0 <= i < |buses| :: buses[i].ready <= LastReady(buses)
    ensures (forall i | 0 <= i < |buses| :: buses[i].ready <= bound) ==> LastReady(buses) <= bound
  {
    if buses != [] {
      ReadyBounds(buses[..|buses| - 1], bound);
    }
  }

  function Later(m: nat, cycle: nat): nat {
    if cycle < m then m - cycle else 0
  }

  function Max(a: nat, b: nat): nat {
    if a < b then b else a
  }

  /** The cycles until the last of the current steps is over. */
  function Slack(s: R.System): nat {
    Later(Max(LastDeadline(s.banks), LastReady(s.buses)), s.cycle)
  }

  lemma SlackBound(s: R.System, size: nat, span: nat)
    requires Timely(s, size, span)
    ensures Slack(s) <= span
  {
    DeadlineBounds(s.banks, s.cycle + span);
    ReadyBounds(s.buses, s.cycle + span);
    forall j | 0 <= j < |s.banks| ensures Deadline(s.banks[j]) <= s.cycle + span {
      assert BankTimely(s.banks[j], s.cycle, size, span);
    }
    forall i | 0 <= i < |s.buses| ensures s.buses[i].ready <= s.cycle + span {
      assert BusTimely(s.buses[i], s.cycle, span);
    }
  }

  predicate Busy(b: Bank) {
    b.buffer != [] || b.current.Some?
  }

  ghost predicate AnyBusy(banks: seq<Bank>) {
    exists j :: 0 <= j < |banks| && Busy(banks[j])
  }

  /** A busy bank that is quiet waits for something that is still to come. */
  lemma QuietBankWaits(c: Config, s: R.System, j: nat)
    requires R.Sound(c, s) && Even(c) && Quiet(c, s) && j < |s.banks| && Busy(s.banks[j])
    ensures StillToCome(s, j)
  {
    var b := s.banks[j];
    assert QuietBank(b, s.cycle) && BankOk(b);
    if b.current.value.state == Data && b.dataAvail <= s.cycle {
      var i := ChannelOf(c, j);
      assert s.buses[i].ready <= s.cycle ==> NoData(c, s, i);
    }
  }

  /** Something that bank `j` or a bus waits for is still to come. */
  ghost predicate StillToCome(s: R.System, j: nat) {
    || (j < |s.banks| && s.cycle < Deadline(s.banks[j]))
    || (exists i :: 0 <= i < |s.buses| && s.cycle < s.buses[i].ready)
  }

  lemma SlackShows(s: R.System, j: nat)
    requires StillToCome(s, j)
    ensures 0 < Slack(s)
  {
    DeadlineBounds(s.banks, 0);
    ReadyBounds(s.buses, 0);
  }

  lemma QuietWaits(c: Config, s: R.System)
    requires R.Sound(c, s) && Even(c) && Quiet(c, s) && AnyBusy(s.banks)
    ensures 0 < Slack(s)
  {
    var j: nat :| j < |s.banks| && Busy(s.banks[j]);
    QuietBankWaits(c, s, j);
    SlackShows(s, j);
  }

  // ---------- the bound ----------

  /** What is left to happen before something ends, in cycles. */
  function Potential(s: R.System, span: nat): nat {
    Scaled(Work(s.banks), span + 1, Slack(s))
  }

  /** The most that it can ever be. */
  function Bound(c: Config, span: nat): nat {
    Scaled(8 * c.numBank, span + 1, span)
  }

  lemma PotentialBound(c: Config, s: R.System, size: nat, span: nat)
    requires R.Shaped(c, s) && Timely(s, size, span)
    ensures Potential(s, span) <= Bound(c, span)
  {
    WorkBound(s.banks);
    SlackBound(s, size, span);
    ScaledOrder(Work(s.banks), 8 * c.numBank, span + 1, Slack(s), span);
  }

  /** `n` times `unit`, and `rest`. */
  function Scaled(n: nat, unit: nat, rest: nat): nat {
    if n == 0 then rest else Scaled(n - 1, unit, rest) + unit
  }

  lemma {:induction false} ScaledIs(n: nat, unit: nat, rest: nat)
    ensures Scaled(n, unit, rest) == n * unit + rest
  {
    if n > 0 {
      ScaledIs(n - 1, unit, rest);
      Numbers.Distribute(n - 1, 1, unit);
    }
  }

  lemma {:induction false} ScaledOrder(p: nat, q: nat, unit: nat, a: nat, b: nat)
    ensures p <= q && a <= b ==> Scaled(p, unit, a) <= Scaled(q, unit, b)
    ensures p <= q && a < b ==> Scaled(p, unit, a) < Scaled(q, unit, b)
    ensures p < q && a < unit ==> Scaled(p, unit, a) < Scaled(q, unit, b)
    decreases p + q
  {
    if p > 0 && q > 0 {
      ScaledOrder(p - 1, q - 1, unit, a, b);
    } else if q > 0 {
      ScaledOrder(0, q - 1, unit, a, b);
    }
  }

  /** Fewer units, or as many and a smaller rest. */
  predicate Fewer(p: nat, q: nat, unit: nat, a: nat, b: nat) {
    (p <= q && a < b) || (p < q && a < unit)
  }

  lemma ScaledFalls(p: nat, q: nat, unit: nat, a: nat, b: nat)
    requires Fewer(p, q, unit, a, b)
    ensures Scaled(p, unit, a) < Scaled(q, unit, b)
  {
    ScaledOrder(p, q, unit, a, b);
  }

  /** A state that everything is known of. */
  ghost predicate Known(c: Config, s: R.System, size: nat, span: nat) {
    R.Sound(c, s) && Spans(c, size, span) && Timely(s, size, span)
  }

  /** A state that everything is known of, in which something is held. */
  ghost predicate Going(c: Config, s: R.System, size: nat, span: nat) {
    Known(c, s, size, span) && R.InTime(c, s) && Even(c) && AnyBusy(s.banks)
  }

  /** From `s` to `t` a bank takes a step or time passes. */
  predicate Nearer(s: R.System, t: R.System, span: nat) {
    Fewer(Work(t.banks), Work(s.banks), span + 1, Slack(t), Slack(s))
  }

  lemma NearerFalls(s: R.System, t: R.System, span: nat)
    requires Nearer(s, t, span)
    ensures Potential(t, span) < Potential(s, span)
  {
    ScaledFalls(Work(t.banks), Work(s.banks), span + 1, Slack(t), Slack(s));
  }

  lemma TimePasses(s: R.System, t: R.System)
    requires t.banks == s.banks && t.buses == s.buses && t.cycle == s.cycle + 1 && 0 < Slack(s)
    ensures Slack(t) < Slack(s)
  {
  }

  lemma QuietNearer(c: Config, s: R.System, size: nat, span: nat)
    requires Going(c, s, size, span) && Quiet(c, s)
    ensures Nearer(s, R.TickStep(c, s), span)
  {
    QuietCycle(c, s);
    QuietWaits(c, s);
    TimePasses(s, R.TickStep(c, s));
  }

  lemma TickSlack(c: Config, s: R.System, size: nat, span: nat)
    requires Known(c, s, size, span)
    ensures Slack(R.TickStep(c, s)) <= span
  {
    TickTimely(c, s, size, span);
    SlackBound(R.TickStep(c, s), size, span);
  }

  /** In a cycle in which nothing ends, though something is held, a bank takes a step or time passes. */
  lemma StepOrWait(c: Config, s: R.System, size: nat, span: nat)
    requires Going(c, s, size, span) && Idle(c, s)
    ensures Nearer(s, R.TickStep(c, s), span)
  {
    StampsTimely(s, size, span);
    WorkOrQuiet(c, s);
    if Quiet(c, s) {
      QuietNearer(c, s, size, span);
    } else {
      TickSlack(c, s, size, span);
    }
  }

  /** So it brings the end nearer. */
  lemma PotentialFalls(c: Config, s: R.System, size: nat, span: nat)
    requires Going(c, s, size, span) && Idle(c, s)
    ensures Potential(R.TickStep(c, s), span) < Potential(s, span)
  {
    StepOrWait(c, s, size, span);
    NearerFalls(s, R.TickStep(c, s), span);
  }

  lemma TickPotential(c: Config, s: R.System, size: nat, span: nat)
    requires Known(c, s, size, span)
    ensures Potential(R.TickStep(c, s), span) <= Bound(c, span)
  {
    TickTimely(c, s, size, span);
    PotentialBound(c, R.TickStep(c, s), size, span);
  }

  lemma StampsTimely(s: R.System, size: nat, span: nat)
    requires Timely(s, size, span)
    ensures StampsOk(s.banks, s.cycle)
  {
    forall j | 0 <= j < |s.banks| ensures s.banks[j].timestamp <= s.cycle {
      assert BankTimely(s.banks[j], s.cycle, size, span);
    }
  }

  // ---------- every run ----------

  ghost predicate SizesUpTo(events: seq<R.Event>, n: nat, size: nat)
    requires n <= |events|
  {
    forall i | 0 <= i < n && events[i].Arrive? :: events[i].size <= size
  }

  lemma BeginTimely(c: Config, size: nat, span: nat)
    requires c.Valid()
    ensures Timely(R.Begin(c), size, span)
  {
  }

  lemma {:induction false} RunTimely(c: Config, states: seq<R.System>, events: seq<R.Event>, i: nat, size: nat,
                                     span: nat)
    requires R.IsRun(c, states, events) && i <= |events| && SizesUpTo(events, i, size) && Spans(c, size, span)
    ensures Timely(states[i], size, span)
  {
    if i == 0 {
      BeginTimely(c, size, span);
    } else {
      RunTimely(c, states, events, i - 1, size, span);
      assert R.Follows(c, states[i - 1], events[i - 1], states[i - 1 + 1]);
      if events[i - 1].Arrive? {
        ArriveTimely(states[i - 1], events[i - 1], size, span);
      } else {
        TickTimely(c, states[i - 1], size, span);
      }
    }
  }

  /** What the starvation check keeps: the counter as the last closed cycle left it, and whether the last cycle's
      schedule completed anything. */
  datatype Watch = Watch(before: nat, completed: bool)

  /** The requests that the banks hold. */
  function Requests(s: R.System): nat {
    |R.HeldBy(s.banks)|
  }

  /** The counter when a cycle is closed in state `s`, after its arrivals. */
  function Starved(w: Watch, s: R.System): nat {
    if 0 < Requests(s) && !w.completed then w.before + 1 else 0
  }

  function WatchNext(c: Config, s: R.System, ev: R.Event, w: Watch): Watch
    requires R.Shaped(c, s)
  {
    if ev.Arrive? then w else Watch(Starved(w, s), R.EndedBy(c, s) != [])
  }

  ghost predicate WatchFollows(c: Config, s: R.System, ev: R.Event, w: Watch, next: Watch) {
    R.Shaped(c, s) && next == WatchNext(c, s, ev, w)
  }

  /** What the check keeps in each state of a run; no cycle has run in the first. */
  ghost predicate AreWatches(c: Config, states: seq<R.System>, events: seq<R.Event>, watches: seq<Watch>) {
    && |watches| == |states| == |events| + 1 && watches[0] == Watch(0, true)
    && forall i | 0 <= i < |events| :: WatchFollows(c, states[i], events[i], watches[i], watches[i + 1])
  }

  lemma ArriveKeepsPotential(s: R.System, ev: R.Event, span: nat)
    requires ev.Arrive? && ev.bid < |s.banks|
    ensures Potential(R.ArriveStep(s, ev), span) == Potential(s, span)
  {
    var e := Entry(0, Init, ev.addr, ev.rid, ev.size, s.cycle, ev.kind, ev.req);
    var b := s.banks[ev.bid];
    if Accept(b, e).Some? {
      SameWork(s.banks, R.ArriveStep(s, ev).banks);
    }
  }

  lemma {:induction false} SameWork(p: seq<Bank>, q: seq<Bank>)
    requires |p| == |q| && forall j | 0 <= j < |p| :: Phase(p[j]) == Phase(q[j]) && Deadline(p[j]) == Deadline(q[j])
    ensures Work(p) == Work(q) && LastDeadline(p) == LastDeadline(q)
  {
    if p != [] {
      SameWork(p[..|p| - 1], q[..|q| - 1]);
    }
  }

  lemma {:induction false} EndingNone(banks: seq<Bank>, cycle: nat, merge: bool)
    ensures R.EndingIn(banks, cycle, merge) == [] <==> forall j | 0 <= j < |banks| :: !IsDone(banks[j], cycle)
  {
    if banks != [] {
      EndingNone(banks[..|banks| - 1], cycle, merge);
      assert IsDone(banks[|banks| - 1], cycle) ==> |R.Current(banks[|banks| - 1])| == 1;
    }
  }

  lemma NotBusyIsEmpty(banks: seq<Bank>)
    requires !AnyBusy(banks)
    ensures R.HeldBy(banks) == multiset{}
  {
    forall j | 0 <= j < |banks| ensures banks[j].buffer == [] && banks[j].current == None {
      assert !Busy(banks[j]);
    }
    R.NothingHeld(banks);
  }

  /** Unless the counter is about to be cleared, it and what is left to happen stay within `bound`. */
  predicate Watched(s: R.System, w: Watch, bound: nat, span: nat) {
    !w.completed ==> w.before + Potential(s, span) <= bound
  }

  lemma TickWatched(c: Config, s: R.System, w: Watch, size: nat, span: nat)
    requires Known(c, s, size, span) && R.InTime(c, s) && Even(c) && Watched(s, w, Bound(c, span), span)
    ensures Watched(R.TickStep(c, s), WatchNext(c, s, R.Tick, w), Bound(c, span), span)
  {
    TickPotential(c, s, size, span);
    EndingNone(AfterGrants(c, s.banks, s.buses, s.cycle), s.cycle, c.merge);
    if 0 < Starved(w, s) && Idle(c, s) {
      if !AnyBusy(s.banks) {
        NotBusyIsEmpty(s.banks);
      }
      PotentialFalls(c, s, size, span);
    }
  }

  lemma NextWatched(c: Config, s: R.System, ev: R.Event, t: R.System, w: Watch, size: nat, span: nat)
    requires Known(c, s, size, span) && R.Follows(c, s, ev, t) && Even(c) && Watched(s, w, Bound(c, span), span)
    ensures Watched(t, WatchNext(c, s, ev, w), Bound(c, span), span)
  {
    if ev.Arrive? {
      ArriveKeepsPotential(s, ev, span);
    } else {
      TickWatched(c, s, w, size, span);
    }
  }

  lemma RunIsKnown(c: Config, states: seq<R.System>, events: seq<R.Event>, n: nat, size: nat, span: nat)
    requires R.IsRun(c, states, events) && n <= |events| && SizesUpTo(events, n, size) && Spans(c, size, span)
    ensures Known(c, states[n], size, span)
  {
    RunTimely(c, states, events, n, size, span);
    R.EveryRunIsSound(c, states, events, n);
  }

  lemma {:induction false} RunIsWatched(c: Config, states: seq<R.System>, events: seq<R.Event>, watches: seq<Watch>,
                                        n: nat, size: nat, span: nat)
    requires R.IsRun(c, states, events) && AreWatches(c, states, events, watches) && n <= |events| && Even(c)
    requires SizesUpTo(events, n, size) && Spans(c, size, span)
    ensures Watched(states[n], watches[n], Bound(c, span), span)
  {
    if n > 0 {
      RunIsWatched(c, states, events, watches, n - 1, size, span);
      RunIsKnown(c, states, events, n - 1, size, span);
      assert R.Follows(c, states[n - 1], events[n - 1], states[n - 1 + 1]);
      assert WatchFollows(c, states[n - 1], events[n - 1], watches[n - 1], watches[n - 1 + 1]);
      NextWatched(c, states[n - 1], events[n - 1], states[n], watches[n - 1], size, span);
    }
  }

  lemma BoundIs(c: Config, span: nat)
    ensures Bound(c, span) == 8 * c.numBank * (span + 1) + span
  {
    ScaledIs(8 * c.numBank, span + 1, span);
  }

  lemma StarvedBound(s: R.System, w: Watch, bound: nat, span: nat)
    requires Watched(s, w, bound, span)
    ensures Starved(w, s) <= bound + 1
  {
  }

  /** In every run with requests up to `size` bytes, at whatever state a cycle is closed: the counter of the starvation
      check stays within a bound made of the latencies, the number of banks and the size only. */
  lemma NeverStarves(c: Config, states: seq<R.System>, events: seq<R.Event>, watches: seq<Watch>, n: nat, size: nat,
                     span: nat)
    requires R.IsRun(c, states, events) && AreWatches(c, states, events, watches) && n <= |events| && Even(c)
    requires SizesUpTo(events, n, size) && Spans(c, size, span)
    ensures Starved(watches[n], states[n]) <= 8 * c.numBank * (span + 1) + span + 1
  {
    RunIsWatched(c, states, events, watches, n, size, span);
    StarvedBound(states[n], watches[n], Bound(c, span), span);
    BoundIs(c, span);
  }

  /** With the parameters of MacSim's own parameter file the check is silent for requests up to 192 bytes. */
  lemma ShippedIsSilent(c: Config, states: seq<R.System>, events: seq<R.Event>, watches: seq<Watch>, n: nat)
    requires R.IsRun(c, states, events) && AreWatches(c, states, events, watches) && n <= |events|
    requires c.numBank == 8 && c.numChannel == 2 && c.width == 8 && c.lat == Latency(10, 25, 11)
    requires SizesUpTo(events, n, 192)
    ensures Starved(watches[n], states[n]) < 5000
  {
    NeverStarves(c, states, events, watches, n, 192, 25);
  }

  // ---------- everything ends ----------

  /** The cycles left before everything has ended, where the next end is never further away than `bound`. */
  function Remaining(s: R.System, bound: nat, span: nat): nat {
    Scaled(Requests(s), bound + 1, Potential(s, span))
  }

  lemma {:induction false} IdsSize(es: seq<Entry>)
    ensures |R.Ids(es)| == |es|
  {
    if es != [] {
      IdsSize(es[..|es| - 1]);
    }
  }

  lemma TickRequests(c: Config, s: R.System)
    requires R.Shaped(c, s)
    ensures Requests(R.TickStep(c, s)) <= Requests(s)
    ensures !Idle(c, s) ==> Requests(R.TickStep(c, s)) < Requests(s)
  {
    R.CycleHolds(c, s.banks, s.buses, s.cycle);
    EndingNone(AfterGrants(c, s.banks, s.buses, s.cycle), s.cycle, c.merge);
    IdsSize(R.EndedBy(c, s));
  }

  /** From `s` to `t` something ends or its end comes nearer. */
  predicate NearerEnd(s: R.System, t: R.System, bound: nat, span: nat) {
    Fewer(Requests(t), Requests(s), bound + 1, Potential(t, span), Potential(s, span))
  }

  lemma NearerEndFalls(s: R.System, t: R.System, bound: nat, span: nat)
    requires NearerEnd(s, t, bound, span)
    ensures Remaining(t, bound, span) < Remaining(s, bound, span)
  {
    ScaledFalls(Requests(t), Requests(s), bound + 1, Potential(t, span), Potential(s, span));
  }

  lemma EndOrStep(c: Config, s: R.System, size: nat, span: nat)
    requires Going(c, s, size, span)
    ensures NearerEnd(s, R.TickStep(c, s), Bound(c, span), span)
  {
    TickRequests(c, s);
    if Idle(c, s) {
      PotentialFalls(c, s, size, span);
    } else {
      TickPotential(c, s, size, span);
    }
  }

  /** Every cycle in which something is held brings the end of everything nearer. */
  lemma RemainingFalls(c: Config, s: R.System, size: nat, span: nat)
    requires Going(c, s, size, span)
    ensures Remaining(R.TickStep(c, s), Bound(c, span), span) < Remaining(s, Bound(c, span), span)
  {
    EndOrStep(c, s, size, span);
    NearerEndFalls(s, R.TickStep(c, s), Bound(c, span), span);
  }

  lemma StillNotBusy(c: Config, s: R.System)
    requires R.Sound(c, s) && R.InTime(c, s) && !AnyBusy(s.banks)
    ensures !AnyBusy(R.TickStep(c, s).banks)
  {
    var d := AfterGrants(c, s.banks, s.buses, s.cycle);
    GrantsStep(c, s);
    forall j | 0 <= j < |s.banks| ensures !Busy(R.TickStep(c, s).banks[j]) {
      assert !Busy(s.banks[j]);
      assert Stepped(Any(), s.banks[j], d[j]);
      assert d[j] == s.banks[j];
    }
  }

  /** From state `a` of a run on, without new requests, what is left falls with every cycle until all is empty. */
  lemma {:induction false} RunDrains(c: Config, states: seq<R.System>, events: seq<R.Event>, a: nat, b: nat, size: nat,
                                     span: nat)
    requires R.IsRun(c, states, events) && a <= b <= |events| && Even(c)
    requires SizesUpTo(events, b, size) && Spans(c, size, span)
    requires forall i | a <= i < b :: events[i].Tick?
    ensures AnyBusy(states[b].banks)
            ==> Remaining(states[b], Bound(c, span), span) + (b - a) <= Remaining(states[a], Bound(c, span), span)
  {
    if a < b {
      RunDrains(c, states, events, a, b - 1, size, span);
      RunIsKnown(c, states, events, b - 1, size, span);
      assert R.Follows(c, states[b - 1], events[b - 1], states[b - 1 + 1]);
      if AnyBusy(states[b - 1].banks) {
        RemainingFalls(c, states[b - 1], size, span);
      } else {
        StillNotBusy(c, states[b - 1]);
      }
    }
  }

  /** The cycles after which everything that is held now has ended, if the next end is never further than `bound`. */
  function DrainTime(s: R.System, bound: nat): nat {
    Scaled(Requests(s), bound + 1, bound)
  }

  lemma RemainingUpTo(s: R.System, bound: nat, span: nat)
    requires Potential(s, span) <= bound
    ensures Remaining(s, bound, span) <= DrainTime(s, bound)
  {
    ScaledOrder(Requests(s), Requests(s), bound + 1, Potential(s, span), bound);
  }

  lemma RemainingBound(c: Config, s: R.System, size: nat, span: nat)
    requires Known(c, s, size, span)
    ensures Remaining(s, Bound(c, span), span) <= DrainTime(s, Bound(c, span))
  {
    PotentialBound(c, s, size, span);
    RemainingUpTo(s, Bound(c, span), span);
  }

  /** In every run: once no requests arrive any more, all banks are empty after as many cycles as the requests held
      times the bound, and the bound once more. */
  lemma EveryRunDrains(c: Config, states: seq<R.System>, events: seq<R.Event>, a: nat, b: nat, size: nat, span: nat)
    requires R.IsRun(c, states, events) && a <= b <= |events| && Even(c)
    requires SizesUpTo(events, b, size) && Spans(c, size, span)
    requires forall i | a <= i < b :: events[i].Tick?
    requires DrainTime(states[a], Bound(c, span)) < b - a
    ensures !AnyBusy(states[b].banks) && R.HeldBy(states[b].banks) == multiset{}
  {
    RunDrains(c, states, events, a, b, size, span);
    RunIsKnown(c, states, events, a, size, span);
    RemainingBound(c, states[a], size, span);
    NotBusyIsEmpty(states[b].banks);
  }

  // ---------- banks of no channel ----------

  /** The request in service, if any, still asks for its first command. */
  predicate OnlyAsks(b: Bank) {
    b.current.Some? ==> b.current.value.state == Cmd
  }

  lemma {:induction false} CommandBeyond(c: Config, banks: seq<Bank>, cycle: nat, channels: nat, j: nat)
    requires c.Valid() && |banks| == c.numBank && channels <= c.numChannel && j < |banks|
    requires c.numChannel * c.PerChannel() <= j
    ensures CommandPhase(c, banks, cycle, channels)[j] == banks[j]
  {
    if channels > 0 {
      CommandBeyond(c, banks, cycle, channels - 1, j);
      c.ChannelFits(channels - 1);
      c.Monotone(channels, c.numChannel, c.PerChannel());
    }
  }

  lemma RestBeyond(b: Bank, cycle: nat, merge: bool, frfcfs: bool)
    requires BankOk(b) && OnlyAsks(b) && cycle < NEVER
    ensures OnlyAsks(New(Complete(b, cycle, merge), cycle, frfcfs))
    ensures Busy(b) ==> Busy(New(Complete(b, cycle, merge), cycle, frfcfs))
  {
    SortKeeps(b.buffer, b.rid);
  }

  lemma TickBeyond(c: Config, s: R.System, j: nat)
    requires R.Sound(c, s) && R.InTime(c, s)
    requires c.numChannel * c.PerChannel() <= j < |s.banks| && OnlyAsks(s.banks[j])
    ensures OnlyAsks(R.TickStep(c, s).banks[j])
    ensures Busy(s.banks[j]) ==> Busy(R.TickStep(c, s).banks[j])
  {
    CommandBeyond(c, s.banks, s.cycle, c.numChannel, j);
    DataPhaseSteps(c, CommandPhase(c, s.banks, s.cycle, c.numChannel), s.buses, s.cycle, c.numChannel);
    RestBeyond(s.banks[j], s.cycle, c.merge, c.frfcfs);
  }

  ghost predicate Beyond(c: Config, s: R.System, j: nat)
    requires R.Shaped(c, s)
  {
    c.numChannel * c.PerChannel() <= j < |s.banks| && OnlyAsks(s.banks[j])
  }

  lemma NextBeyond(c: Config, s: R.System, ev: R.Event, t: R.System, j: nat)
    requires R.Sound(c, s) && R.Sound(c, t) && R.Follows(c, s, ev, t) && Beyond(c, s, j)
    ensures Beyond(c, t, j) && (Busy(s.banks[j]) ==> Busy(t.banks[j]))
  {
    if ev.Tick? {
      TickBeyond(c, s, j);
    }
  }

  lemma RunNextBeyond(c: Config, states: seq<R.System>, events: seq<R.Event>, n: nat, j: nat)
    requires R.IsRun(c, states, events) && 0 < n <= |events| && R.Sound(c, states[n - 1])
    requires Beyond(c, states[n - 1], j)
    ensures R.Sound(c, states[n]) && Beyond(c, states[n], j)
    ensures Busy(states[n - 1].banks[j]) ==> Busy(states[n].banks[j])
  {
    R.EveryRunIsSound(c, states, events, n);
    assert R.Follows(c, states[n - 1], events[n - 1], states[n - 1 + 1]);
    NextBeyond(c, states[n - 1], events[n - 1], states[n], j);
  }

  lemma {:induction false} RunBeyond(c: Config, states: seq<R.System>, events: seq<R.Event>, n: nat, j: nat)
    requires R.IsRun(c, states, events) && n <= |events| && c.numChannel * c.PerChannel() <= j < c.numBank
    ensures R.Sound(c, states[n]) && Beyond(c, states[n], j)
  {
    if n == 0 {
      R.EveryRunIsSound(c, states, events, 0);
    } else {
      RunBeyond(c, states, events, n - 1, j);
      RunNextBeyond(c, states, events, n, j);
    }
  }

  /** Where the banks are no multiple of the channels, `EveryRunDrains` fails: what a bank beyond the channels holds is
      never served in any run. */
  lemma {:induction false} NeverDrainsBeyond(c: Config, states: seq<R.System>, events: seq<R.Event>, a: nat, b: nat,
                                             j: nat)
    requires R.IsRun(c, states, events) && a <= b <= |events|
    requires c.numChannel * c.PerChannel() <= j < |states[a].banks| == c.numBank && Busy(states[a].banks[j])
    ensures j < |states[b].banks| && Busy(states[b].banks[j])
  {
    if a < b {
      NeverDrainsBeyond(c, states, events, a, b - 1, j);
      RunBeyond(c, states, events, b - 1, j);
      RunNextBeyond(c, states, events, b, j);
    }
  }
}
