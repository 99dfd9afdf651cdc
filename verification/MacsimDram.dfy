/** MacSim's DRAM controller, updated in place. */
module MacsimDram {
  import opened Options
  import opened MacsimBanks
  import opened MacsimBus
  import opened MacsimSchedule
  import A = MacsimAddress

  // ---------- totals over all banks ----------

  function LoadSum(banks: seq<Bank>): nat {
    if banks == [] then 0 else LoadSum(banks[..|banks| - 1]) + Load(banks[|banks| - 1])
  }

  lemma {:induction false} LoadSumUpdate(banks: seq<Bank>, i: nat, b: Bank)
    requires i < |banks|
    ensures LoadSum(banks[i := b]) == LoadSum(banks) - Load(banks[i]) + Load(b)
  {
    var last := |banks| - 1;
    if i == last {
      assert banks[i := b][..last] == banks[..last];
    } else {
      assert banks[i := b][..last] == banks[..last][i := b];
      LoadSumUpdate(banks[..last], i, b);
    }
  }

  lemma {:induction false} LoadSumSame(p: seq<Bank>, q: seq<Bank>)
    requires |p| == |q| && forall i | 0 <= i < |p| :: Load(p[i]) == Load(q[i])
    ensures LoadSum(p) == LoadSum(q)
  {
    if p != [] {
      LoadSumSame(p[..|p| - 1], q[..|q| - 1]);
    }
  }

  /** The requests among `es` that get an answer; write-backs end silently. */
  function Replies(es: seq<Entry>): seq<nat> {
    if es == [] then []
    else Replies(es[..|es| - 1]) + if es[|es| - 1].kind == WriteBack then [] else [es[|es| - 1].req]
  }

  /** What bank `b` answers at the end of `cycle`. */
  function Answers(b: Bank, cycle: nat, merge: bool): seq<nat> {
    if IsDone(b, cycle) then Replies(MergedWith(b, merge)) + Replies([b.current.value]) else []
  }

  function AllAnswers(banks: seq<Bank>, cycle: nat, merge: bool, n: nat): seq<nat>
    requires n <= |banks|
  {
    if n == 0 then [] else AllAnswers(banks, cycle, merge, n - 1) + Answers(banks[n - 1], cycle, merge)
  }

  function FullPool(entries: nat): multiset<nat> {
    multiset(seq(entries, i => i))
  }

  /** The first `n` banks have completed. */
  function CompleteFirst(banks: seq<Bank>, cycle: nat, merge: bool, n: nat): seq<Bank>
    requires n <= |banks|
  {
    seq(|banks|, i requires 0 <= i < |banks| => if i < n then Complete(banks[i], cycle, merge) else banks[i])
  }

  lemma CompleteFirstNext(banks: seq<Bank>, cycle: nat, merge: bool, n: nat, out: seq<nat>)
    requires n < |banks|
    ensures CompleteFirst(banks, cycle, merge, n)[n] == banks[n]
    ensures CompleteFirst(banks, cycle, merge, n + 1) ==
            CompleteFirst(banks, cycle, merge, n)[n := Complete(banks[n], cycle, merge)]
    ensures out + AllAnswers(banks, cycle, merge, n + 1) ==
            out + AllAnswers(banks, cycle, merge, n) + Answers(banks[n], cycle, merge)
  {
  }

  lemma CompleteFirstEnds(banks: seq<Bank>, cycle: nat, merge: bool)
    ensures CompleteFirst(banks, cycle, merge, 0) == banks
    ensures CompleteFirst(banks, cycle, merge, |banks|) == CompleteAll(banks, cycle, merge)
    ensures AllAnswers(banks, cycle, merge, 0) == []
  {
  }

  ghost predicate Pooled(banks: seq<Bank>, entries: nat) {
    forall i | 0 <= i < |banks| :: Pool(banks[i]) == FullPool(entries)
  }

  /** The bank holds the same entries in the same places; the one in service may have changed its state. */
  predicate SameEntries(b: Bank, n: Bank) {
    && n.buffer == b.buffer && n.free == b.free && n.current.Some? == b.current.Some?
    && (b.current.Some? ==> n.current.value == b.current.value.(state := n.current.value.state))
  }

  ghost predicate SameContents(p: seq<Bank>, q: seq<Bank>) {
    |p| == |q| && forall i | 0 <= i < |p| :: SameEntries(p[i], q[i])
  }

  lemma SamePools(p: seq<Bank>, q: seq<Bank>, entries: nat)
    requires SameContents(p, q)
    ensures LoadSum(p) == LoadSum(q) && (Pooled(p, entries) ==> Pooled(q, entries))
  {
    LoadSumSame(p, q);
  }

  lemma SameContentsTrans(p: seq<Bank>, q: seq<Bank>, r: seq<Bank>)
    requires SameContents(p, q) && SameContents(q, r)
    ensures SameContents(p, r)
  {
  }

  lemma OneSameContents(p: seq<Bank>, k: nat, b: Bank)
    requires k < |p| && SameEntries(p[k], b)
    ensures SameContents(p, p[k := b])
  {
  }

  lemma CommandSlotContents(banks: seq<Bank>, lo: nat, hi: nat, cycle: nat, lat: Latency)
    requires hi <= |banks|
    ensures SameContents(banks, CommandSlot(banks, lo, hi, cycle, lat))
  {
    var p := PickOldest(WantsCommand, banks, lo, hi);
    if p.Some? {
      OneSameContents(banks, p.value, GiveCommand(banks[p.value], cycle, lat));
    }
  }

  lemma {:induction false} CommandPhaseContents(c: Config, banks: seq<Bank>, cycle: nat, channels: nat)
    requires c.Valid() && |banks| == c.numBank && channels <= c.numChannel
    ensures SameContents(banks, CommandPhase(c, banks, cycle, channels))
  {
    if channels > 0 {
      CommandPhaseContents(c, banks, cycle, channels - 1);
      c.ChannelFits(channels - 1);
      var r := CommandPhase(c, banks, cycle, channels - 1);
      var lo, hi := (channels - 1) * c.PerChannel(), channels * c.PerChannel();
      var t := CommandSlot(r, lo, hi, cycle, c.lat);
      CommandSlotContents(r, lo, hi, cycle, c.lat);
      assert SameContents(r, t);
      SameContentsTrans(banks, r, t);
    }
  }

  lemma {:induction false} DataSlotContents(banks: seq<Bank>, lo: nat, hi: nat, bus: Bus, width: nat, cycle: nat)
    requires hi <= |banks| && BusOk(bus, width)
    ensures SameContents(banks, DataSlot(banks, lo, hi, bus, width, cycle).banks)
    decreases Waiting(banks, cycle, |banks|)
  {
    if bus.ready <= cycle {
      match PickOldest(DataWanted(cycle), banks, lo, hi)
      case None =>
      case Some(k) =>
        AcquireAdvances(bus, width, banks[k].current.value.size, cycle);
        var next := Acquire(bus, width, banks[k].current.value.size, cycle);
        var b := GiveData(banks[k], next.ready);
        OneSameContents(banks, k, b);
        WaitingDrops(banks, cycle, |banks|, k, b);
        DataSlotContents(banks[k := b], lo, hi, next, width, cycle);
        SameContentsTrans(banks, banks[k := b], DataSlot(banks, lo, hi, bus, width, cycle).banks);
    }
  }

  lemma {:induction false} DataPhaseContents(c: Config, banks: seq<Bank>, buses: seq<Bus>, cycle: nat, channels: nat)
    requires c.Valid() && |banks| == c.numBank && channels <= c.numChannel == |buses| && BusesOk(buses, c.width)
    ensures SameContents(banks, DataPhase(c, banks, buses, cycle, channels).banks)
  {
    if channels > 0 {
      DataPhaseContents(c, banks, buses, cycle, channels - 1);
      var r := DataPhase(c, banks, buses, cycle, channels - 1);
      c.ChannelFits(channels - 1);
      var lo, hi := (channels - 1) * c.PerChannel(), channels * c.PerChannel();
      var d := DataSlot(r.banks, lo, hi, r.buses[channels - 1], c.width, cycle);
      DataSlotContents(r.banks, lo, hi, r.buses[channels - 1], c.width, cycle);
      SameContentsTrans(banks, r.banks, d.banks);
    }
  }

  /** Conservation: each bank's entries are its fixed pool, and the request count is what the banks hold. */
  ghost predicate Conserved(c: Config, banks: seq<Bank>, buses: seq<Bus>, totalReq: int) {
    && c.Valid()
    && |banks| == c.numBank && |buses| == c.numChannel
    && BusesOk(buses, c.width)
    && Pooled(banks, c.entries)
    && totalReq == LoadSum(banks)
  }

  lemma CommandPhaseConserves(c: Config, banks: seq<Bank>, buses: seq<Bus>, totalReq: int, cycle: nat)
    requires Conserved(c, banks, buses, totalReq)
    ensures Conserved(c, CommandPhase(c, banks, cycle, c.numChannel), buses, totalReq)
  {
    CommandPhaseContents(c, banks, cycle, c.numChannel);
    SamePools(banks, CommandPhase(c, banks, cycle, c.numChannel), c.entries);
  }

  /** The banks once a request for bank `bid` has been taken or refused. */
  function Admit(banks: seq<Bank>, bid: nat, e: Entry): seq<Bank>
    requires bid < |banks|
  {
    match Accept(banks[bid], e)
    case None => banks
    case Some(b) => banks[bid := b]
  }

  lemma AdmitIs(banks: seq<Bank>, bid: nat, e: Entry)
    requires bid < |banks|
    ensures var room := MakeRoom(banks[bid]);
            && (room.free == [] ==> Accept(banks[bid], e) == None && banks[bid := room] == Admit(banks, bid, e))
            && (room.free != [] ==> Accept(banks[bid], e).Some?
                                    && banks[bid := room][bid := Refill(room, e)] == Admit(banks, bid, e))
  {
    if MakeRoom(banks[bid]).free == [] {
      FullStays(banks[bid]);
    }
  }

  lemma CompletingConserves(c: Config, banks: seq<Bank>, buses: seq<Bus>, totalReq: int, i: nat, cycle: nat)
    requires Conserved(c, banks, buses, totalReq) && i < |banks|
    ensures var b := banks[i];
            Conserved(c, banks[i := Complete(b, cycle, c.merge)], buses,
                      totalReq - if IsDone(b, cycle) then |MergedWith(b, c.merge)| + 1 else 0)
  {
    CompleteConserves(banks[i], cycle, c.merge);
    LoadSumUpdate(banks, i, Complete(banks[i], cycle, c.merge));
  }

  lemma EmptyPool(entries: nat)
    ensures Pool(EmptyBank(entries)) == FullPool(entries)
  {
    var e := EmptyBank(entries);
    assert Slots(e.free) == seq(entries, i => i);
    assert Slots(e.buffer) == [];
  }

  lemma BeginConserved(c: Config, banks: seq<Bank>, buses: seq<Bus>)
    requires c.Valid() && |banks| == c.numBank && |buses| == c.numChannel
    requires forall i | 0 <= i < |banks| :: banks[i] == EmptyBank(c.entries)
    requires forall i | 0 <= i < |buses| :: buses[i] == Bus(0, c.width)
    ensures Conserved(c, banks, buses, 0) && AllOk(banks)
  {
    EmptyBankOk(c.entries);
    EmptyPool(c.entries);
    NothingLoaded(banks);
  }

  class DramController {
    const c: Config
    const mapping: A.Mapping
    const bank: array<Bank>
    const bus: array<Bus>
    var cycle: nat
    var totalReq: int
    var output: seq<nat>

    ghost predicate Valid()
      reads this, bank, bus
    {
      Conserved(c, bank[..], bus[..], totalReq)
    }

    constructor (c: Config, mapping: A.Mapping)
      requires c.Valid()
      ensures Valid() && this.c == c && this.mapping == mapping && fresh(bank) && fresh(bus)
      ensures AllOk(bank[..]) && totalReq == 0 && cycle == 0 && output == []
      ensures forall i | 0 <= i < bus.Length :: bus[i] == Bus(0, c.width)
    {
      this.c, this.mapping := c, mapping;
      bank := new Bank[c.numBank](_ => EmptyBank(c.entries));
      bus := new Bus[c.numChannel](_ => Bus(0, c.width));
      cycle, totalReq, output := 0, 0, [];
      new;
      BeginConserved(c, bank[..], bus[..]);
    }

    /** A request for `addr` arrives: it goes to the bank and row that the address names. */
    method InsertNewReq(addr: nat, size: nat, kind: Kind, req: nat) returns (ok: bool)
      requires Valid() && mapping.Fits(c.numBank)
      modifies this`totalReq, bank
      ensures Valid() && mapping.Locate(addr).bank < |old(bank[..])|
      ensures var p := mapping.Locate(addr);
              var e := Entry(0, Init, addr, p.row, size, cycle, kind, req);
              bank[..] == Admit(old(bank[..]), p.bank, e) && ok == Accept(old(bank[..])[p.bank], e).Some?
    {
      var p := mapping.Locate(addr);
      ok := Insert(p.bank, Entry(0, Init, addr, p.row, size, cycle, kind, req));
    }

    method Insert(bid: nat, e: Entry) returns (ok: bool)
      requires Valid() && bid < bank.Length
      modifies this`totalReq, bank
      ensures Valid() && bank[..] == Admit(old(bank[..]), bid, e) && ok == Accept(old(bank[..])[bid], e).Some?
    {
      AdmitIs(bank[..], bid, e);
      ok := HasRoom(bid);
      if ok {
        InsertReqInDrb(bid, e);
      }
    }

    method HasRoom(bid: nat) returns (ok: bool)
      requires Valid() && bid < bank.Length
      modifies this`totalReq, bank
      ensures Valid() && bank[..] == old(bank[..])[bid := MakeRoom(old(bank[bid]))]
      ensures ok <==> bank[bid].free != []
    {
      if |bank[bid].free| == 0 {
        FlushPrefetch(bid);
      }
      ok := |bank[bid].free| != 0;
    }

    method InsertReqInDrb(bid: nat, e: Entry)
      requires Valid() && bid < bank.Length && bank[bid].free != []
      modifies this`totalReq, bank
      ensures Valid() && bank[..] == old(bank[..])[bid := Refill(old(bank[bid]), e)]
    {
      ghost var before := bank[..];
      RefillConserves(bank[bid], e);
      LoadSumUpdate(before, bid, Refill(bank[bid], e));
      bank[bid] := Refill(bank[bid], e);
      totalReq := totalReq + 1;
      assert bank[..] == before[bid := bank[bid]];
    }

    /** Drop the prefetches of a bank's buffer. */
    method FlushPrefetch(bid: nat)
      requires Valid() && bid < bank.Length
      modifies this`totalReq, bank
      ensures Valid() && bank[..] == old(bank[..])[bid := Flush(old(bank[bid]))]
    {
      ghost var before := bank[..];
      var b := bank[bid];
      FlushConserves(b);
      PrefetchesPartition(b.buffer);
      LoadSumUpdate(before, bid, Flush(b));
      var done: seq<Entry> := [];
      var rest: seq<Entry> := [];
      for i := 0 to |b.buffer|
        invariant done == OnlyPrefetches(b.buffer[..i]) && rest == NoPrefetches(b.buffer[..i])
      {
        assert b.buffer[..i + 1][..i] == b.buffer[..i];
        if b.buffer[i].kind == Prefetch {
          done := done + [b.buffer[i]];
        } else {
          rest := rest + [b.buffer[i]];
        }
      }
      assert b.buffer[..|b.buffer|] == b.buffer;
      totalReq := totalReq - |done|;
      bank[bid] := b.(free := b.free + done, buffer := rest);
      assert bank[..] == before[bid := Flush(b)];
    }

    /** The bank with the oldest stamp among those that want a command, if any. */
    method OldestForCommand(lo: nat, hi: nat) returns (k: Option<nat>)
      requires lo <= hi <= bank.Length
      ensures k == PickOldest(WantsCommand, bank[..], lo, hi)
    {
      var oldest := NEVER;
      k := None;
      for j := lo to hi
        invariant k == PickOldest(WantsCommand, bank[..], lo, j)
        invariant oldest == if k.Some? then bank[k.value].timestamp else NEVER
      {
        if WantsCommand(bank[j]) && bank[j].timestamp < oldest {
          oldest := bank[j].timestamp;
          k := Some(j);
        }
      }
    }

    method OldestForData(lo: nat, hi: nat) returns (k: Option<nat>)
      requires lo <= hi <= bank.Length
      ensures k == PickOldest(DataWanted(cycle), bank[..], lo, hi)
    {
      var oldest := NEVER;
      k := None;
      for j := lo to hi
        invariant k == PickOldest(DataWanted(cycle), bank[..], lo, j)
        invariant oldest == if k.Some? then bank[k.value].timestamp else NEVER
      {
        if WantsData(bank[j], cycle) && bank[j].timestamp < oldest {
          oldest := bank[j].timestamp;
          k := Some(j);
        }
      }
    }

    method ChannelScheduleCmd()
      requires Valid()
      modifies bank
      ensures Valid() && bank[..] == CommandPhase(c, old(bank[..]), cycle, c.numChannel)
    {
      ghost var before := bank[..];
      for i := 0 to c.numChannel
        invariant bank[..] == CommandPhase(c, before, cycle, i)
      {
        c.ChannelFits(i);
        var n := c.PerChannel();
        assert (i + 1) * n == i * n + n;
        var k := OldestForCommand(i * n, (i + 1) * n);
        ghost var mid := bank[..];
        if k.Some? {
          bank[k.value] := GiveCommand(bank[k.value], cycle, c.lat);
          assert bank[..] == mid[k.value := bank[k.value]];
        }
      }
      CommandPhaseConserves(c, before, bus[..], totalReq, cycle);
    }

    method ChannelScheduleData()
      requires Valid()
      modifies bank, bus
      ensures Valid()
      ensures Channels(bank[..], bus[..]) == DataPhase(c, old(bank[..]), old(bus[..]), cycle, c.numChannel)
    {
      ghost var banks, buses := bank[..], bus[..];
      for i := 0 to c.numChannel
        invariant Channels(bank[..], bus[..]) == DataPhase(c, banks, buses, cycle, i)
      {
        c.ChannelFits(i);
        GrantData(i);
      }
      DataPhaseContents(c, banks, buses, cycle, c.numChannel);
      SamePools(banks, bank[..], c.entries);
    }

    /** Grant the data bus of channel `i` as long as it is free and a bank waits for it. */
    method GrantData(i: nat)
      requires c.Valid() && bank.Length == c.numBank && i < c.numChannel == bus.Length
      requires BusesOk(bus[..], c.width) && (i + 1) * c.PerChannel() <= bank.Length
      modifies bank, bus
      ensures var lo, hi := i * c.PerChannel(), (i + 1) * c.PerChannel();
              var d := DataSlot(old(bank[..]), lo, hi, old(bus[..])[i], c.width, cycle);
              bank[..] == d.banks && bus[..] == old(bus[..])[i := d.bus]
    {
      var n := c.PerChannel();
      var lo, hi := i * n, (i + 1) * n;
      assert hi == lo + n;
      ghost var banks, buses := bank[..], bus[..];
      ghost var goal := DataSlot(banks, lo, hi, buses[i], c.width, cycle);
      var more := true;
      while more && bus[i].ready <= cycle
        invariant |bus[..]| == |buses| && bus[..] == buses[i := bus[i]] && BusOk(bus[i], c.width)
        invariant DataSlot(bank[..], lo, hi, bus[i], c.width, cycle).banks == goal.banks
        invariant DataSlot(bank[..], lo, hi, bus[i], c.width, cycle).bus == goal.bus
        invariant !more ==> PickOldest(DataWanted(cycle), bank[..], lo, hi) == None
        decreases Waiting(bank[..], cycle, bank.Length), more
      {
        var k := OldestForData(lo, hi);
        if k.Some? {
          ghost var mid := bank[..];
          AcquireAdvances(bus[i], c.width, bank[k.value].current.value.size, cycle);
          ghost var next := Acquire(bus[i], c.width, bank[k.value].current.value.size, cycle);
          WaitingDrops(mid, cycle, |mid|, k.value, GiveData(mid[k.value], next.ready));
          var ready := AcquireDataBus(i, bank[k.value].current.value.size);
          bank[k.value] := GiveData(bank[k.value], ready);
          assert bank[..] == mid[k.value := GiveData(mid[k.value], ready)];
        } else {
          more := false;
        }
      }
    }

    /** Take the bus of channel `i` for `size` bytes; the result is when the last of them moves. */
    method AcquireDataBus(i: nat, size: nat) returns (latency: nat)
      requires i < bus.Length && BusOk(bus[i], c.width)
      modifies bus
      ensures bus[..] == old(bus[..])[i := Acquire(old(bus[i]), c.width, size, cycle)]
      ensures latency == bus[i].ready
    {
      ghost var before := bus[..];
      var b := bus[i];
      if size < b.avail {
        latency := cycle;
        bus[i] := Bus(latency, b.avail - size);
      } else {
        latency := cycle + (size - b.avail) / c.width + 1;
        bus[i] := Bus(latency, c.width - (size - b.avail) % c.width);
      }
      assert bus[..] == before[i := bus[i]];
    }

    /** Finished requests leave, together with the buffered requests that they answer. */
    method BankScheduleComplete()
      requires Valid()
      modifies this`totalReq, this`output, bank
      ensures Valid() && bank[..] == CompleteAll(old(bank[..]), cycle, c.merge)
      ensures output == old(output) + AllAnswers(old(bank[..]), cycle, c.merge, |old(bank[..])|)
    {
      ghost var before, out := bank[..], output;
      CompleteFirstEnds(before, cycle, c.merge);
      CompleteBanks(before, out);
    }

    method CompleteBanks(ghost before: seq<Bank>, ghost out: seq<nat>)
      requires Completed(before, out, 0)
      modifies this`totalReq, this`output, bank
      ensures Completed(before, out, |before|)
    {
      for i := 0 to bank.Length
        invariant Completed(before, out, i)
      {
        CompleteNext(i, before, out);
      }
    }

    /** The first `n` banks have completed; the loop started with `before` and `out`. */
    ghost predicate Completed(before: seq<Bank>, out: seq<nat>, n: nat)
      reads this, bank, bus
    {
      && Valid() && n <= |before| && bank[..] == CompleteFirst(before, cycle, c.merge, n)
      && output == out + AllAnswers(before, cycle, c.merge, n)
    }

    method CompleteNext(i: nat, ghost before: seq<Bank>, ghost out: seq<nat>)
      requires Completed(before, out, i) && i < bank.Length
      modifies this`totalReq, this`output, bank
      ensures Completed(before, out, i + 1)
    {
      CompleteFirstNext(before, cycle, c.merge, i, out);
      assert bank[i] == bank[..][i];
      CompleteOne(i);
    }

    method CompleteOne(i: nat)
      requires Valid() && i < bank.Length
      modifies this`totalReq, this`output, bank
      ensures Valid() && bank[..] == old(bank[..])[i := Complete(old(bank[i]), cycle, c.merge)]
      ensures output == old(output) + Answers(old(bank[i]), cycle, c.merge)
    {
      ghost var before := bank[..];
      var b := bank[i];
      CompletingConserves(c, before, bus[..], totalReq, i, cycle);
      if b.current.Some? && b.dataReady <= cycle {
        output := output + (Replies(MergedWith(b, c.merge)) + Replies([b.current.value]));
        totalReq := totalReq - |MergedWith(b, c.merge)| - 1;
        bank[i] := Complete(b, cycle, c.merge);
      }
      assert bank[..] == before[i := Complete(b, cycle, c.merge)];
    }

    method BankScheduleNew()
      requires Valid()
      modifies bank
      ensures Valid() && bank[..] == NewAll(old(bank[..]), cycle, c.frfcfs)
    {
      ghost var before := bank[..];
      for i := 0 to bank.Length
        invariant forall j | 0 <= j < bank.Length ::
                  bank[j] == if j < i then New(before[j], cycle, c.frfcfs) else before[j]
      {
        var b := bank[i];
        if |b.buffer| > 0 || b.current.Some? {
          if b.current.None? {
            SortKeeps(b.buffer, b.rid);
            bank[i] := Select(b, cycle, c.frfcfs);
          } else if b.bankReady <= cycle && b.current.value.state == CmdWait {
            bank[i] := Wake(b, cycle);
          }
        }
      }
      assert bank[..] == NewAll(before, cycle, c.frfcfs);
      forall i | 0 <= i < bank.Length
        ensures Pool(bank[..][i]) == FullPool(c.entries) && Load(bank[..][i]) == Load(before[i]) {
        assert Pool(before[i]) == FullPool(c.entries);
        NewConserves(before[i], cycle, c.frfcfs);
      }
      LoadSumSame(bank[..], before);
    }

    /** The scheduling part of a cycle. */
    method Schedule()
      requires Valid()
      modifies this`totalReq, this`output, bank, bus
      ensures Valid()
      ensures Channels(bank[..], bus[..]) == MacsimSchedule.Cycle(c, old(bank[..]), old(bus[..]), cycle)
      ensures var granted := AfterGrants(c, old(bank[..]), old(bus[..]), cycle);
              output == old(output) + AllAnswers(granted, cycle, c.merge, c.numBank)
    {
      ChannelScheduleCmd();
      ChannelScheduleData();
      BankScheduleComplete();
      BankScheduleNew();
    }

    method EndCycle()
      requires Valid()
      modifies this`cycle
      ensures Valid() && cycle == old(cycle) + 1
    {
      cycle := cycle + 1;
    }
  }

  lemma {:induction false} NothingLoaded(banks: seq<Bank>)
    requires forall i | 0 <= i < |banks| :: Load(banks[i]) == 0
    ensures LoadSum(banks) == 0
  {
    if banks != [] {
      NothingLoaded(banks[..|banks| - 1]);
    }
  }
}
