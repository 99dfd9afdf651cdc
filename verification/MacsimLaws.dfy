/** What the parts of a cycle of MacSim's controller do, told by what they find: arrivals, commands, completions, and
    the choice of the next request. */
module MacsimLaws {
  import opened Options
  import opened MacsimBanks
  import opened MacsimBus
  import opened MacsimSchedule
  import R = MacsimRuns

  // ---------- arrivals ----------

  lemma {:induction false} FiltersAre(es: seq<Entry>, addr: nat)
    ensures forall x :: x in NoPrefetches(es) <==> x in es && x.kind != Prefetch
    ensures forall x :: x in OnlyPrefetches(es) <==> x in es && x.kind == Prefetch
    ensures forall x :: x in SameAddr(es, addr) <==> x in es && x.addr == addr
    ensures forall x :: x in OtherAddr(es, addr) <==> x in es && x.addr != addr
  {
    if es != [] {
      FiltersAre(es[..|es| - 1], addr);
      assert es == es[..|es| - 1] + [es[|es| - 1]];
    }
  }

  /** A request that is taken stands last in the buffer, with everything it came with; before it stand all the others,
      and if there was no room, all the others but prefetches. */
  lemma AcceptIs(b: Bank, e: Entry)
    requires Accept(b, e).Some?
    ensures var n := Accept(b, e).value;
            && n.buffer != [] && n.current == b.current && n.rid == b.rid
            && n.buffer[|n.buffer| - 1].(slot := e.slot, state := e.state) == e
            && var others := n.buffer[..|n.buffer| - 1];
               if b.free != [] then others == b.buffer
               else forall x :: x in others <==> x in b.buffer && x.kind != Prefetch
  {
    FiltersAre(b.buffer, 0);
  }

  // ---------- commands ----------

  /** The bank waits for a command. */
  predicate Asks(b: Bank) {
    b.current.Some? && b.current.value.state == Cmd && b.timestamp < NEVER
  }

  /** The bank gets its next command: an activate if no row is open, the column access if its request's row is, and
      else a precharge; it is busy for that command's latency. */
  predicate Advances(b: Bank, n: Bank, cycle: nat, lat: Latency) {
    && b.current.Some? && n.buffer == b.buffer && n.free == b.free
    && n.dataReady == b.dataReady && n.timestamp == b.timestamp
    && var e := b.current.value;
       if b.rid == -1 then
         n.rid == e.rid && n.bankReady == cycle + lat.activate && n.current == Some(e.(state := CmdWait))
         && n.log == b.log + [Activate]
       else if b.rid == e.rid then
         n.rid == e.rid && n.dataAvail == cycle + lat.column && n.current == Some(e.(state := Data))
         && n.log == b.log + [Column]
       else
         n.rid == -1 && n.bankReady == cycle + lat.precharge && n.current == Some(e.(state := CmdWait))
         && n.log == b.log + [Precharge]
  }

  /** Bank `k` alone has changed, and has got its next command. */
  predicate OneAdvances(banks: seq<Bank>, r: seq<Bank>, k: nat, cycle: nat, lat: Latency) {
    k < |banks| == |r| && r == banks[k := r[k]] && Advances(banks[k], r[k], cycle, lat)
  }

  /** The command slot of a channel goes to the bank that has waited longest, the first of its equals. */
  lemma CommandSlotIs(banks: seq<Bank>, lo: nat, hi: nat, cycle: nat, lat: Latency) returns (k: Option<nat>)
    requires hi <= |banks|
    ensures k.None? <==> forall j | lo <= j < hi :: !Asks(banks[j])
    ensures k.None? ==> CommandSlot(banks, lo, hi, cycle, lat) == banks
    ensures k.Some? ==>
              && lo <= k.value < hi && Asks(banks[k.value])
              && OneAdvances(banks, CommandSlot(banks, lo, hi, cycle, lat), k.value, cycle, lat)
              && forall j | lo <= j < hi && Asks(banks[j]) ::
                   banks[k.value].timestamp < banks[j].timestamp
                   || (banks[k.value].timestamp == banks[j].timestamp && k.value <= j)
  {
    k := PickOldest(WantsCommand, banks, lo, hi);
    PickBelow(WantsCommand, banks, lo, hi);
    forall j | lo <= j < hi && Asks(banks[j])
      ensures k.Some? && !Earlier(banks, j, k.value)
    {
      PickOldestIsFirst(WantsCommand, banks, lo, hi, j);
    }
  }

  /** A bank that waits for the data bus in this cycle. */
  predicate WaitsForData(b: Bank, cycle: nat) {
    b.current.Some? && b.current.value.state == Data && b.dataAvail <= cycle && b.timestamp < NEVER
  }

  /** Bank `p` is served no later than bank `q`, unless neither is. */
  ghost predicate NotOvertaken(banks: seq<Bank>, r: seq<Bank>, p: nat, q: nat)
    requires p < |banks| == |r| && q < |banks|
  {
    r[q] != banks[q] ==> r[p] != banks[p]
  }

  /** On the data bus no bank overtakes one of its channel that has waited longer. */
  lemma {:induction false} DataSlotIsFair(banks: seq<Bank>, lo: nat, hi: nat, bus: Bus, width: nat, cycle: nat,
                                          p: nat, q: nat)
    requires hi <= |banks| && BusOk(bus, width) && lo <= p < hi && q < |banks|
    requires WaitsForData(banks[p], cycle) && banks[p].timestamp < banks[q].timestamp
    ensures NotOvertaken(banks, DataSlot(banks, lo, hi, bus, width, cycle).banks, p, q)
    decreases Waiting(banks, cycle, |banks|)
  {
    if bus.ready <= cycle {
      PickOldestIsFirst(DataWanted(cycle), banks, lo, hi, p);
      var k := PickOldest(DataWanted(cycle), banks, lo, hi).value;
      var size := banks[k].current.value.size;
      AcquireAdvances(bus, width, size, cycle);
      var next := Acquire(bus, width, size, cycle);
      var b := GiveData(banks[k], next.ready);
      WaitingDrops(banks, cycle, |banks|, k, b);
      if k == p {
        Moving(banks[k := b], lo, hi, next, width, cycle, p);
      } else {
        DataSlotIsFair(banks[k := b], lo, hi, next, width, cycle, p, q);
      }
    }
  }

  /** What has been granted the bus is not touched again. */
  lemma {:induction false} Moving(banks: seq<Bank>, lo: nat, hi: nat, bus: Bus, width: nat, cycle: nat, p: nat)
    requires hi <= |banks| && BusOk(bus, width) && p < |banks|
    requires banks[p].current.Some? && banks[p].current.value.state == DataWait
    ensures DataSlot(banks, lo, hi, bus, width, cycle).banks[p] == banks[p]
    decreases Waiting(banks, cycle, |banks|)
  {
    if bus.ready <= cycle {
      match PickOldest(DataWanted(cycle), banks, lo, hi)
      case None =>
      case Some(k) =>
        AcquireAdvances(bus, width, banks[k].current.value.size, cycle);
        var next := Acquire(bus, width, banks[k].current.value.size, cycle);
        WaitingDrops(banks, cycle, |banks|, k, GiveData(banks[k], next.ready));
        Moving(banks[k := GiveData(banks[k], next.ready)], lo, hi, next, width, cycle, p);
    }
  }

  // ---------- completions ----------

  /** A request ends in the cycle in which its data is ready, and when requests are merged, all buffered requests for
      its address end with it; nothing else leaves. */
  lemma CompleteIs(b: Bank, cycle: nat, merge: bool)
    ensures var n := Complete(b, cycle, merge);
            if b.current.Some? && b.dataReady <= cycle then
              && n.current == None
              && (forall x :: x in n.buffer <==> x in b.buffer && !(merge && x.addr == b.current.value.addr))
              && (forall x :: x in R.Ending(b, cycle, merge) <==>
                    x == b.current.value || (merge && x in b.buffer && x.addr == b.current.value.addr))
            else n == b && R.Ending(b, cycle, merge) == []
  {
    if b.current.Some? {
      FiltersAre(b.buffer, b.current.value.addr);
    }
  }

  // ---------- the next request ----------

  /** First a demand, then a request to the open row, then the oldest, then the first in the buffer. */
  predicate BestOf(es: seq<Entry>, rid: int, k: nat) {
    && k < |es|
    && (es[k].kind == Prefetch ==> forall i | 0 <= i < |es| :: es[i].kind == Prefetch)
    && (forall i | 0 <= i < |es| && (es[i].kind == Prefetch <==> es[k].kind == Prefetch) ::
          && (es[i].rid == rid ==> es[k].rid == rid)
          && ((es[i].rid == rid <==> es[k].rid == rid) ==>
                es[k].timestamp < es[i].timestamp || (es[k].timestamp == es[i].timestamp && k <= i)))
  }

  lemma SortIsBest(es: seq<Entry>, rid: int) returns (k: nat)
    requires es != []
    ensures Sort(es, rid) != [] && BestOf(es, rid, k) && Sort(es, rid)[0] == es[k]
  {
    k := SortPicksBest(es, rid);
    forall i | 0 <= i < |es| && (es[i].kind == Prefetch <==> es[k].kind == Prefetch)
      ensures es[i].rid == rid ==> es[k].rid == rid
      ensures (es[i].rid == rid <==> es[k].rid == rid) ==>
                es[k].timestamp < es[i].timestamp || (es[k].timestamp == es[i].timestamp && k <= i)
    {
      assert !Beats(es[i], es[k], rid);
      assert i < k ==> Beats(es[k], es[i], rid);
    }
    if es[k].kind == Prefetch {
      forall i | 0 <= i < |es| ensures es[i].kind == Prefetch {
        assert !Beats(es[i], es[k], rid);
      }
    }
  }

  /** An idle bank serves the best request of its buffer, or under first come, first served the first, and asks for
      its first command from that cycle on. */
  lemma ServedNext(b: Bank, cycle: nat, frfcfs: bool) returns (k: nat)
    requires b.current.None? && b.buffer != []
    ensures k < |b.buffer| && (if frfcfs then BestOf(b.buffer, b.rid, k) else k == 0)
    ensures var n := New(b, cycle, frfcfs);
            && n.current == Some(b.buffer[k].(state := Cmd)) && n.timestamp == cycle && n.log == [] && n.rid == b.rid
            && multiset(n.buffer) == multiset(b.buffer) - multiset{b.buffer[k]}
  {
    k := 0;
    if frfcfs {
      k := SortIsBest(b.buffer, b.rid);
    }
    SortKeeps(b.buffer, b.rid);
    var es := Order(frfcfs, b.buffer, b.rid);
    assert es == [es[0]] + es[1..];
  }

  // ---------- stamps ----------

  /** `n` asks for a command that `b` has asked for since the same cycle, or it asks since `cycle`. */
  predicate AsksSince(b: Bank, n: Bank, cycle: nat) {
    n.current.Some? && n.current.value.state == Cmd ==>
      || n.timestamp == cycle
      || (n.current == b.current && n.timestamp == b.timestamp)
  }

  lemma SettledSince(b: Bank, mid: Bank, n: Bank, cycle: nat)
    requires Settles(mid, n, cycle) && (WantsCommand(mid) ==> mid == b)
    ensures AsksSince(b, n, cycle)
  {
  }

  /** After a cycle, a bank that asks for a command has asked for it before and was not served, or it asks since that
      cycle. */
  lemma StampIsSince(c: Config, s: R.System, j: nat)
    requires R.Sound(c, s) && R.InTime(c, s) && j < |s.banks|
    ensures AsksSince(s.banks[j], R.TickStep(c, s).banks[j], s.cycle)
  {
    R.CommandPhaseWaits(c, s.banks, s.cycle, c.numChannel, j);
    RestSettles(c, s.banks, s.buses, s.cycle, j);
    SettledSince(s.banks[j], CommandPhase(c, s.banks, s.cycle, c.numChannel)[j], R.TickStep(c, s).banks[j], s.cycle);
  }
}
