/** One bank of MacSim's DRAM controller: its request buffer, its free list and the request in service. */
module MacsimBanks {
  import opened Options

  /** The "not yet" value of a cycle counter. */
  const NEVER := 0xFFFF_FFFF_FFFF_FFFF

  datatype DramState = Init | Cmd | CmdWait | Data | DataWait
  datatype Kind = Prefetch | WriteBack | Demand
  datatype Command = Precharge | Activate | Column

  /** A buffer entry; `slot` is its identity in the bank's pool, `req` the memory request it carries. */
  datatype Entry = Entry(slot: nat, state: DramState, addr: nat, rid: int, size: nat, timestamp: nat, kind: Kind,
                         req: nat)

  datatype Latency = Latency(precharge: nat, activate: nat, column: nat)

  /** Since when a command had been asked for, and when it was given. */
  datatype Span = Span(asked: nat, at: nat)

  /** The per-bank slices of the controller's arrays.  `log` and `times` record the commands given for the request
      in service. */
  datatype Bank = Bank(buffer: seq<Entry>, free: seq<Entry>, current: Option<Entry>, rid: int,
                       dataReady: nat, dataAvail: nat, bankReady: nat, timestamp: nat,
                       log: seq<Command>, times: seq<Span>)

  function Reset(e: Entry): Entry {
    Entry(e.slot, Init, 0, -1, 0, 0, Demand, 0)
  }

  function EmptyBank(entries: nat): Bank {
    Bank([], seq(entries, i requires 0 <= i < entries => Reset(Entry(i, Init, 0, -1, 0, 0, Demand, 0))), None,
         -1, NEVER, NEVER, NEVER, 0, [], [])
  }

  // ---------- what happens to a bank ----------

  /** Comparison of the FR-FCFS policy: demands first, then requests to the open row, then older ones. */
  predicate Beats(a: Entry, b: Entry, rid: int) {
    if a.kind != Prefetch && b.kind == Prefetch then true
    else if a.kind == Prefetch && b.kind != Prefetch then false
    else if a.rid == rid && b.rid != rid then true
    else if a.rid != rid && b.rid == rid then false
    else a.timestamp < b.timestamp
  }

  /** Insertion that keeps equal elements in order. */
  function Insert(e: Entry, es: seq<Entry>, rid: int): seq<Entry> {
    if es == [] || Beats(e, es[0], rid) then [e] + es else [es[0]] + Insert(e, es[1..], rid)
  }

  function Sort(es: seq<Entry>, rid: int): seq<Entry> {
    if es == [] then [] else Insert(es[|es| - 1], Sort(es[..|es| - 1], rid), rid)
  }

  /** The buffer in the order that the scheduling policy leaves it in; its front is served next. */
  function Order(frfcfs: bool, es: seq<Entry>, rid: int): seq<Entry> {
    if frfcfs then Sort(es, rid) else es
  }

  function Refill(b: Bank, e: Entry): Bank
    requires b.free != []
  {
    b.(free := b.free[1..], buffer := b.buffer + [e.(slot := b.free[0].slot, state := b.free[0].state)])
  }

  function OnlyPrefetches(es: seq<Entry>): (r: seq<Entry>) {
    if es == [] then []
    else OnlyPrefetches(es[..|es| - 1]) + if es[|es| - 1].kind == Prefetch then [es[|es| - 1]] else []
  }

  function NoPrefetches(es: seq<Entry>): (r: seq<Entry>) {
    if es == [] then []
    else NoPrefetches(es[..|es| - 1]) + if es[|es| - 1].kind == Prefetch then [] else [es[|es| - 1]]
  }

  /** All prefetches leave the buffer. */
  function Flush(b: Bank): Bank {
    b.(buffer := NoPrefetches(b.buffer), free := b.free + OnlyPrefetches(b.buffer))
  }

  /** A full buffer drops its prefetches. */
  function MakeRoom(b: Bank): Bank {
    if b.free == [] then Flush(b) else b
  }

  /** A request arrives: the buffer may be full even without its prefetches. */
  function Accept(b: Bank, e: Entry): Option<Bank> {
    if MakeRoom(b).free == [] then None else Some(Refill(MakeRoom(b), e))
  }

  function SameAddr(es: seq<Entry>, addr: nat): seq<Entry> {
    if es == [] then []
    else SameAddr(es[..|es| - 1], addr) + if es[|es| - 1].addr == addr then [es[|es| - 1]] else []
  }

  function OtherAddr(es: seq<Entry>, addr: nat): seq<Entry> {
    if es == [] then []
    else OtherAddr(es[..|es| - 1], addr) + if es[|es| - 1].addr == addr then [] else [es[|es| - 1]]
  }

  function ResetAll(es: seq<Entry>): (r: seq<Entry>)
    ensures |r| == |es| && forall i | 0 <= i < |es| :: r[i] == Reset(es[i])
  {
    seq(|es|, i requires 0 <= i < |es| => Reset(es[i]))
  }

  predicate IsDone(b: Bank, cycle: nat) {
    b.current.Some? && b.dataReady <= cycle
  }

  /** The buffered requests that leave together with the one that is done. */
  function MergedWith(b: Bank, merge: bool): seq<Entry>
    requires b.current.Some?
  {
    if merge then SameAddr(b.buffer, b.current.value.addr) else []
  }

  function Complete(b: Bank, cycle: nat, merge: bool): Bank {
    if !IsDone(b, cycle) then b
    else
      var e := b.current.value;
      b.(free := b.free + ResetAll(MergedWith(b, merge)) + [Reset(e)],
         buffer := if merge then OtherAddr(b.buffer, e.addr) else b.buffer,
         current := None, dataReady := NEVER)
  }

  function Select(b: Bank, cycle: nat, frfcfs: bool): Bank
    requires b.buffer != [] && Order(frfcfs, b.buffer, b.rid) != []
  {
    var es := Order(frfcfs, b.buffer, b.rid);
    b.(buffer := es[1..], current := Some(es[0].(state := Cmd)), bankReady := NEVER, timestamp := cycle,
       log := [], times := [])
  }

  predicate IsAwake(b: Bank, cycle: nat) {
    b.current.Some? && b.bankReady <= cycle && b.current.value.state == CmdWait
  }

  function Wake(b: Bank, cycle: nat): Bank
    requires b.current.Some?
  {
    b.(bankReady := NEVER, current := Some(b.current.value.(state := Cmd)), timestamp := cycle)
  }

  function New(b: Bank, cycle: nat, frfcfs: bool): Bank {
    SortKeeps(b.buffer, b.rid);
    if b.current.None? then (if b.buffer == [] then b else Select(b, cycle, frfcfs))
    else if IsAwake(b, cycle) then Wake(b, cycle)
    else b
  }

  predicate WantsCommand(b: Bank) {
    b.current.Some? && b.current.value.state == Cmd
  }

  /** The command that a bank asking for one needs next. */
  function NextCommand(b: Bank): Command
    requires b.current.Some?
  {
    if b.rid == -1 then Activate else if b.current.value.rid == b.rid then Column else Precharge
  }

  function GiveCommand(b: Bank, cycle: nat, lat: Latency): Bank
    requires b.current.Some?
  {
    var e := b.current.value;
    var c := b.(log := b.log + [NextCommand(b)], times := b.times + [Span(b.timestamp, cycle)]);
    match NextCommand(b)
    case Activate =>
      c.(rid := e.rid, bankReady := cycle + lat.activate, dataAvail := NEVER, current := Some(e.(state := CmdWait)))
    case Column =>
      c.(bankReady := cycle + lat.column, dataAvail := cycle + lat.column, current := Some(e.(state := Data)))
    case Precharge =>
      c.(rid := -1, bankReady := cycle + lat.precharge, dataAvail := NEVER, current := Some(e.(state := CmdWait)))
  }

  predicate WantsData(b: Bank, cycle: nat) {
    b.current.Some? && b.current.value.state == Data && b.dataAvail <= cycle
  }

  function GiveData(b: Bank, ready: nat): Bank
    requires b.current.Some?
  {
    b.(dataReady := ready, dataAvail := NEVER, current := Some(b.current.value.(state := DataWait)))
  }

  // ---------- bank machine safety ----------

  /** The commands given so far fit a request that has reached this state with this row open. */
  predicate LogOk(b: Bank)
    requires b.current.Some?
  {
    match b.current.value.state
    case Cmd => Underway(b)
    case CmdWait => b.log != [] && Underway(b)
    case Data => Served(b.log)
    case DataWait => Served(b.log)
    case Init => false
  }

  predicate Underway(b: Bank)
    requires b.current.Some?
  {
    || b.log == []
    || (b.log == [Precharge] && b.rid == -1)
    || ((b.log == [Activate] || b.log == [Precharge, Activate]) && b.rid == b.current.value.rid)
  }

  /** At most one precharge, then at most one activate, then exactly one column command. */
  predicate Served(log: seq<Command>) {
    log == [Column] || log == [Activate, Column] || log == [Precharge, Activate, Column]
  }

  ghost predicate BankOk(b: Bank) {
    && (forall e | e in b.buffer :: 0 <= e.rid)
    && (b.current.None? ==> b.dataReady == NEVER)
    && (b.current.Some? ==>
          var e := b.current.value;
          && 0 <= e.rid
          && LogOk(b)
          && (e.state == DataWait <==> b.dataReady != NEVER)
          && (e.state == Data || e.state == DataWait ==> b.rid == e.rid)
          && (e.state == CmdWait ==> b.bankReady != NEVER))
  }

  lemma EmptyBankOk(entries: nat)
    ensures BankOk(EmptyBank(entries))
  {
  }

  lemma {:induction false} SortKeeps(es: seq<Entry>, rid: int)
    ensures multiset(Sort(es, rid)) == multiset(es)
    ensures es != [] ==> Sort(es, rid) != []
  {
    if es != [] {
      var init, last := es[..|es| - 1], es[|es| - 1];
      SortKeeps(init, rid);
      InsertKeeps(last, Sort(init, rid), rid);
      assert es == init + [last];
    }
  }

  lemma {:induction false} InsertKeeps(e: Entry, es: seq<Entry>, rid: int)
    ensures multiset(Insert(e, es, rid)) == multiset(es) + multiset{e}
  {
    if !(es == [] || Beats(e, es[0], rid)) {
      InsertKeeps(e, es[1..], rid);
      assert es == [es[0]] + es[1..];
    }
  }

  lemma RefillOk(b: Bank, e: Entry)
    requires BankOk(b) && b.free != [] && 0 <= e.rid
    ensures BankOk(Refill(b, e))
  {
  }

  lemma {:induction false} FilterIn(es: seq<Entry>, addr: nat)
    ensures forall e | e in NoPrefetches(es) || e in OtherAddr(es, addr) :: e in es
  {
    if es != [] {
      FilterIn(es[..|es| - 1], addr);
    }
  }

  lemma FlushOk(b: Bank)
    requires BankOk(b)
    ensures BankOk(Flush(b))
  {
    FilterIn(b.buffer, 0);
  }

  lemma CompleteOk(b: Bank, cycle: nat, merge: bool)
    requires BankOk(b)
    ensures BankOk(Complete(b, cycle, merge))
    ensures IsDone(b, cycle) && cycle < NEVER ==> b.current.value.state == DataWait && Served(b.log)
  {
    if b.current.Some? {
      FilterIn(b.buffer, b.current.value.addr);
    }
  }

  lemma NewOk(b: Bank, cycle: nat, frfcfs: bool)
    requires BankOk(b)
    ensures BankOk(New(b, cycle, frfcfs))
  {
    SortKeeps(b.buffer, b.rid);
    if b.current.None? && b.buffer != [] {
      var es := Order(frfcfs, b.buffer, b.rid);
      forall e | e in es ensures e in b.buffer {
        assert e in multiset(es);
      }
    }
  }

  lemma GiveCommandOk(b: Bank, cycle: nat, lat: Latency)
    requires BankOk(b) && WantsCommand(b)
    requires cycle + lat.precharge < NEVER && cycle + lat.activate < NEVER
    ensures BankOk(GiveCommand(b, cycle, lat))
  {
  }

  lemma GiveDataOk(b: Bank, cycle: nat, ready: nat)
    requires BankOk(b) && WantsData(b, cycle) && ready < NEVER
    ensures BankOk(GiveData(b, ready))
  {
  }

  // ---------- the scheduling policy ----------

  /** The entry served next is beaten by no other, and everything queued before it loses against it. */
  lemma {:induction false} SortPicksBest(es: seq<Entry>, rid: int) returns (k: nat)
    requires es != []
    ensures k < |es| && Sort(es, rid) != [] && Sort(es, rid)[0] == es[k]
    ensures forall i | 0 <= i < |es| :: !Beats(es[i], es[k], rid)
    ensures forall i | 0 <= i < k :: Beats(es[k], es[i], rid)
  {
    var init, last := es[..|es| - 1], es[|es| - 1];
    if init == [] {
      k := 0;
    } else {
      k := SortPicksBest(init, rid);
      if Beats(last, init[k], rid) {
        k := |es| - 1;
      }
    }
  }

  // ---------- conservation of entries ----------

  function Slots(es: seq<Entry>): (r: seq<nat>)
    ensures |r| == |es| && forall i | 0 <= i < |es| :: r[i] == es[i].slot
  {
    seq(|es|, i requires 0 <= i < |es| => es[i].slot)
  }

  /** Every slot of the bank, wherever it is. */
  function Pool(b: Bank): multiset<nat> {
    multiset(Slots(b.buffer)) + multiset(Slots(b.free))
    + if b.current.Some? then multiset{b.current.value.slot} else multiset{}
  }

  /** Requests in the bank. */
  function Load(b: Bank): nat {
    |b.buffer| + if b.current.Some? then 1 else 0
  }

  lemma SlotsAppend(p: seq<Entry>, q: seq<Entry>)
    ensures multiset(Slots(p + q)) == multiset(Slots(p)) + multiset(Slots(q))
  {
    assert Slots(p + q) == Slots(p) + Slots(q);
  }

  lemma SlotsOne(e: Entry)
    ensures multiset(Slots([e])) == multiset{e.slot}
  {
    assert Slots([e]) == [e.slot];
  }

  lemma SlotsReset(es: seq<Entry>)
    ensures Slots(ResetAll(es)) == Slots(es)
  {
  }

  lemma SlotsHead(es: seq<Entry>)
    requires es != []
    ensures multiset(Slots(es)) == multiset{es[0].slot} + multiset(Slots(es[1..]))
  {
    assert es == [es[0]] + es[1..];
    SlotsAppend([es[0]], es[1..]);
    SlotsOne(es[0]);
  }

  lemma RefillConserves(b: Bank, e: Entry)
    requires b.free != []
    ensures Pool(Refill(b, e)) == Pool(b) && Load(Refill(b, e)) == Load(b) + 1
  {
    var added := e.(slot := b.free[0].slot, state := b.free[0].state);
    SlotsHead(b.free);
    SlotsAppend(b.buffer, [added]);
    SlotsOne(added);
  }

  lemma {:induction false} PrefetchesPartition(es: seq<Entry>)
    ensures multiset(Slots(NoPrefetches(es))) + multiset(Slots(OnlyPrefetches(es))) == multiset(Slots(es))
    ensures |NoPrefetches(es)| + |OnlyPrefetches(es)| == |es|
  {
    if es != [] {
      var init, last := es[..|es| - 1], es[|es| - 1];
      PrefetchesPartition(init);
      assert es == init + [last];
      SlotsAppend(init, [last]);
      if last.kind == Prefetch {
        SlotsAppend(OnlyPrefetches(init), [last]);
        assert NoPrefetches(init) + [] == NoPrefetches(init);
      } else {
        SlotsAppend(NoPrefetches(init), [last]);
        assert OnlyPrefetches(init) + [] == OnlyPrefetches(init);
      }
    }
  }

  lemma {:induction false} HasPrefetch(es: seq<Entry>)
    ensures OnlyPrefetches(es) == [] <==> forall e | e in es :: e.kind != Prefetch
  {
    if es != [] {
      var init, last := es[..|es| - 1], es[|es| - 1];
      HasPrefetch(init);
      assert es == init + [last];
    }
  }

  lemma FlushConserves(b: Bank)
    ensures Pool(Flush(b)) == Pool(b) && Load(Flush(b)) + |OnlyPrefetches(b.buffer)| == Load(b)
  {
    PrefetchesPartition(b.buffer);
    SlotsAppend(b.free, OnlyPrefetches(b.buffer));
  }

  /** A request is refused exactly when the buffer is full of requests that are not prefetches, and then
      nothing has been dropped. */
  lemma AcceptIff(b: Bank, e: Entry)
    ensures Accept(b, e).Some? <==> b.free != [] || exists x :: x in b.buffer && x.kind == Prefetch
    ensures Accept(b, e).None? ==> Flush(b) == b
    ensures Accept(b, e).Some? ==>
              Pool(Accept(b, e).value) == Pool(b)
              && Load(Accept(b, e).value) == Load(b) + 1 - if b.free == [] then |OnlyPrefetches(b.buffer)| else 0
  {
    HasPrefetch(b.buffer);
    FlushConserves(b);
    if b.free != [] {
      RefillConserves(b, e);
    } else if Flush(b).free != [] {
      RefillConserves(Flush(b), e);
    } else {
      NothingToFlush(b.buffer);
    }
  }

  lemma FullStays(b: Bank)
    requires MakeRoom(b).free == []
    ensures MakeRoom(b) == b
  {
    NothingToFlush(b.buffer);
  }

  lemma {:induction false} NothingToFlush(es: seq<Entry>)
    requires OnlyPrefetches(es) == []
    ensures NoPrefetches(es) == es
  {
    if es != [] {
      var init, last := es[..|es| - 1], es[|es| - 1];
      assert |OnlyPrefetches(es)| == |OnlyPrefetches(init)| + if last.kind == Prefetch then 1 else 0;
      NothingToFlush(init);
      assert NoPrefetches(es) == NoPrefetches(init) + [last];
      assert es == init + [last];
    }
  }

  lemma {:induction false} AddrPartition(es: seq<Entry>, addr: nat)
    ensures multiset(Slots(OtherAddr(es, addr))) + multiset(Slots(SameAddr(es, addr))) == multiset(Slots(es))
    ensures |OtherAddr(es, addr)| + |SameAddr(es, addr)| == |es|
  {
    if es != [] {
      var init, last := es[..|es| - 1], es[|es| - 1];
      AddrPartition(init, addr);
      assert es == init + [last];
      SlotsAppend(init, [last]);
      SlotsAppend(OtherAddr(init, addr), [last]);
      SlotsAppend(SameAddr(init, addr), [last]);
      assert OtherAddr(init, addr) + [] == OtherAddr(init, addr) && SameAddr(init, addr) + [] == SameAddr(init, addr);
    }
  }

  lemma CompleteConserves(b: Bank, cycle: nat, merge: bool)
    ensures Pool(Complete(b, cycle, merge)) == Pool(b)
    ensures Load(Complete(b, cycle, merge)) + (if IsDone(b, cycle) then |MergedWith(b, merge)| + 1 else 0) == Load(b)
  {
    if IsDone(b, cycle) {
      var e, gone := b.current.value, MergedWith(b, merge);
      AddrPartition(b.buffer, e.addr);
      SlotsReset(gone);
      SlotsOne(Reset(e));
      SlotsAppend(b.free, ResetAll(gone));
      SlotsAppend(b.free + ResetAll(gone), [Reset(e)]);
    }
  }

  lemma {:induction false} InsertSlots(e: Entry, es: seq<Entry>, rid: int)
    ensures multiset(Slots(Insert(e, es, rid))) == multiset(Slots(es)) + multiset{e.slot}
    ensures |Insert(e, es, rid)| == |es| + 1
  {
    if es == [] || Beats(e, es[0], rid) {
      SlotsAppend([e], es);
      SlotsOne(e);
    } else {
      InsertSlots(e, es[1..], rid);
      SlotsAppend([es[0]], Insert(e, es[1..], rid));
      SlotsOne(es[0]);
      SlotsHead(es);
    }
  }

  lemma {:induction false} SortSlots(es: seq<Entry>, rid: int)
    ensures multiset(Slots(Sort(es, rid))) == multiset(Slots(es)) && |Sort(es, rid)| == |es|
  {
    if es != [] {
      var init, last := es[..|es| - 1], es[|es| - 1];
      SortSlots(init, rid);
      InsertSlots(last, Sort(init, rid), rid);
      assert es == init + [last];
      SlotsAppend(init, [last]);
      SlotsOne(last);
    }
  }

  lemma NewConserves(b: Bank, cycle: nat, frfcfs: bool)
    ensures Pool(New(b, cycle, frfcfs)) == Pool(b) && Load(New(b, cycle, frfcfs)) == Load(b)
  {
    SortKeeps(b.buffer, b.rid);
    if b.current.None? && b.buffer != [] {
      var es := Order(frfcfs, b.buffer, b.rid);
      SortSlots(b.buffer, b.rid);
      SlotsHead(es);
    }
  }
}
