/** Every run of MacSim's DRAM controller, from the empty state on, with requests arriving at any time. */
module MacsimRuns {
  import opened Options
  import opened MacsimBanks
  import opened MacsimBus
  import opened MacsimSchedule
  import opened MacsimDram

  // ---------- the requests that entries carry ----------

  function Ids(es: seq<Entry>): multiset<nat> {
    if es == [] then multiset{} else Ids(es[..|es| - 1]) + multiset{es[|es| - 1].req}
  }

  lemma {:induction false} IdsAppend(p: seq<Entry>, q: seq<Entry>)
    ensures Ids(p + q) == Ids(p) + Ids(q)
  {
    if q == [] {
      assert p + q == p;
    } else {
      assert (p + q)[..|p + q| - 1] == p + q[..|q| - 1];
      IdsAppend(p, q[..|q| - 1]);
    }
  }

  lemma IdsOne(e: Entry)
    ensures Ids([e]) == multiset{e.req}
  {
    assert [e][..0] == [];
  }

  lemma IdsHead(es: seq<Entry>)
    requires es != []
    ensures Ids(es) == multiset{es[0].req} + Ids(es[1..])
  {
    assert es == [es[0]] + es[1..];
    IdsAppend([es[0]], es[1..]);
    IdsOne(es[0]);
  }

  lemma {:induction false} IdsInsert(e: Entry, es: seq<Entry>, rid: int)
    ensures Ids(Insert(e, es, rid)) == Ids(es) + multiset{e.req}
  {
    IdsOne(e);
    if es == [] || Beats(e, es[0], rid) {
      IdsAppend([e], es);
    } else {
      IdsInsert(e, es[1..], rid);
      IdsAppend([es[0]], Insert(e, es[1..], rid));
      IdsOne(es[0]);
      IdsHead(es);
    }
  }

  lemma {:induction false} IdsSort(es: seq<Entry>, rid: int)
    ensures Ids(Sort(es, rid)) == Ids(es)
  {
    if es != [] {
      IdsSort(es[..|es| - 1], rid);
      IdsInsert(es[|es| - 1], Sort(es[..|es| - 1], rid), rid);
    }
  }

  lemma {:induction false} IdsPrefetches(es: seq<Entry>)
    ensures Ids(NoPrefetches(es)) + Ids(OnlyPrefetches(es)) == Ids(es)
  {
    if es != [] {
      var init, last := es[..|es| - 1], es[|es| - 1];
      IdsPrefetches(init);
      IdsOne(last);
      IdsAppend(NoPrefetches(init), if last.kind == Prefetch then [] else [last]);
      IdsAppend(OnlyPrefetches(init), if last.kind == Prefetch then [last] else []);
    }
  }

  lemma {:induction false} IdsAddr(es: seq<Entry>, addr: nat)
    ensures Ids(OtherAddr(es, addr)) + Ids(SameAddr(es, addr)) == Ids(es)
  {
    if es != [] {
      var init, last := es[..|es| - 1], es[|es| - 1];
      IdsAddr(init, addr);
      IdsOne(last);
      IdsAppend(OtherAddr(init, addr), if last.addr == addr then [] else [last]);
      IdsAppend(SameAddr(init, addr), if last.addr == addr then [last] else []);
    }
  }

  // ---------- one bank ----------

  function Current(b: Bank): seq<Entry> {
    if b.current.Some? then [b.current.value] else []
  }

  /** The requests that a bank has not finished. */
  function Held(b: Bank): multiset<nat> {
    Ids(b.buffer) + Ids(Current(b))
  }

  /** The entries that finish in bank `b` at the end of `cycle`. */
  function Ending(b: Bank, cycle: nat, merge: bool): seq<Entry> {
    if IsDone(b, cycle) then MergedWith(b, merge) + Current(b) else []
  }

  /** The entries that a full buffer drops for an arriving request. */
  function Dropping(b: Bank): seq<Entry> {
    if b.free == [] then OnlyPrefetches(b.buffer) else []
  }

  lemma AcceptHolds(b: Bank, e: Entry)
    requires Accept(b, e).Some?
    ensures Held(Accept(b, e).value) + Ids(Dropping(b)) == Held(b) + multiset{e.req}
  {
    var room := MakeRoom(b);
    IdsPrefetches(b.buffer);
    var added := e.(slot := room.free[0].slot, state := room.free[0].state);
    IdsAppend(room.buffer, [added]);
    IdsOne(added);
  }

  lemma CompleteHolds(b: Bank, cycle: nat, merge: bool)
    ensures Held(Complete(b, cycle, merge)) + Ids(Ending(b, cycle, merge)) == Held(b)
  {
    if IsDone(b, cycle) {
      IdsAddr(b.buffer, b.current.value.addr);
      IdsAppend(MergedWith(b, merge), Current(b));
    }
  }

  lemma NewHolds(b: Bank, cycle: nat, frfcfs: bool)
    ensures Held(New(b, cycle, frfcfs)) == Held(b)
  {
    SortKeeps(b.buffer, b.rid);
    if b.current.None? && b.buffer != [] {
      var es := Order(frfcfs, b.buffer, b.rid);
      IdsSort(b.buffer, b.rid);
      IdsHead(es);
      IdsOne(es[0].(state := Cmd));
    } else if IsAwake(b, cycle) {
      IdsOne(b.current.value);
      IdsOne(b.current.value.(state := Cmd));
    }
  }

  lemma SameHolds(b: Bank, n: Bank)
    requires SameEntries(b, n)
    ensures Held(n) == Held(b)
  {
    if b.current.Some? {
      IdsOne(b.current.value);
      IdsOne(n.current.value);
    }
  }

  // ---------- all banks ----------

  function Union(ms: seq<multiset<nat>>): multiset<nat> {
    if ms == [] then multiset{} else Union(ms[..|ms| - 1]) + ms[|ms| - 1]
  }

  function HeldBy(banks: seq<Bank>): multiset<nat> {
    Union(Helds(banks))
  }

  function Helds(banks: seq<Bank>): (r: seq<multiset<nat>>)
    ensures |r| == |banks| && forall i | 0 <= i < |r| :: r[i] == Held(banks[i])
  {
    seq(|banks|, i requires 0 <= i < |banks| => Held(banks[i]))
  }

  function EndingIn(banks: seq<Bank>, cycle: nat, merge: bool): seq<Entry> {
    if banks == [] then []
    else EndingIn(banks[..|banks| - 1], cycle, merge) + Ending(banks[|banks| - 1], cycle, merge)
  }

  lemma Beside(p: multiset<nat>, x: multiset<nat>, q: multiset<nat>, y: multiset<nat>, rest: multiset<nat>)
    requires p + x == q + y
    ensures (p + rest) + x == (q + rest) + y
  {
    assert (p + rest) + x == (p + x) + rest;
    assert (q + rest) + y == (q + y) + rest;
  }

  lemma FourWays(p: multiset<nat>, q: multiset<nat>, x: multiset<nat>, y: multiset<nat>)
    ensures (p + q) + (x + y) == (p + x) + (q + y)
  {
  }

  lemma {:induction false} UnionUpdate(ms: seq<multiset<nat>>, i: nat, m: multiset<nat>)
    requires i < |ms|
    ensures Union(ms[i := m]) + ms[i] == Union(ms) + m
  {
    var last := |ms| - 1;
    if i == last {
      assert ms[i := m][..last] == ms[..last];
    } else {
      assert ms[i := m][..last] == ms[..last][i := m];
      UnionUpdate(ms[..last], i, m);
      Beside(Union(ms[..last][i := m]), ms[i], Union(ms[..last]), m, ms[last]);
    }
  }

  lemma HeldUpdate(banks: seq<Bank>, i: nat, b: Bank)
    requires i < |banks|
    ensures HeldBy(banks[i := b]) + Held(banks[i]) == HeldBy(banks) + Held(b)
  {
    UnionUpdate(Helds(banks), i, Held(b));
    assert Helds(banks[i := b]) == Helds(banks)[i := Held(b)];
  }

  lemma HeldSame(p: seq<Bank>, q: seq<Bank>)
    requires |p| == |q| && forall i | 0 <= i < |p| :: Held(p[i]) == Held(q[i])
    ensures HeldBy(p) == HeldBy(q)
  {
    assert Helds(p) == Helds(q);
  }

  lemma HeldLast(banks: seq<Bank>)
    requires banks != []
    ensures HeldBy(banks) == HeldBy(banks[..|banks| - 1]) + Held(banks[|banks| - 1])
  {
    assert Helds(banks)[..|banks| - 1] == Helds(banks[..|banks| - 1]);
  }

  lemma {:induction false} CompleteAllHolds(banks: seq<Bank>, cycle: nat, merge: bool)
    ensures HeldBy(CompleteAll(banks, cycle, merge)) + Ids(EndingIn(banks, cycle, merge)) == HeldBy(banks)
  {
    if banks != [] {
      var init, last := banks[..|banks| - 1], banks[|banks| - 1];
      CompleteAllHolds(init, cycle, merge);
      CompleteHolds(last, cycle, merge);
      HeldLast(banks);
      HeldLast(CompleteAll(banks, cycle, merge));
      assert CompleteAll(banks, cycle, merge)[..|banks| - 1] == CompleteAll(init, cycle, merge);
      IdsAppend(EndingIn(init, cycle, merge), Ending(last, cycle, merge));
      FourWays(HeldBy(CompleteAll(init, cycle, merge)), Held(Complete(last, cycle, merge)),
               Ids(EndingIn(init, cycle, merge)), Ids(Ending(last, cycle, merge)));
    }
  }

  /** A cycle loses no request and makes none up: those that are no longer held have ended in it. */
  lemma CycleHolds(c: Config, banks: seq<Bank>, buses: seq<Bus>, cycle: nat)
    requires c.Valid() && |banks| == c.numBank && |buses| == c.numChannel && BusesOk(buses, c.width)
    ensures HeldBy(MacsimSchedule.Cycle(c, banks, buses, cycle).banks)
            + Ids(EndingIn(AfterGrants(c, banks, buses, cycle), cycle, c.merge)) == HeldBy(banks)
  {
    var mid := CommandPhase(c, banks, cycle, c.numChannel);
    var d := AfterGrants(c, banks, buses, cycle);
    CommandPhaseContents(c, banks, cycle, c.numChannel);
    DataPhaseContents(c, mid, buses, cycle, c.numChannel);
    SameContentsTrans(banks, mid, d);
    forall i | 0 <= i < |banks| ensures Held(d[i]) == Held(banks[i]) {
      SameHolds(banks[i], d[i]);
    }
    HeldSame(banks, d);
    CompleteAllHolds(d, cycle, c.merge);
    var done := CompleteAll(d, cycle, c.merge);
    forall i | 0 <= i < |done| ensures Held(NewAll(done, cycle, c.frfcfs)[i]) == Held(done[i]) {
      NewHolds(done[i], cycle, c.frfcfs);
    }
    HeldSame(NewAll(done, cycle, c.frfcfs), done);
  }

  /** Whatever ends was held: the one in service after a full service, the others because they ask for the
      same address. */
  lemma EndsServed(c: Config, banks: seq<Bank>, buses: seq<Bus>, cycle: nat, i: nat)
    requires c.Valid() && |banks| == c.numBank && |buses| == c.numChannel && BusesOk(buses, c.width)
    requires AllOk(banks) && ClockOk(c, cycle) && i < |banks|
    requires forall k | 0 <= k < |buses| :: MacsimSchedule.Cycle(c, banks, buses, cycle).buses[k].ready < NEVER
    ensures var b := AfterGrants(c, banks, buses, cycle)[i];
            IsDone(b, cycle) ==> b.current.value.state == DataWait && Served(b.log)
                                 && (forall e | e in MergedWith(b, c.merge) :: e.addr == b.current.value.addr)
  {
    var mid := CommandPhase(c, banks, cycle, c.numChannel);
    CommandPhaseOk(c, banks, cycle, c.numChannel);
    assert MacsimSchedule.Cycle(c, banks, buses, cycle).buses == DataPhase(c, mid, buses, cycle, c.numChannel).buses;
    DataPhaseOk(c, mid, buses, cycle, c.numChannel);
    var b := AfterGrants(c, banks, buses, cycle)[i];
    CompleteOk(b, cycle, c.merge);
    if b.current.Some? {
      SameAddrIs(b.buffer, b.current.value.addr);
    }
  }

  lemma {:induction false} RepliesAppend(p: seq<Entry>, q: seq<Entry>)
    ensures Replies(p + q) == Replies(p) + Replies(q)
  {
    if q == [] {
      assert p + q == p;
    } else {
      assert (p + q)[..|p + q| - 1] == p + q[..|q| - 1];
      RepliesAppend(p, q[..|q| - 1]);
    }
  }

  /** What the controller puts out in a cycle are the requests that end in it, without the write-backs. */
  lemma {:induction false} AnswersAreEnding(banks: seq<Bank>, cycle: nat, merge: bool)
    ensures AllAnswers(banks, cycle, merge, |banks|) == Replies(EndingIn(banks, cycle, merge))
  {
    if banks != [] {
      var init, last := banks[..|banks| - 1], banks[|banks| - 1];
      AnswersAreEnding(init, cycle, merge);
      AnswersOfPrefix(banks, cycle, merge, |init|);
      RepliesAppend(EndingIn(init, cycle, merge), Ending(last, cycle, merge));
      if IsDone(last, cycle) {
        RepliesAppend(MergedWith(last, merge), Current(last));
      }
    }
  }

  lemma {:induction false} AnswersOfPrefix(banks: seq<Bank>, cycle: nat, merge: bool, n: nat)
    requires n <= |banks| - 1
    ensures AllAnswers(banks, cycle, merge, n) == AllAnswers(banks[..|banks| - 1], cycle, merge, n)
  {
    if n > 0 {
      AnswersOfPrefix(banks, cycle, merge, n - 1);
    }
  }

  lemma {:induction false} SameAddrIs(es: seq<Entry>, addr: nat)
    ensures forall e | e in SameAddr(es, addr) :: e.addr == addr
  {
    if es != [] {
      SameAddrIs(es[..|es| - 1], addr);
    }
  }

  // ---------- runs ----------

  /** The controller, and what has happened to requests so far. */
  datatype System = System(banks: seq<Bank>, buses: seq<Bus>, cycle: nat,
                           accepted: multiset<nat>, ended: multiset<nat>, dropped: multiset<nat>,
                           answered: multiset<nat>)

  datatype Event = Arrive(bid: nat, rid: nat, addr: nat, size: nat, kind: Kind, req: nat) | Tick

  function Begin(c: Config): System {
    System(seq(c.numBank, i => EmptyBank(c.entries)), seq(c.numChannel, i => Bus(0, c.width)), 0,
           multiset{}, multiset{}, multiset{}, multiset{})
  }

  predicate Shaped(c: Config, s: System) {
    c.Valid() && |s.banks| == c.numBank && |s.buses| == c.numChannel && BusesOk(s.buses, c.width)
  }

  function ArriveStep(s: System, ev: Event): System
    requires ev.Arrive? && ev.bid < |s.banks|
  {
    var e := Entry(0, Init, ev.addr, ev.rid, ev.size, s.cycle, ev.kind, ev.req);
    match Accept(s.banks[ev.bid], e)
    case None => s
    case Some(b) =>
      s.(banks := Admit(s.banks, ev.bid, e), accepted := s.accepted + multiset{ev.req},
         dropped := s.dropped + Ids(Dropping(s.banks[ev.bid])))
  }

  function TickStep(c: Config, s: System): System
    requires Shaped(c, s)
  {
    var r := MacsimSchedule.Cycle(c, s.banks, s.buses, s.cycle);
    s.(banks := r.banks, buses := r.buses, cycle := s.cycle + 1,
       ended := s.ended + Ids(EndedBy(c, s)), answered := s.answered + multiset(Replies(EndedBy(c, s))))
  }

  /** The entries that end in the cycle that begins in `s`. */
  function EndedBy(c: Config, s: System): seq<Entry>
    requires Shaped(c, s)
  {
    EndingIn(AfterGrants(c, s.banks, s.buses, s.cycle), s.cycle, c.merge)
  }

  /** The clock has not come near its end. */
  predicate InTime(c: Config, s: System)
    requires Shaped(c, s)
  {
    && ClockOk(c, s.cycle)
    && forall i | 0 <= i < |s.buses| :: MacsimSchedule.Cycle(c, s.banks, s.buses, s.cycle).buses[i].ready < NEVER
  }

  ghost predicate Follows(c: Config, s: System, ev: Event, t: System) {
    && Shaped(c, s)
    && match ev
       case Arrive(bid, _, _, _, _, _) => bid < |s.banks| && t == ArriveStep(s, ev)
       case Tick => InTime(c, s) && t == TickStep(c, s)
  }

  ghost predicate IsRun(c: Config, states: seq<System>, events: seq<Event>) {
    && c.Valid() && |states| == |events| + 1 && states[0] == Begin(c)
    && forall i | 0 <= i < |events| :: Follows(c, states[i], events[i], states[i + 1])
  }

  /** Every bank is as its machine demands, and every request is accounted for. */
  ghost predicate Sound(c: Config, s: System) {
    && Shaped(c, s)
    && AllOk(s.banks)
    && Stamped(s.banks, s.cycle)
    && Accounted(s)
  }

  predicate Stamped(banks: seq<Bank>, cycle: nat) {
    forall j | 0 <= j < |banks| && WantsCommand(banks[j]) :: banks[j].timestamp < cycle
  }

  predicate Accounted(s: System) {
    s.accepted == HeldBy(s.banks) + s.ended + s.dropped
  }

  lemma AcceptOk(b: Bank, e: Entry)
    requires BankOk(b) && 0 <= e.rid && Accept(b, e).Some?
    ensures BankOk(Accept(b, e).value)
    ensures Accept(b, e).value.current == b.current && Accept(b, e).value.timestamp == b.timestamp
  {
    FlushOk(b);
    RefillOk(MakeRoom(b), e);
  }

  lemma Entered(all: multiset<nat>, held: multiset<nat>, was: multiset<nat>, now: multiset<nat>, gone: multiset<nat>,
                req: nat, after: multiset<nat>, ended: multiset<nat>, dropped: multiset<nat>)
    requires all == held + ended + dropped
    requires now + gone == was + multiset{req} && after + was == held + now
    ensures all + multiset{req} == after + ended + (dropped + gone)
  {
    forall x ensures (all + multiset{req})[x] == (after + ended + (dropped + gone))[x] {
      assert (now + gone)[x] == (was + multiset{req})[x];
      assert (after + was)[x] == (held + now)[x];
    }
  }

  lemma ArriveAccounted(s: System, ev: Event)
    requires Accounted(s) && ev.Arrive? && ev.bid < |s.banks|
    ensures Accounted(ArriveStep(s, ev))
  {
    var e := Entry(0, Init, ev.addr, ev.rid, ev.size, s.cycle, ev.kind, ev.req);
    var b := s.banks[ev.bid];
    if Accept(b, e).Some? {
      var n := Accept(b, e).value;
      AcceptHolds(b, e);
      HeldUpdate(s.banks, ev.bid, n);
      Entered(s.accepted, HeldBy(s.banks), Held(b), Held(n), Ids(Dropping(b)), ev.req,
              HeldBy(s.banks[ev.bid := n]), s.ended, s.dropped);
    }
  }

  lemma ArriveSound(c: Config, s: System, ev: Event)
    requires Sound(c, s) && ev.Arrive? && ev.bid < |s.banks|
    ensures Sound(c, ArriveStep(s, ev))
  {
    ArriveAccounted(s, ev);
    var e := Entry(0, Init, ev.addr, ev.rid, ev.size, s.cycle, ev.kind, ev.req);
    if Accept(s.banks[ev.bid], e).Some? {
      AcceptOk(s.banks[ev.bid], e);
    }
  }

  lemma {:induction false} CommandPhaseWaits(c: Config, banks: seq<Bank>, cycle: nat, channels: nat, j: nat)
    requires c.Valid() && |banks| == c.numBank && channels <= c.numChannel && j < |banks|
    ensures var r := CommandPhase(c, banks, cycle, channels)[j];
            WantsCommand(r) ==> r == banks[j]
  {
    if channels > 0 {
      CommandPhaseWaits(c, banks, cycle, channels - 1, j);
      c.ChannelFits(channels - 1);
    }
  }

  lemma TickStamps(c: Config, s: System, j: nat)
    requires Sound(c, s) && InTime(c, s) && j < |s.banks|
    ensures var b := TickStep(c, s).banks[j];
            WantsCommand(b) ==> b.timestamp <= s.cycle
  {
    CommandPhaseWaits(c, s.banks, s.cycle, c.numChannel, j);
    RestSettles(c, s.banks, s.buses, s.cycle, j);
  }

  lemma Moved(all: multiset<nat>, held: multiset<nat>, now: multiset<nat>, gone: multiset<nat>,
              ended: multiset<nat>, dropped: multiset<nat>)
    requires all == held + ended + dropped && now + gone == held
    ensures all == now + (ended + gone) + dropped
  {
  }

  lemma TickAccounted(c: Config, s: System)
    requires Shaped(c, s) && Accounted(s)
    ensures Accounted(TickStep(c, s))
  {
    CycleHolds(c, s.banks, s.buses, s.cycle);
    Moved(s.accepted, HeldBy(s.banks), HeldBy(TickStep(c, s).banks),
          Ids(EndedBy(c, s)), s.ended, s.dropped);
  }

  lemma TickSound(c: Config, s: System)
    requires Sound(c, s) && InTime(c, s)
    ensures Sound(c, TickStep(c, s))
  {
    CycleOk(c, s.banks, s.buses, s.cycle);
    TickAccounted(c, s);
    forall j | 0 <= j < |s.banks| && WantsCommand(TickStep(c, s).banks[j])
      ensures TickStep(c, s).banks[j].timestamp < s.cycle + 1
    {
      TickStamps(c, s, j);
    }
  }

  lemma {:induction false} NothingHeld(banks: seq<Bank>)
    requires forall i | 0 <= i < |banks| :: banks[i].buffer == [] && banks[i].current == None
    ensures HeldBy(banks) == multiset{}
  {
    if banks != [] {
      HeldLast(banks);
      NothingHeld(banks[..|banks| - 1]);
    }
  }

  /** In every run that stays in time, every bank machine is safe, and every accepted request is at exactly
      one place: held by a bank, ended, or dropped. */
  lemma {:induction false} EveryRunIsSound(c: Config, states: seq<System>, events: seq<Event>, i: nat)
    requires IsRun(c, states, events) && i < |states|
    ensures Sound(c, states[i])
  {
    if i == 0 {
      EmptyBankOk(c.entries);
      NothingHeld(Begin(c).banks);
    } else {
      EveryRunIsSound(c, states, events, i - 1);
      var s, ev := states[i - 1], events[i - 1];
      assert Follows(c, s, ev, states[i - 1 + 1]);
      match ev {
        case Arrive(_, _, _, _, _, _) => ArriveSound(c, s, ev);
        case Tick => TickSound(c, s);
      }
    }
  }

  /** So a request that was accepted once is never finished twice, and never both finished and dropped. */
  lemma FinishedOnce(c: Config, states: seq<System>, events: seq<Event>, i: nat, req: nat)
    requires IsRun(c, states, events) && i < |states| && states[i].accepted[req] == 1
    ensures var s := states[i];
            HeldBy(s.banks)[req] + s.ended[req] + s.dropped[req] == 1
  {
    EveryRunIsSound(c, states, events, i);
  }

  // ---------- no overtaking, in every run ----------

  function ToChannels(s: System): Channels {
    Channels(s.banks, s.buses)
  }

  /** The states in which a cycle begins, from state `a` on. */
  function CycleStarts(states: seq<System>, events: seq<Event>, a: nat): (run: seq<Channels>)
    requires a <= |events| && |states| == |events| + 1
    decreases |events| - a
  {
    if a == |events| then []
    else (if events[a].Tick? then [ToChannels(states[a])] else []) + CycleStarts(states, events, a + 1)
  }

  /** `t` is `s` with more requests buffered. */
  ghost predicate Fuller(s: System, t: Channels) {
    && t.buses == s.buses && |t.banks| == |s.banks|
    && forall j | 0 <= j < |s.banks| :: OnlyBuffered(s.banks[j], t.banks[j])
  }

  lemma ArriveFuller(s: System, ev: Event)
    requires ev.Arrive? && ev.bid < |s.banks|
    ensures Fuller(s, ToChannels(ArriveStep(s, ev))) && ArriveStep(s, ev).cycle == s.cycle
  {
  }

  lemma {:induction false} NextCycleStart(c: Config, states: seq<System>, events: seq<Event>, a: nat)
    requires IsRun(c, states, events) && a <= |events|
    ensures var run := CycleStarts(states, events, a);
            run != [] ==> Fuller(states[a], run[0])
    decreases |events| - a
  {
    if a < |events| && events[a].Arrive? {
      assert Follows(c, states[a], events[a], states[a + 1]);
      ArriveFuller(states[a], events[a]);
      NextCycleStart(c, states, events, a + 1);
    }
  }

  ghost predicate CyclesOk(c: Config, run: seq<Channels>, start: nat) {
    c.Valid() && IsWindow(c, run, start)
  }

  ghost predicate SoundTick(c: Config, s: System, n: System) {
    Sound(c, s) && InTime(c, s) && n == TickStep(c, s)
  }

  lemma PrependTick(c: Config, s: System, n: System, rest: seq<Channels>)
    requires SoundTick(c, s, n) && CyclesOk(c, rest, n.cycle) && (rest != [] ==> Fuller(n, rest[0]))
    ensures CyclesOk(c, [ToChannels(s)] + rest, s.cycle)
  {
    PrependCycle(c, ToChannels(s), rest, s.cycle);
  }

  /** In a run whose events from `a + 1` on have been seen to, those from `a` on have been. */
  lemma EventBefore(c: Config, states: seq<System>, events: seq<Event>, a: nat)
    requires IsRun(c, states, events) && a < |events|
    ensures events[a].Tick? ==> SoundTick(c, states[a], states[a + 1])
    ensures events[a].Arrive? ==> states[a + 1].cycle == states[a].cycle
  {
    assert Follows(c, states[a], events[a], states[a + 1]);
    EveryRunIsSound(c, states, events, a);
    if events[a].Arrive? {
      ArriveFuller(states[a], events[a]);
    }
  }

  lemma CyclesBefore(c: Config, states: seq<System>, events: seq<Event>, a: nat)
    requires IsRun(c, states, events) && a < |events|
    requires CyclesOk(c, CycleStarts(states, events, a + 1), states[a + 1].cycle)
    ensures CyclesOk(c, CycleStarts(states, events, a), states[a].cycle)
  {
    var rest := CycleStarts(states, events, a + 1);
    EventBefore(c, states, events, a);
    NextCycleStart(c, states, events, a + 1);
    if events[a].Tick? {
      PrependTick(c, states[a], states[a + 1], rest);
      assert CycleStarts(states, events, a) == [ToChannels(states[a])] + rest;
    } else {
      assert CycleStarts(states, events, a) == rest;
    }
  }

  lemma {:induction false} CyclesAreRun(c: Config, states: seq<System>, events: seq<Event>, a: nat)
    requires IsRun(c, states, events) && a <= |events|
    ensures CyclesOk(c, CycleStarts(states, events, a), states[a].cycle)
    decreases |events| - a
  {
    if a < |events| {
      CyclesAreRun(c, states, events, a + 1);
      CyclesBefore(c, states, events, a);
    }
  }

  lemma PrependCycle(c: Config, first: Channels, rest: seq<Channels>, start: nat)
    requires c.Valid() && MacsimSchedule.StateOk(c, first, start) && IsWindow(c, rest, start + 1)
    requires rest != [] ==> rest[0].buses == MacsimSchedule.Cycle(c, first.banks, first.buses, start).buses
    requires rest != [] ==> forall j | 0 <= j < |first.banks| && j < |rest[0].banks| ::
               OnlyBuffered(MacsimSchedule.Cycle(c, first.banks, first.buses, start).banks[j], rest[0].banks[j])
    ensures IsWindow(c, [first] + rest, start)
  {
    var run := [first] + rest;
    forall n | 0 <= n < |run| ensures MacsimSchedule.StateOk(c, run[n], start + n) {
      if n > 0 {
        assert MacsimSchedule.StateOk(c, rest[n - 1], start + 1 + (n - 1));
      }
    }
    forall n | 0 <= n < |run| - 1 ensures NextChannels(c, run[n], run[n + 1], start + n) {
      if n > 0 {
        assert NextChannels(c, rest[n - 1], rest[n - 1 + 1], start + 1 + (n - 1));
      } else {
        assert MacsimSchedule.StateOk(c, rest[0], start + 1 + 0);
      }
    }
  }

  /** In every run: a bank that asks for the command bus is granted it within as many cycles as its channel
      has banks, however requests arrive meanwhile. */
  lemma GrantedInEveryRun(c: Config, states: seq<System>, events: seq<Event>, a: nat, i: nat, k: nat) returns (n: nat)
    requires IsRun(c, states, events) && a <= |events| && i < c.numChannel
    requires i * c.PerChannel() <= k < (i + 1) * c.PerChannel() <= c.numBank && k < |states[a].banks|
    requires WantsCommand(states[a].banks[k]) && c.PerChannel() <= |CycleStarts(states, events, a)|
    ensures n < c.PerChannel() && n < |CycleStarts(states, events, a)|
    ensures var s := CycleStarts(states, events, a)[n];
            |s.banks| == c.numBank && MacsimSchedule.Granted(c, s, i) == Some(k)
  {
    var run := CycleStarts(states, events, a);
    CyclesAreRun(c, states, events, a);
    NextCycleStart(c, states, events, a);
    OneBankAtLeast(i, k, c.PerChannel());
    var window := run[..c.PerChannel()];
    WindowIsRun(c, run, states[a].cycle, c.PerChannel());
    n := GrantWithin(c, window, states[a].cycle, i, k);
    assert MacsimSchedule.StateOk(c, run[n], states[a].cycle + n);
  }

  lemma WindowIsRun(c: Config, run: seq<Channels>, start: nat, n: nat)
    requires c.Valid() && IsWindow(c, run, start) && n <= |run|
    ensures IsWindow(c, run[..n], start)
  {
    forall m | 0 <= m < n - 1 ensures NextChannels(c, run[..n][m], run[..n][m + 1], start + m) {
      assert NextChannels(c, run[m], run[m + 1], start + m);
    }
  }

  lemma OneBankAtLeast(i: nat, k: nat, n: nat)
    requires i * n <= k < (i + 1) * n
    ensures 0 < n
  {
  }

  // ---------- the data buses, in every run ----------

  /** The transfers on channel `i` while event `ev` happens in `s`. */
  function TransfersIn(c: Config, s: System, ev: Event, i: nat): seq<Transfer>
    requires Shaped(c, s) && i < c.numChannel
  {
    if ev.Tick? then Grants(c, CommandPhase(c, s.banks, s.cycle, c.numChannel), s.buses, s.cycle, i) else []
  }

  /** The transfers on channel `i` from state `a` to state `b`. */
  ghost function Transfers(c: Config, states: seq<System>, events: seq<Event>, a: nat, b: nat, i: nat): seq<Transfer>
    requires IsRun(c, states, events) && a <= b <= |events| && i < c.numChannel
  {
    if a == b then []
    else
      assert Follows(c, states[b - 1], events[b - 1], states[b - 1 + 1]);
      Transfers(c, states, events, a, b - 1, i) + TransfersIn(c, states[b - 1], events[b - 1], i)
  }

  lemma EventMovesBus(c: Config, s: System, ev: Event, t: System, i: nat)
    requires Follows(c, s, ev, t) && i < c.numChannel
    ensures i < |t.buses| && InOrder(s.buses[i], c.width, TransfersIn(c, s, ev, i))
    ensures t.buses[i] == After(s.buses[i], c.width, TransfersIn(c, s, ev, i))
  {
    if ev.Tick? {
      GrantsOnBus(c, CommandPhase(c, s.banks, s.cycle, c.numChannel), s.buses, s.cycle, c.numChannel, i);
    }
  }

  lemma NextMovesBus(c: Config, bus: Bus, s: System, ev: Event, t: System, i: nat, ts: seq<Transfer>)
    requires Follows(c, s, ev, t) && i < c.numChannel && Moves(c.width, bus, ts, s.buses[i])
    ensures i < |t.buses| && Moves(c.width, bus, ts + TransfersIn(c, s, ev, i), t.buses[i])
  {
    EventMovesBus(c, s, ev, t, i);
    Compose(bus, c.width, ts, TransfersIn(c, s, ev, i));
  }

  lemma RunIsShaped(c: Config, states: seq<System>, events: seq<Event>, a: nat)
    requires IsRun(c, states, events) && a <= |events|
    ensures Shaped(c, states[a])
  {
    EveryRunIsSound(c, states, events, a);
  }

  ghost predicate ChannelMoves(c: Config, states: seq<System>, events: seq<Event>, a: nat, b: nat, i: nat)
    requires IsRun(c, states, events) && a <= b <= |events| && i < c.numChannel
  {
    && i < |states[a].buses| && i < |states[b].buses|
    && Moves(c.width, states[a].buses[i], Transfers(c, states, events, a, b, i), states[b].buses[i])
  }

  lemma ChannelMovesOn(c: Config, states: seq<System>, events: seq<Event>, a: nat, b: nat, i: nat)
    requires IsRun(c, states, events) && a <= b < |events| && i < c.numChannel
             && ChannelMoves(c, states, events, a, b, i)
    ensures ChannelMoves(c, states, events, a, b + 1, i)
  {
    assert Follows(c, states[b], events[b], states[b + 1]);
    NextMovesBus(c, states[a].buses[i], states[b], events[b], states[b + 1], i, Transfers(c, states, events, a, b, i));
  }

  lemma {:induction false} RunMovesBus(c: Config, states: seq<System>, events: seq<Event>, a: nat, b: nat, i: nat)
    requires IsRun(c, states, events) && a <= b <= |events| && i < c.numChannel
    ensures ChannelMoves(c, states, events, a, b, i)
  {
    if a == b {
      RunIsShaped(c, states, events, a);
    } else {
      RunMovesBus(c, states, events, a, b - 1, i);
      ChannelMovesOn(c, states, events, a, b - 1, i);
    }
  }

  /** In every run and between any two of its states, a channel moves less than its width times the cycles that
      its bus has been handed out for. */
  lemma EveryRunFitsTheBus(c: Config, states: seq<System>, events: seq<Event>, a: nat, b: nat, i: nat)
    requires IsRun(c, states, events) && a <= b <= |events| && i < c.numChannel
    ensures Shaped(c, states[a]) && Shaped(c, states[b])
    ensures FitsCycles(Bytes(Transfers(c, states, events, a, b, i)), c.width, states[a].buses[i].ready,
                       states[b].buses[i].ready)
  {
    RunIsShaped(c, states, events, a);
    RunIsShaped(c, states, events, b);
    RunMovesBus(c, states, events, a, b, i);
    NeverFasterThanTheBus(states[a].buses[i], c.width, Transfers(c, states, events, a, b, i));
  }
}
