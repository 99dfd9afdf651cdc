/** What becomes of a request of a known kind, in every run of MacSim's DRAM controller. */
module MacsimKinds {
  import opened MacsimBanks
  import opened MacsimSchedule
  import opened MacsimDram
  import opened MacsimRuns

  /** Whatever carries request `req` is of one of these kinds. */
  predicate Carry(es: seq<Entry>, req: nat, kinds: set<Kind>) {
    forall e | e in es && e.req == req :: e.kind in kinds
  }

  predicate BankCarries(b: Bank, req: nat, kinds: set<Kind>) {
    Carry(b.buffer, req, kinds) && Carry(Current(b), req, kinds)
  }

  predicate AllCarry(banks: seq<Bank>, req: nat, kinds: set<Kind>) {
    forall i | 0 <= i < |banks| :: BankCarries(banks[i], req, kinds)
  }

  /** The first `n` events let request `req` arrive only as one of these kinds. */
  predicate ArrivesAs(events: seq<Event>, n: nat, req: nat, kinds: set<Kind>)
    requires n <= |events|
  {
    forall i | 0 <= i < n && events[i].Arrive? && events[i].req == req :: events[i].kind in kinds
  }

  // ---------- the filters ----------

  lemma {:induction false} DroppedIsPrefetch(es: seq<Entry>)
    ensures forall e | e in OnlyPrefetches(es) :: e in es && e.kind == Prefetch
    ensures forall e | e in NoPrefetches(es) :: e in es
  {
    if es != [] {
      var init, last := es[..|es| - 1], es[|es| - 1];
      DroppedIsPrefetch(init);
      assert es == init + [last];
    }
  }

  lemma {:induction false} AddrIsPart(es: seq<Entry>, addr: nat)
    ensures forall e | e in SameAddr(es, addr) || e in OtherAddr(es, addr) :: e in es
  {
    if es != [] {
      var init, last := es[..|es| - 1], es[|es| - 1];
      AddrIsPart(init, addr);
      assert es == init + [last];
      forall e | e in SameAddr(es, addr) || e in OtherAddr(es, addr) ensures e in es {
        assert e in SameAddr(init, addr) || e in OtherAddr(init, addr) || e == last;
      }
    }
  }

  lemma {:induction false} IdsNone(es: seq<Entry>, req: nat)
    requires forall e | e in es :: e.req != req
    ensures Ids(es)[req] == 0
  {
    if es != [] {
      IdsNone(es[..|es| - 1], req);
    }
  }

  lemma {:induction false} RepliesTo(es: seq<Entry>, req: nat, kinds: set<Kind>)
    requires Carry(es, req, kinds)
    ensures WriteBack !in kinds ==> multiset(Replies(es))[req] == Ids(es)[req]
    ensures kinds == {WriteBack} ==> multiset(Replies(es))[req] == 0
  {
    if es != [] {
      var init, last := es[..|es| - 1], es[|es| - 1];
      assert last in es && forall e | e in init :: e in es;
      RepliesTo(init, req, kinds);
    }
  }

  // ---------- every event keeps it so ----------

  lemma AcceptCarries(b: Bank, e: Entry, req: nat, kinds: set<Kind>)
    requires BankCarries(b, req, kinds) && (e.req == req ==> e.kind in kinds) && Accept(b, e).Some?
    ensures BankCarries(Accept(b, e).value, req, kinds)
    ensures Prefetch !in kinds ==> Ids(Dropping(b))[req] == 0
  {
    DroppedIsPrefetch(b.buffer);
    if Prefetch !in kinds {
      forall x | x in Dropping(b) ensures x.req != req {
        assert x in b.buffer;
      }
      IdsNone(Dropping(b), req);
    }
  }

  lemma SameCarries(b: Bank, n: Bank, req: nat, kinds: set<Kind>)
    requires SameEntries(b, n) && BankCarries(b, req, kinds)
    ensures BankCarries(n, req, kinds)
  {
    if b.current.Some? {
      assert b.current.value in Current(b);
    }
  }

  lemma CompleteCarries(b: Bank, cycle: nat, merge: bool, req: nat, kinds: set<Kind>)
    requires BankCarries(b, req, kinds)
    ensures BankCarries(Complete(b, cycle, merge), req, kinds) && Carry(Ending(b, cycle, merge), req, kinds)
  {
    if b.current.Some? {
      AddrIsPart(b.buffer, b.current.value.addr);
    }
  }

  lemma NewCarries(b: Bank, cycle: nat, frfcfs: bool, req: nat, kinds: set<Kind>)
    requires BankCarries(b, req, kinds)
    ensures BankCarries(New(b, cycle, frfcfs), req, kinds)
  {
    SortKeeps(b.buffer, b.rid);
    if b.current.None? && b.buffer != [] {
      var es := Order(frfcfs, b.buffer, b.rid);
      forall e | e in es ensures e in b.buffer {
        assert e in multiset(es);
      }
      assert es[0] in es;
    } else if b.current.Some? {
      assert b.current.value in Current(b);
    }
  }

  lemma {:induction false} EndingCarries(banks: seq<Bank>, cycle: nat, merge: bool, req: nat, kinds: set<Kind>)
    requires AllCarry(banks, req, kinds)
    ensures Carry(EndingIn(banks, cycle, merge), req, kinds)
  {
    if banks != [] {
      EndingCarries(banks[..|banks| - 1], cycle, merge, req, kinds);
      CompleteCarries(banks[|banks| - 1], cycle, merge, req, kinds);
    }
  }

  lemma GrantsCarry(c: Config, s: System, req: nat, kinds: set<Kind>)
    requires Shaped(c, s) && AllCarry(s.banks, req, kinds)
    ensures AllCarry(AfterGrants(c, s.banks, s.buses, s.cycle), req, kinds)
  {
    var mid := CommandPhase(c, s.banks, s.cycle, c.numChannel);
    var d := AfterGrants(c, s.banks, s.buses, s.cycle);
    CommandPhaseContents(c, s.banks, s.cycle, c.numChannel);
    DataPhaseContents(c, mid, s.buses, s.cycle, c.numChannel);
    SameContentsTrans(s.banks, mid, d);
    forall i | 0 <= i < |d| ensures BankCarries(d[i], req, kinds) {
      SameCarries(s.banks[i], d[i], req, kinds);
    }
  }

  lemma TickCarries(c: Config, s: System, req: nat, kinds: set<Kind>)
    requires Shaped(c, s) && AllCarry(s.banks, req, kinds)
    ensures AllCarry(TickStep(c, s).banks, req, kinds) && Carry(EndedBy(c, s), req, kinds)
  {
    GrantsCarry(c, s, req, kinds);
    var d := AfterGrants(c, s.banks, s.buses, s.cycle);
    EndingCarries(d, s.cycle, c.merge, req, kinds);
    forall i | 0 <= i < |d| ensures BankCarries(TickStep(c, s).banks[i], req, kinds) {
      CompleteCarries(d[i], s.cycle, c.merge, req, kinds);
      NewCarries(Complete(d[i], s.cycle, c.merge), s.cycle, c.frfcfs, req, kinds);
    }
  }

  /** What a run that lets `req` arrive as these kinds has done with it. */
  ghost predicate Treated(s: System, req: nat, kinds: set<Kind>) {
    && AllCarry(s.banks, req, kinds)
    && (Prefetch !in kinds ==> s.dropped[req] == 0)
    && (WriteBack !in kinds ==> s.answered[req] == s.ended[req])
    && (kinds == {WriteBack} ==> s.answered[req] == 0)
  }

  lemma ArriveTreats(s: System, ev: Event, req: nat, kinds: set<Kind>)
    requires Treated(s, req, kinds) && ev.Arrive? && ev.bid < |s.banks| && (ev.req == req ==> ev.kind in kinds)
    ensures Treated(ArriveStep(s, ev), req, kinds)
  {
    var e := Entry(0, Init, ev.addr, ev.rid, ev.size, s.cycle, ev.kind, ev.req);
    if Accept(s.banks[ev.bid], e).Some? {
      AcceptCarries(s.banks[ev.bid], e, req, kinds);
    }
  }

  lemma TickTreats(c: Config, s: System, req: nat, kinds: set<Kind>)
    requires Shaped(c, s) && Treated(s, req, kinds)
    ensures Treated(TickStep(c, s), req, kinds)
  {
    TickCarries(c, s, req, kinds);
    RepliesTo(EndedBy(c, s), req, kinds);
  }

  lemma {:induction false} RunTreats(c: Config, states: seq<System>, events: seq<Event>, i: nat, req: nat,
                                     kinds: set<Kind>)
    requires IsRun(c, states, events) && i <= |events| && ArrivesAs(events, i, req, kinds)
    ensures Treated(states[i], req, kinds)
  {
    if i > 0 {
      RunTreats(c, states, events, i - 1, req, kinds);
      assert Follows(c, states[i - 1], events[i - 1], states[i - 1 + 1]);
      if events[i - 1].Arrive? {
        ArriveTreats(states[i - 1], events[i - 1], req, kinds);
      } else {
        TickTreats(c, states[i - 1], req, kinds);
      }
    }
  }

  // ---------- what that means ----------

  /** A request that never arrives as a prefetch is never dropped: all that was accepted is held or has ended. */
  lemma OnlyPrefetchesAreDropped(c: Config, states: seq<System>, events: seq<Event>, i: nat, req: nat)
    requires IsRun(c, states, events) && i <= |events| && ArrivesAs(events, i, req, {WriteBack, Demand})
    ensures var s := states[i];
            s.dropped[req] == 0 && s.accepted[req] == HeldBy(s.banks)[req] + s.ended[req]
  {
    RunTreats(c, states, events, i, req, {WriteBack, Demand});
    EveryRunIsSound(c, states, events, i);
  }

  /** A request that never arrives as a write-back is answered exactly as often as it ends, and a request that
      arrives only as a write-back is never answered. */
  lemma EndedIsAnswered(c: Config, states: seq<System>, events: seq<Event>, i: nat, req: nat)
    requires IsRun(c, states, events) && i <= |events|
    ensures ArrivesAs(events, i, req, {Prefetch, Demand}) ==> states[i].answered[req] == states[i].ended[req]
    ensures ArrivesAs(events, i, req, {WriteBack}) ==> states[i].answered[req] == 0
  {
    if ArrivesAs(events, i, req, {Prefetch, Demand}) {
      RunTreats(c, states, events, i, req, {Prefetch, Demand});
    }
    if ArrivesAs(events, i, req, {WriteBack}) {
      RunTreats(c, states, events, i, req, {WriteBack});
    }
  }

  /** So a demand that was accepted once is held, or has been answered exactly once. */
  lemma DemandAnsweredOnce(c: Config, states: seq<System>, events: seq<Event>, i: nat, req: nat)
    requires IsRun(c, states, events) && i <= |events| && ArrivesAs(events, i, req, {Demand})
    requires states[i].accepted[req] == 1
    ensures HeldBy(states[i].banks)[req] + states[i].answered[req] == 1
  {
    OnlyPrefetchesAreDropped(c, states, events, i, req);
    EndedIsAnswered(c, states, events, i, req);
  }
}
