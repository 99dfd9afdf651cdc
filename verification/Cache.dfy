/** MacSim's set-associative cache, updated in place, and its runs. */
module Cache {
  import opened Options
  import opened CacheLines
  import opened CacheAddress

  type Sets = seq<seq<Line>>

  predicate Sized(g: Geometry, sets: Sets) {
    |sets| == g.numSets && forall s | 0 <= s < |sets| :: |sets[s]| == g.assoc
  }

  /** `base` is the address of the line that holds `addr`. */
  predicate IsBase(g: Geometry, base: nat, addr: nat)
    requires g.Valid()
  {
    base % g.LineBytes() == 0 && base <= addr < base + g.LineBytes()
  }

  const EMPTY := Line(false, 0, 0, 0, false, false, 0, false, false)

  class SetAssocCache {
    const g: Geometry
    const entry: array2<Line>

    predicate Valid() {
      g.Valid() && entry.Length0 == g.numSets && entry.Length1 == g.assoc
    }

    /** The lines of set `s`. */
    function Lines(s: nat): (r: seq<Line>)
      requires s < entry.Length0
      reads entry
      ensures |r| == entry.Length1
    {
      seq(entry.Length1, w requires 0 <= w < entry.Length1 reads entry => entry[s, w])
    }

    function State(): (r: Sets)
      reads entry
      ensures |r| == entry.Length0 && forall s | 0 <= s < |r| :: |r[s]| == entry.Length1 && r[s] == Lines(s)
    {
      seq(entry.Length0, s requires 0 <= s < entry.Length0 reads entry => Lines(s))
    }

    constructor (g: Geometry)
      requires g.Valid()
      ensures Valid() && this.g == g && fresh(entry) && State() == EmptySets(g)
    {
      this.g := g;
      entry := new Line[g.numSets, g.assoc]((_, _) => EMPTY);
      new;
      forall s | 0 <= s < g.numSets ensures Lines(s) == EmptySets(g)[s] {
      }
    }

    /** Write one line; nothing else changes. */
    method Write(s: nat, w: nat, line: Line)
      requires s < entry.Length0 && w < entry.Length1
      modifies entry
      ensures State() == old(State())[s := old(Lines(s))[w := line]]
    {
      ghost var before, lines := State(), Lines(s);
      entry[s, w] := line;
      assert Lines(s) == lines[w := line];
      forall t | 0 <= t < entry.Length0 && t != s ensures Lines(t) == before[t] {
      }
    }

    /** The first way of set `s` that holds `tag`. */
    method Find(s: nat, tag: nat) returns (r: Option<nat>)
      requires s < entry.Length0
      ensures r == Lookup(Lines(s), tag)
    {
      var w := 0;
      while w < entry.Length1 && !(entry[s, w].valid && entry[s, w].tag == tag)
        invariant w <= entry.Length1
        invariant forall v | 0 <= v < w :: !Matches(Lines(s)[v], tag)
      {
        w := w + 1;
      }
      r := if w < entry.Length1 then Some(w) else None;
      assert w < entry.Length1 ==> Matches(Lines(s)[w], tag);
    }

    /** Access `addr` at time `now`; `hit` is the way whose data is handed out. */
    method AccessCache(addr: nat, updateRepl: bool, now: nat) returns (lineAddr: Option<nat>, hit: Option<nat>)
      requires Valid()
      modifies entry
      ensures g.bypass ==> lineAddr == None && hit == None
      ensures !g.bypass ==> lineAddr == Some(g.BaseLine(addr)) && IsBase(g, lineAddr.value, addr)
      ensures !g.bypass ==> hit == Lookup(old(State())[g.SetOf(addr)], g.TagOf(addr))
      ensures State() == AccessStep(g, old(State()), addr, updateRepl, now)
      ensures var s := g.SetOf(addr);
              var lines := old(State())[s];
              State() == if hit.Some? && updateRepl
                         then old(State())[s := lines[hit.value := lines[hit.value].(pref := false, time := now)]]
                         else old(State())
    {
      g.BaseIs(addr);
      if g.bypass {
        return None, None;
      }
      var tag, s := g.TagOf(addr), g.SetOf(addr);
      lineAddr := Some(g.BaseLine(addr));
      hit := Find(s, tag);
      assert old(State())[s := old(State())[s]] == old(State());
      if hit.Some? && updateRepl {
        Write(s, hit.value, Touched(entry[s, hit.value], now));
      }
    }

    /** A free way of set `s`, or else the way that was accessed longest ago. */
    method FindReplacementLine(s: nat) returns (w: nat)
      requires Valid() && s < entry.Length0
      ensures w == Victim(Lines(s))
    {
      w := 0;
      ghost var lines := Lines(s);
      var i, time := 0, MAX_INT;
      while i < entry.Length1
        invariant i <= entry.Length1 && w < entry.Length1
        invariant forall v | 0 <= v < i :: entry[s, v].valid
        invariant Oldest(lines[..i]).Some? ==> w == Oldest(lines[..i]).value && time == entry[s, w].time
        invariant Oldest(lines[..i]).None? ==> w == 0 && time == MAX_INT
      {
        assert lines[i] == entry[s, i];
        if !entry[s, i].valid {
          assert Free(lines) == Some(i);
          return i;
        }
        assert lines[..i + 1][..i] == lines[..i];
        if entry[s, i].time < time {
          w, time := i, entry[s, i].time;
        }
        i := i + 1;
      }
      assert lines[..i] == lines;
      assert Free(lines).None?;
    }

    /** Insert the line of `addr` at time `now` into way `w` of its set; `updated` is the line it drives out. */
    method InsertCache(addr: nat, applId: int, gpuline: bool, skip: bool, now: nat)
      returns (lineAddr: nat, updated: nat, w: nat)
      requires Valid()
      modifies entry
      ensures lineAddr == g.BaseLine(addr) && w == Victim(old(Lines(g.SetOf(addr))))
      ensures updated == if old(Lines(g.SetOf(addr)))[w].valid then old(Lines(g.SetOf(addr)))[w].base else 0
      ensures State() == InsertStep(g, old(State()), addr, applId, gpuline, skip, now)
      ensures IsBase(g, lineAddr, addr)
      ensures var s := g.SetOf(addr);
              var lines := old(State())[s];
              State() == old(State())[s := lines[w := Line(true, g.TagOf(addr), lineAddr, now, false, lines[w].dirty,
                                                           applId, gpuline, skip)]]
    {
      g.BaseIs(addr);
      lineAddr := g.BaseLine(addr);
      var tag, s := g.TagOf(addr), g.SetOf(addr);
      w := FindReplacementLine(s);
      updated := if entry[s, w].valid then entry[s, w].base else 0;
      Write(s, w, Filled(entry[s, w], tag, g.BaseLine(addr), now, applId, gpuline, skip));
    }

    /** Drop the line of `addr` if it is there; the result tells whether it was dirty. */
    method InvalidateCacheLine(addr: nat) returns (dirty: bool)
      requires Valid()
      modifies entry
      ensures State() == InvalidateStep(g, old(State()), addr)
      ensures var lines := old(State())[g.SetOf(addr)];
              dirty <==> Lookup(lines, g.TagOf(addr)).Some? && lines[Lookup(lines, g.TagOf(addr)).value].dirty
    {
      var tag, s := g.TagOf(addr), g.SetOf(addr);
      var hit := Find(s, tag);
      assert old(State())[s := old(State())[s]] == old(State());
      dirty := false;
      if hit.Some? {
        dirty := entry[s, hit.value].dirty;
        Write(s, hit.value, Nulled(entry[s, hit.value]));
      }
    }
  }

  // ---------- the operations on values ----------

  function EmptySets(g: Geometry): (sets: Sets)
    ensures Sized(g, sets)
  {
    seq(g.numSets, s => seq(g.assoc, w => EMPTY))
  }

  function AccessStep(g: Geometry, sets: Sets, addr: nat, update: bool, now: nat): (r: Sets)
    requires g.Valid() && Sized(g, sets)
    ensures Sized(g, r)
  {
    if g.bypass then sets
    else sets[g.SetOf(addr) := AccessLines(sets[g.SetOf(addr)], g.TagOf(addr), now, update)]
  }

  function InsertStep(g: Geometry, sets: Sets, addr: nat, applId: int, gpuline: bool, skip: bool, now: nat): (r: Sets)
    requires g.Valid() && Sized(g, sets)
    ensures Sized(g, r)
  {
    var lines := sets[g.SetOf(addr)];
    sets[g.SetOf(addr) := InsertLines(lines,
      Filled(lines[Victim(lines)], g.TagOf(addr), g.BaseLine(addr), now, applId, gpuline, skip))]
  }

  function InvalidateStep(g: Geometry, sets: Sets, addr: nat): (r: Sets)
    requires g.Valid() && Sized(g, sets)
    ensures Sized(g, r)
  {
    sets[g.SetOf(addr) := InvalidateLines(sets[g.SetOf(addr)], g.TagOf(addr))]
  }

  // ---------- runs ----------

  datatype Event =
    | Access(now: nat, addr: nat, update: bool)
    | Insert(now: nat, addr: nat, applId: int, gpuline: bool, skip: bool)
    | Invalidate(now: nat, addr: nat)

  function Step(g: Geometry, sets: Sets, e: Event): (r: Sets)
    requires g.Valid() && Sized(g, sets)
    ensures Sized(g, r)
  {
    match e
    case Access(now, addr, update) => AccessStep(g, sets, addr, update, now)
    case Insert(now, addr, applId, gpuline, skip) => InsertStep(g, sets, addr, applId, gpuline, skip, now)
    case Invalidate(now, addr) => InvalidateStep(g, sets, addr)
  }

  function Run(g: Geometry, es: seq<Event>): (sets: Sets)
    requires g.Valid()
    ensures Sized(g, sets)
  {
    if es == [] then EmptySets(g) else Step(g, Run(g, es[..|es| - 1]), es[|es| - 1])
  }

  /** One LRU stack of tags for each set. */
  function StackStep(g: Geometry, stacks: seq<seq<nat>>, e: Event): (r: seq<seq<nat>>)
    requires g.Valid() && |stacks| == g.numSets
    ensures |r| == |stacks|
  {
    var s, tag := g.SetOf(e.addr), g.TagOf(e.addr);
    match e
    case Access(_, _, update) => if g.bypass || !update then stacks else stacks[s := Touch(stacks[s], tag)]
    case Insert(_, _, _, _, _) => stacks[s := Push(stacks[s], tag, g.assoc)]
    case Invalidate(_, _) => stacks[s := Remove(stacks[s], tag)]
  }

  function Stacks(g: Geometry, es: seq<Event>): (r: seq<seq<nat>>)
    requires g.Valid()
    ensures |r| == g.numSets
  {
    if es == [] then seq(g.numSets, s => []) else StackStep(g, Stacks(g, es[..|es| - 1]), es[|es| - 1])
  }

  /** The event may write its time into a line of its set. */
  predicate Stamps(g: Geometry, e: Event) {
    e.Insert? || (e.Access? && e.update && !g.bypass)
  }

  predicate StampsSet(g: Geometry, e: Event, s: nat)
    requires g.Valid()
  {
    Stamps(g, e) && g.SetOf(e.addr) == s
  }

  /** Within each set the times that are stamped increase and stay below `MAX_INT`, and a line is inserted only
      while it is not on its stack. */
  ghost predicate Disciplined(g: Geometry, es: seq<Event>)
    requires g.Valid()
  {
    && (forall i, j | 0 <= i < j < |es| && Stamps(g, es[j]) && StampsSet(g, es[i], g.SetOf(es[j].addr)) ::
          es[i].now < es[j].now)
    && (forall i | 0 <= i < |es| && Stamps(g, es[i]) :: es[i].now < MAX_INT)
    && (forall i | 0 <= i < |es| && es[i].Insert? :: g.TagOf(es[i].addr) !in Stacks(g, es[..i])[g.SetOf(es[i].addr)])
  }

  ghost predicate AllRefine(sets: Sets, orders: seq<seq<nat>>, stacks: seq<seq<nat>>) {
    |sets| == |orders| == |stacks| && forall s | 0 <= s < |sets| :: Refines(sets[s], orders[s], stacks[s])
  }

  lemma StepTimes(g: Geometry, sets: Sets, e: Event, s: nat, now: nat)
    requires g.Valid() && Sized(g, sets) && s < |sets| && Before(sets[s], now)
    requires StampsSet(g, e, s) ==> e.now < now
    ensures Before(Step(g, sets, e)[s], now)
  {
  }

  /** A line of a set carries a time that was stamped there. */
  lemma {:induction false} RunTimes(g: Geometry, es: seq<Event>, s: nat, now: nat)
    requires g.Valid() && s < g.numSets && forall i | 0 <= i < |es| && StampsSet(g, es[i], s) :: es[i].now < now
    ensures Before(Run(g, es)[s], now)
  {
    if es != [] {
      RunTimes(g, es[..|es| - 1], s, now);
      StepTimes(g, Run(g, es[..|es| - 1]), es[|es| - 1], s, now);
    }
  }

  lemma StepRefines(g: Geometry, sets: Sets, orders: seq<seq<nat>>, stacks: seq<seq<nat>>, e: Event)
    returns (r: seq<seq<nat>>)
    requires g.Valid() && Sized(g, sets) && AllRefine(sets, orders, stacks)
    requires var lines := sets[g.SetOf(e.addr)];
             Stamps(g, e) ==> Before(lines, e.now) && Before(lines, MAX_INT)
    requires e.Insert? ==> g.TagOf(e.addr) !in stacks[g.SetOf(e.addr)]
    ensures AllRefine(Step(g, sets, e), r, StackStep(g, stacks, e))
  {
    var s, tag := g.SetOf(e.addr), g.TagOf(e.addr);
    var lines := sets[s];
    assert Refines(lines, orders[s], stacks[s]);
    var order := orders[s];
    match e {
      case Access(now, addr, update) =>
        if !g.bypass && update {
          order := AccessRefines(lines, order, stacks[s], tag, now, true);
        }
      case Insert(now, addr, applId, gpuline, skip) =>
        order := InsertRefines(lines, order, stacks[s],
                               Filled(lines[Victim(lines)], tag, g.BaseLine(addr), now, applId, gpuline, skip));
      case Invalidate(now, addr) =>
        order := InvalidateRefines(lines, order, stacks[s], tag);
    }
    r := orders[s := order];
  }

  lemma PrefixIsDisciplined(g: Geometry, es: seq<Event>)
    requires g.Valid() && es != [] && Disciplined(g, es)
    ensures Disciplined(g, es[..|es| - 1])
  {
    var p := es[..|es| - 1];
    forall i | 0 <= i < |p| && p[i].Insert? ensures g.TagOf(p[i].addr) !in Stacks(g, p[..i])[g.SetOf(p[i].addr)] {
      assert p[..i] == es[..i];
    }
  }

  /** After every disciplined run, the valid lines of each set, latest access first, are that set's LRU stack. */
  lemma {:induction false} EveryRunRefines(g: Geometry, es: seq<Event>) returns (orders: seq<seq<nat>>)
    requires g.Valid() && Disciplined(g, es)
    ensures AllRefine(Run(g, es), orders, Stacks(g, es))
  {
    if es == [] {
      orders := seq(g.numSets, s => []);
    } else {
      var p, e := es[..|es| - 1], es[|es| - 1];
      PrefixIsDisciplined(g, es);
      var before := EveryRunRefines(g, p);
      if Stamps(g, e) {
        RunTimes(g, p, g.SetOf(e.addr), e.now);
        RunTimes(g, p, g.SetOf(e.addr), MAX_INT);
      }
      orders := StepRefines(g, Run(g, p), before, Stacks(g, p), e);
    }
  }

  /** Hence a lookup hits exactly if the line of the address is on the stack of its set. */
  lemma HitsAfterRun(g: Geometry, es: seq<Event>, addr: nat)
    requires g.Valid() && Disciplined(g, es)
    ensures Lookup(Run(g, es)[g.SetOf(addr)], g.TagOf(addr)).Some? <==> g.TagOf(addr) in Stacks(g, es)[g.SetOf(addr)]
  {
    var orders := EveryRunRefines(g, es);
    var s := g.SetOf(addr);
    HitsIff(Run(g, es)[s], orders[s], Stacks(g, es)[s], g.TagOf(addr));
  }

  // ---------- what the lines stand for ----------

  /** `line` of set `s` was inserted by `e`: it has the tag of an address of that set, and the base of its line. */
  predicate InsertedBy(g: Geometry, line: Line, s: nat, e: Event)
    requires g.Valid()
  {
    && e.Insert? && g.SetOf(e.addr) == s && line.tag == g.TagOf(e.addr) && IsBase(g, line.base, e.addr)
    && line.applId == e.applId && line.gpuline == e.gpuline && line.skip == e.skip && !line.pref
  }

  ghost predicate LinesAreReal(g: Geometry, lines: seq<Line>, s: nat, es: seq<Event>)
    requires g.Valid()
  {
    forall w | 0 <= w < |lines| && lines[w].valid :: IsReal(g, lines[w], s, es)
  }

  ghost predicate IsReal(g: Geometry, line: Line, s: nat, es: seq<Event>)
    requires g.Valid()
  {
    exists i :: 0 <= i < |es| && InsertedBy(g, line, s, es[i])
  }

  lemma StaysReal(g: Geometry, line: Line, n: Line, s: nat, es: seq<Event>, e: Event)
    requires g.Valid() && IsReal(g, line, s, es) && n == line.(time := n.time)
    ensures IsReal(g, n, s, es + [e])
  {
    var i :| 0 <= i < |es| && InsertedBy(g, line, s, es[i]);
    assert (es + [e])[i] == es[i];
  }

  lemma StepIsReal(g: Geometry, sets: Sets, s: nat, es: seq<Event>, e: Event)
    requires g.Valid() && Sized(g, sets) && s < |sets| && LinesAreReal(g, sets[s], s, es)
    ensures LinesAreReal(g, Step(g, sets, e)[s], s, es + [e])
  {
    var after := Step(g, sets, e)[s];
    forall w | 0 <= w < |after| && after[w].valid ensures IsReal(g, after[w], s, es + [e]) {
      if e.Insert? && g.SetOf(e.addr) == s && w == Victim(sets[s]) {
        g.BaseIs(e.addr);
        assert InsertedBy(g, after[w], s, (es + [e])[|es|]);
      } else {
        assert IsReal(g, sets[s][w], s, es);
        StaysReal(g, sets[s][w], after[w], s, es, e);
      }
    }
  }

  /** After every run each valid line was inserted: it carries the tag of an address of its set, and the address of the
      line that holds it. */
  lemma {:induction false} EveryLineIsReal(g: Geometry, es: seq<Event>, s: nat)
    requires g.Valid() && s < g.numSets
    ensures LinesAreReal(g, Run(g, es)[s], s, es)
  {
    if es != [] {
      var init, e := es[..|es| - 1], es[|es| - 1];
      EveryLineIsReal(g, init, s);
      StepIsReal(g, Run(g, init), s, init, e);
      assert es == init + [e];
    }
  }

  /** So what an insertion drives out is the address of a line of the same set that was inserted before. */
  lemma EvictedIsReal(g: Geometry, es: seq<Event>, addr: nat)
    requires g.Valid()
    ensures var lines := Run(g, es)[g.SetOf(addr)];
            var gone := lines[Victim(lines)];
            gone.valid ==>
              exists i :: 0 <= i < |es| && es[i].Insert? && g.SetOf(es[i].addr) == g.SetOf(addr)
                          && g.TagOf(es[i].addr) == gone.tag && IsBase(g, gone.base, es[i].addr)
  {
    EveryLineIsReal(g, es, g.SetOf(addr));
    var lines := Run(g, es)[g.SetOf(addr)];
    var gone := lines[Victim(lines)];
    if gone.valid {
      assert IsReal(g, gone, g.SetOf(addr), es);
    }
  }
}
