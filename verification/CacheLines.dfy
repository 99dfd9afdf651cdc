/** One set of MacSim's cache, and its refinement of an LRU stack. */
module CacheLines {
  import opened Options

  /** Access times at or above this value are invisible to the search for the oldest line. */
  const MAX_INT := 0x7fff_ffff

  datatype Line = Line(valid: bool, tag: nat, base: nat, time: nat, pref: bool, dirty: bool,
                       applId: int, gpuline: bool, skip: bool)

  // ---------- what happens to the lines of a set ----------

  predicate Matches(line: Line, tag: nat) {
    line.valid && line.tag == tag
  }

  /** The first way that holds `tag`. */
  function Lookup(lines: seq<Line>, tag: nat): (r: Option<nat>)
    ensures r.None? ==> forall w | 0 <= w < |lines| :: !Matches(lines[w], tag)
    ensures r.Some? ==> r.value < |lines| && Matches(lines[r.value], tag)
                        && forall w | 0 <= w < r.value :: !Matches(lines[w], tag)
  {
    if lines == [] then None
    else
      var n := |lines| - 1;
      var p := Lookup(lines[..n], tag);
      if p.None? && Matches(lines[n], tag) then Some(n) else p
  }

  /** The first way that is free. */
  function Free(lines: seq<Line>): (r: Option<nat>)
    ensures r.None? ==> forall w | 0 <= w < |lines| :: lines[w].valid
    ensures r.Some? ==> r.value < |lines| && !lines[r.value].valid && forall w | 0 <= w < r.value :: lines[w].valid
  {
    if lines == [] then None
    else
      var n := |lines| - 1;
      var p := Free(lines[..n]);
      if p.None? && !lines[n].valid then Some(n) else p
  }

  /** The first way with the smallest access time below `MAX_INT`. */
  function Oldest(lines: seq<Line>): (r: Option<nat>)
    ensures r.None? ==> forall w | 0 <= w < |lines| :: MAX_INT <= lines[w].time
    ensures r.Some? ==> r.value < |lines| && lines[r.value].time < MAX_INT
                        && (forall w | 0 <= w < |lines| :: lines[r.value].time <= lines[w].time)
                        && (forall w | 0 <= w < r.value :: lines[r.value].time < lines[w].time)
  {
    if lines == [] then None
    else
      var n := |lines| - 1;
      var p := Oldest(lines[..n]);
      if lines[n].time < (if p.Some? then lines[p.value].time else MAX_INT) then Some(n) else p
  }

  /** The way that the next insertion replaces. */
  function Victim(lines: seq<Line>): (w: nat)
    requires lines != []
    ensures w < |lines|
  {
    if Free(lines).Some? then Free(lines).value
    else if Oldest(lines).Some? then Oldest(lines).value
    else 0
  }

  function Touched(line: Line, now: nat): Line {
    line.(pref := false, time := now)
  }

  function AccessLines(lines: seq<Line>, tag: nat, now: nat, update: bool): (r: seq<Line>)
    ensures |r| == |lines|
  {
    match Lookup(lines, tag)
    case Some(w) => if update then lines[w := Touched(lines[w], now)] else lines
    case None => lines
  }

  /** What an insertion writes; the dirty flag is left as it was. */
  function Filled(was: Line, tag: nat, base: nat, now: nat, applId: int, gpuline: bool, skip: bool): Line {
    Line(true, tag, base, now, false, was.dirty, applId, gpuline, skip)
  }

  function InsertLines(lines: seq<Line>, line: Line): (r: seq<Line>)
    requires lines != []
    ensures |r| == |lines|
  {
    lines[Victim(lines) := line]
  }

  function Nulled(line: Line): Line {
    line.(tag := 0, valid := false, base := 0)
  }

  function InvalidateLines(lines: seq<Line>, tag: nat): (r: seq<Line>)
    ensures |r| == |lines|
  {
    match Lookup(lines, tag)
    case Some(w) => lines[w := Nulled(lines[w])]
    case None => lines
  }

  // ---------- the LRU stack ----------

  function Remove(stack: seq<nat>, tag: nat): (r: seq<nat>)
    ensures |r| <= |stack|
  {
    if stack == [] then []
    else if stack[0] == tag then Remove(stack[1..], tag)
    else [stack[0]] + Remove(stack[1..], tag)
  }

  /** A hit moves a tag to the top. */
  function Touch(stack: seq<nat>, tag: nat): seq<nat> {
    if tag in stack then [tag] + Remove(stack, tag) else stack
  }

  /** A new tag goes to the top, and the bottom one drops out of a full stack. */
  function Push(stack: seq<nat>, tag: nat, depth: nat): seq<nat>
    requires 0 < depth
  {
    [tag] + if |stack| < depth then stack else stack[..depth - 1]
  }

  // ---------- lines by access time ----------

  /** `ways` lists the valid ways of a set, latest access first. */
  ghost predicate Ranked(lines: seq<Line>, ways: seq<nat>) {
    && (forall i | 0 <= i < |ways| :: ways[i] < |lines| && lines[ways[i]].valid)
    && (forall w | 0 <= w < |lines| && lines[w].valid :: w in ways)
    && (forall i, j | 0 <= i < j < |ways| :: lines[ways[j]].time < lines[ways[i]].time)
  }

  ghost predicate UniqueTags(lines: seq<Line>) {
    forall v, w | 0 <= v < w < |lines| && lines[v].valid && lines[w].valid :: lines[v].tag != lines[w].tag
  }

  ghost predicate Before(lines: seq<Line>, now: nat) {
    forall w | 0 <= w < |lines| && lines[w].valid :: lines[w].time < now
  }

  function Tags(lines: seq<Line>, ways: seq<nat>): (r: seq<nat>)
    requires forall i | 0 <= i < |ways| :: ways[i] < |lines|
    ensures |r| == |ways| && forall i | 0 <= i < |ways| :: r[i] == lines[ways[i]].tag
  {
    seq(|ways|, i requires 0 <= i < |ways| => lines[ways[i]].tag)
  }

  /** The valid lines of the set, ordered by access time, are the stack. */
  ghost predicate Refines(lines: seq<Line>, ways: seq<nat>, stack: seq<nat>) {
    Ranked(lines, ways) && UniqueTags(lines) && Tags(lines, ways) == stack
  }

  /** A lookup hits exactly if the tag is on the stack. */
  lemma HitsIff(lines: seq<Line>, ways: seq<nat>, stack: seq<nat>, tag: nat)
    requires Refines(lines, ways, stack)
    ensures Lookup(lines, tag).Some? <==> tag in stack
  {
    if Lookup(lines, tag).Some? {
      var w := Lookup(lines, tag).value;
      var i := IndexOf(ways, w);
      assert stack[i] == tag;
    }
    if tag in stack {
      var i := IndexOf(stack, tag);
      assert Matches(lines[ways[i]], tag);
    }
  }

  /** The order by access time is unique, so the lines determine the stack. */
  lemma RankIsUnique(lines: seq<Line>, a: seq<nat>, b: seq<nat>)
    requires Ranked(lines, a) && Ranked(lines, b)
    ensures a == b
  {
    SameWays(lines, a, b);
    SameWays(lines, b, a);
    if a != [] {
      SameFront(lines, a, b, |a| - 1);
    }
  }

  lemma {:induction false} SameFront(lines: seq<Line>, a: seq<nat>, b: seq<nat>, i: nat)
    requires Ranked(lines, a) && Ranked(lines, b) && i < |a| && i < |b|
    ensures forall k | 0 <= k <= i :: a[k] == b[k]
  {
    if i > 0 {
      SameFront(lines, a, b, i - 1);
    }
    assert a[i] in b && b[i] in a;
    var j := IndexOf(b, a[i]);
    var k := IndexOf(a, b[i]);
    assert i <= j && i <= k;
  }

  lemma SameWays(lines: seq<Line>, a: seq<nat>, b: seq<nat>)
    requires Ranked(lines, a) && Ranked(lines, b)
    ensures |a| <= |b|
  {
    if |b| < |a| {
      assert a[|b|] in b;
      var j := IndexOf(b, a[|b|]);
      SameFront(lines, a, b, j);
      assert false;
    }
  }

  lemma IndexOf(s: seq<nat>, x: nat) returns (i: nat)
    requires x in s
    ensures i < |s| && s[i] == x
  {
    i :| 0 <= i < |s| && s[i] == x;
  }

  // ---------- removal ----------

  lemma {:induction false} RemoveIs(s: seq<nat>, x: nat)
    ensures forall y :: y in Remove(s, x) <==> y in s && y != x
    ensures x !in s ==> Remove(s, x) == s
  {
    if s != [] {
      RemoveIs(s[1..], x);
      assert s == [s[0]] + s[1..];
    }
  }

  /** Taking a way out leaves the others in order. */
  lemma {:induction false} RemoveAt(s: seq<nat>, i: nat)
    requires i < |s| && forall j | 0 <= j < |s| && j != i :: s[j] != s[i]
    ensures Remove(s, s[i]) == s[..i] + s[i + 1..]
  {
    if i == 0 {
      RemoveIs(s[1..], s[0]);
      assert s[0] !in s[1..];
    } else {
      RemoveAt(s[1..], i - 1);
      assert s[1..][i - 1] == s[i];
      assert [s[0]] + s[1..][..i - 1] == s[..i];
      assert s[1..][i..] == s[i + 1..];
    }
  }

  lemma TagPositions(lines: seq<Line>, ways: seq<nat>, i: nat)
    requires Ranked(lines, ways) && UniqueTags(lines) && i < |ways|
    ensures forall j | 0 <= j < |ways| && j != i :: ways[j] != ways[i] && lines[ways[j]].tag != lines[ways[i]].tag
  {
  }

  lemma RemoveWay(lines: seq<Line>, ways: seq<nat>, i: nat)
    requires Ranked(lines, ways) && UniqueTags(lines) && i < |ways|
    ensures Remove(Tags(lines, ways), lines[ways[i]].tag) == Tags(lines, ways)[..i] + Tags(lines, ways)[i + 1..]
  {
    TagPositions(lines, ways, i);
    RemoveAt(Tags(lines, ways), i);
  }

  // ---------- every operation refines the stack ----------

  /** The ranking without position `i`. */
  function Cut(ways: seq<nat>, i: nat): (r: seq<nat>)
    requires i < |ways|
    ensures |r| == |ways| - 1 && forall j | 0 <= j < |r| :: r[j] == ways[if j < i then j else j + 1]
  {
    ways[..i] + ways[i + 1..]
  }

  lemma CutHas(ways: seq<nat>, i: nat, x: nat)
    requires i < |ways| && x in ways && x != ways[i]
    ensures x in Cut(ways, i)
  {
    var k := IndexOf(ways, x);
    assert Cut(ways, i)[if k < i then k else k - 1] == x;
  }

  lemma TouchRanks(lines: seq<Line>, ways: seq<nat>, i: nat, line: Line)
    requires Ranked(lines, ways) && Before(lines, line.time) && line.valid && i < |ways|
    ensures Ranked(lines[ways[i] := line], [ways[i]] + Cut(ways, i))
  {
    var after, order := lines[ways[i] := line], [ways[i]] + Cut(ways, i);
    forall v | 0 <= v < |after| && after[v].valid ensures v in order {
      if v != ways[i] {
        CutHas(ways, i, v);
      }
    }
    forall j | 0 <= j < |Cut(ways, i)|
      ensures after[Cut(ways, i)[j]] == lines[Cut(ways, i)[j]] && Cut(ways, i)[j] != ways[i] {
    }
  }

  lemma DropRanks(lines: seq<Line>, ways: seq<nat>, i: nat)
    requires Ranked(lines, ways) && i < |ways|
    ensures Ranked(lines[ways[i] := Nulled(lines[ways[i]])], Cut(ways, i))
  {
    var after, order := lines[ways[i] := Nulled(lines[ways[i]])], Cut(ways, i);
    forall v | 0 <= v < |after| && after[v].valid ensures v in order {
      CutHas(ways, i, v);
    }
    forall j | 0 <= j < |order| ensures after[order[j]] == lines[order[j]] {
    }
  }

  lemma TouchKeeps(lines: seq<Line>, ways: seq<nat>, stack: seq<nat>, i: nat, now: nat)
    requires Refines(lines, ways, stack) && Before(lines, now) && i < |ways|
    ensures Refines(lines[ways[i] := Touched(lines[ways[i]], now)], [ways[i]] + Cut(ways, i),
                    Touch(stack, lines[ways[i]].tag))
  {
    var w := ways[i];
    RemoveWay(lines, ways, i);
    TouchRanks(lines, ways, i, Touched(lines[w], now));
    assert stack[i] == lines[w].tag;
    assert Tags(lines[w := Touched(lines[w], now)], [w] + Cut(ways, i)) == [lines[w].tag] + Cut(stack, i);
  }

  /** An access refines a hit on the stack. */
  lemma AccessRefines(lines: seq<Line>, ways: seq<nat>, stack: seq<nat>, tag: nat, now: nat, update: bool)
    returns (order: seq<nat>)
    requires Refines(lines, ways, stack) && Before(lines, now)
    ensures Refines(AccessLines(lines, tag, now, update), order, if update then Touch(stack, tag) else stack)
  {
    HitsIff(lines, ways, stack, tag);
    order := ways;
    if update && tag in stack {
      var w := Lookup(lines, tag).value;
      var i := IndexOf(ways, w);
      TouchKeeps(lines, ways, stack, i, now);
      order := [w] + Cut(ways, i);
    }
  }

  lemma DropKeeps(lines: seq<Line>, ways: seq<nat>, stack: seq<nat>, i: nat)
    requires Refines(lines, ways, stack) && i < |ways|
    ensures Refines(lines[ways[i] := Nulled(lines[ways[i]])], Cut(ways, i), Cut(stack, i))
    ensures Cut(stack, i) == Remove(stack, lines[ways[i]].tag)
  {
    var w := ways[i];
    RemoveWay(lines, ways, i);
    DropRanks(lines, ways, i);
    var after := lines[w := Nulled(lines[w])];
    forall j | 0 <= j < |Cut(ways, i)| ensures after[Cut(ways, i)[j]] == lines[Cut(ways, i)[j]] {
    }
    assert Tags(after, Cut(ways, i)) == Cut(stack, i);
  }

  /** An invalidation takes the tag off the stack. */
  lemma InvalidateRefines(lines: seq<Line>, ways: seq<nat>, stack: seq<nat>, tag: nat) returns (order: seq<nat>)
    requires Refines(lines, ways, stack)
    ensures Refines(InvalidateLines(lines, tag), order, Remove(stack, tag))
  {
    HitsIff(lines, ways, stack, tag);
    order := ways;
    if tag in stack {
      var w := Lookup(lines, tag).value;
      var i := IndexOf(ways, w);
      DropKeeps(lines, ways, stack, i);
      order := Cut(ways, i);
    } else {
      RemoveIs(stack, tag);
    }
  }

  lemma {:induction false} DistinctBelow(ways: seq<nat>, n: nat)
    requires forall i | 0 <= i < |ways| :: ways[i] < n
    requires forall i, j | 0 <= i < j < |ways| :: ways[i] != ways[j]
    ensures |ways| <= n
    ensures |ways| == n ==> forall v | 0 <= v < n :: v in ways
  {
    if ways != [] {
      assert ways[0] < n;
      if n - 1 in ways {
        var i := IndexOf(ways, n - 1);
        DistinctBelow(Cut(ways, i), n - 1);
        forall v | 0 <= v < n - 1 && v in Cut(ways, i) ensures v in ways {
        }
      } else {
        DistinctBelow(ways, n - 1);
      }
    }
  }

  lemma NoRepeats(lines: seq<Line>, ways: seq<nat>)
    requires Ranked(lines, ways)
    ensures forall i, j | 0 <= i < j < |ways| :: ways[i] != ways[j]
  {
  }

  /** A set is full exactly if its stack has reached the associativity. */
  lemma FullIff(lines: seq<Line>, ways: seq<nat>)
    requires Ranked(lines, ways)
    ensures |ways| <= |lines|
    ensures Free(lines).None? <==> |ways| == |lines|
  {
    NoRepeats(lines, ways);
    DistinctBelow(ways, |lines|);
    if Free(lines).None? {
      AllWays(ways, |lines|);
    } else {
      assert Free(lines).value !in ways;
    }
  }

  lemma {:induction false} AllWays(ways: seq<nat>, n: nat)
    requires forall v | 0 <= v < n :: v in ways
    ensures n <= |ways|
  {
    if n > 0 {
      assert n - 1 in ways;
      var i := IndexOf(ways, n - 1);
      forall v | 0 <= v < n - 1 ensures v in Cut(ways, i) {
        assert v in ways;
        CutHas(ways, i, v);
      }
      AllWays(Cut(ways, i), n - 1);
    }
  }

  /** In a full set the replaced line is the least recently used one exactly if that line's access time is
      still below `MAX_INT`, or it happens to be way 0. */
  lemma VictimIsLruIff(lines: seq<Line>, ways: seq<nat>)
    requires Ranked(lines, ways) && lines != [] && Free(lines).None?
    ensures ways != []
    ensures var lru := ways[|ways| - 1];
            Victim(lines) == lru <==> lines[lru].time < MAX_INT || lru == 0
  {
    FullIff(lines, ways);
    var lru := ways[|ways| - 1];
    forall w | 0 <= w < |lines| && w != lru ensures lines[lru].time < lines[w].time {
      var i := IndexOf(ways, w);
    }
  }

  lemma FillRanks(lines: seq<Line>, ways: seq<nat>, line: Line, w: nat)
    requires Ranked(lines, ways) && Before(lines, line.time) && line.valid && w < |lines| && !lines[w].valid
    ensures Ranked(lines[w := line], [w] + ways)
  {
    var after, order := lines[w := line], [w] + ways;
    forall v | 0 <= v < |after| && after[v].valid ensures v in order {
      if v != w {
        assert v in ways;
      }
    }
    forall i | 0 <= i < |ways| ensures after[ways[i]] == lines[ways[i]] {
    }
  }

  lemma FillUnique(lines: seq<Line>, ways: seq<nat>, stack: seq<nat>, line: Line, w: nat)
    requires Refines(lines, ways, stack) && w < |lines| && line.tag !in stack
    ensures UniqueTags(lines[w := line])
  {
    forall v | 0 <= v < |lines| && lines[v].valid ensures lines[v].tag != line.tag {
      var i := IndexOf(ways, v);
      assert stack[i] == lines[v].tag;
    }
  }

  lemma FillKeeps(lines: seq<Line>, ways: seq<nat>, stack: seq<nat>, line: Line, w: nat)
    requires Refines(lines, ways, stack) && Before(lines, line.time) && line.valid
    requires w < |lines| && !lines[w].valid && line.tag !in stack
    ensures Refines(lines[w := line], [w] + ways, [line.tag] + stack)
  {
    FillRanks(lines, ways, line, w);
    FillUnique(lines, ways, stack, line, w);
    assert Tags(lines[w := line], [w] + ways) == [line.tag] + stack;
  }

  /** An insertion of a tag that missed pushes it onto the stack. */
  lemma InsertRefines(lines: seq<Line>, ways: seq<nat>, stack: seq<nat>, line: Line) returns (order: seq<nat>)
    requires Refines(lines, ways, stack) && Before(lines, line.time) && line.valid && lines != []
    requires line.tag !in stack
    requires Before(lines, MAX_INT)
    ensures Refines(InsertLines(lines, line), order, Push(stack, line.tag, |lines|))
  {
    FullIff(lines, ways);
    var w := Victim(lines);
    if Free(lines).Some? {
      FillKeeps(lines, ways, stack, line, w);
      order := [w] + ways;
    } else {
      VictimIsLruIff(lines, ways);
      order := [w] + Cut(ways, |ways| - 1);
      ReplaceLast(lines, ways, stack, line);
      assert Cut(stack, |ways| - 1) == stack[..|lines| - 1];
    }
  }

  lemma ReplaceLast(lines: seq<Line>, ways: seq<nat>, stack: seq<nat>, line: Line)
    requires Refines(lines, ways, stack) && Before(lines, line.time) && line.valid && ways != [] && line.tag !in stack
    ensures var last := |ways| - 1;
            Refines(lines[ways[last] := line], [ways[last]] + Cut(ways, last), [line.tag] + Cut(stack, last))
  {
    var last := |ways| - 1;
    var w := ways[last];
    DropKeeps(lines, ways, stack, last);
    var freed := lines[w := Nulled(lines[w])];
    FillKeeps(freed, Cut(ways, last), Cut(stack, last), line, w);
    assert freed[w := line] == lines[w := line];
  }

  /** Insertion keeps the tags of a set unique exactly if no line other than the replaced one holds the tag. */
  lemma InsertKeepsUniqueIff(lines: seq<Line>, line: Line)
    requires UniqueTags(lines) && lines != [] && line.valid
    ensures UniqueTags(InsertLines(lines, line)) <==>
            Lookup(lines[Victim(lines) := Nulled(lines[Victim(lines)])], line.tag).None?
  {
    var w := Victim(lines);
    var after, freed := InsertLines(lines, line), lines[w := Nulled(lines[w])];
    assert after[w] == line;
    if Lookup(freed, line.tag).Some? {
      var v := Lookup(freed, line.tag).value;
      assert after[v] == lines[v] && v != w;
    } else {
      forall v | 0 <= v < |lines| && v != w ensures !Matches(after[v], line.tag) {
        assert freed[v] == lines[v];
      }
    }
  }
}
