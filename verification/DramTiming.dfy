/** The timing rules of a DRAM standard, and what they mean.

    Two readings of the same rule table are defined here.  `Apply` is the incremental one: each node
    of the tree keeps, per command, an earliest issue time and a short list of recent issue times, and
    every issued command pushes future times into them.  `NodeAllows` is the declarative one: it looks
    at the whole history of issued commands.  `NodeAgrees` proves that they give the same answer.
  */
module DramTiming {

  /** After `cmd`'s predecessor has been issued, `cmd` has to wait `val` cycles counted from the
      `dist`-th most recent predecessor. */
  datatype TimingEntry = TimingEntry(cmd: nat, dist: nat, val: int, sibling: bool)

  /** The tables of a standard that timing depends on.  Levels and commands are their enum values. */
  datatype Standard = Standard(
    commands: nat,
    timing: seq<seq<seq<TimingEntry>>>,
    scope: seq<nat>,
    count: seq<nat>,
    row: nat)
  {
    ghost predicate WellFormed() {
      && 0 < row < |timing|
      && |count| == |timing|
      && |scope| == commands
      && (forall l | 0 <= l < |timing| :: |timing[l]| == commands)
      && (forall l, c, k | 0 <= l < |timing| && 0 <= c < commands && 0 <= k < |timing[l][c]| ::
            EntryOk(timing[l][c][k]))
    }

    ghost predicate EntryOk(t: TimingEntry) {
      t.cmd < commands && 1 <= t.dist && (t.sibling ==> t.dist == 1)
    }

    function Rules(level: nat, cmd: nat): (r: seq<TimingEntry>)
      requires WellFormed() && level < |timing| && cmd < commands
      ensures forall k | 0 <= k < |r| :: EntryOk(r[k])
    {
      timing[level][cmd]
    }

    /** How many recent issue times of `cmd` a node at `level` remembers. */
    function Depth(level: nat, cmd: nat): nat
      requires WellFormed() && level < |timing| && cmd < commands
    {
      MaxDist(Rules(level, cmd))
    }

    /** Rows are not instantiated as nodes. */
    function Fanout(level: nat): nat
      requires level + 1 < |count|
    {
      if level + 1 == row then 0 else count[level + 1]
    }
  }

  function MaxDist(rules: seq<TimingEntry>): (d: nat)
    ensures forall k | 0 <= k < |rules| :: rules[k].dist <= d
  {
    if rules == [] then 0
    else
      var d := MaxDist(rules[..|rules| - 1]);
      if rules[|rules| - 1].dist > d then rules[|rules| - 1].dist else d
  }

  function Max(a: int, b: int): int {
    if a < b then b else a
  }

  // ---------- the incremental index ----------

  /** The part of a node that timing updates change.  -1 in `next` means "no constraint yet",
      -1 in `prev` means "not issued that often yet". */
  datatype Local = Local(next: seq<int>, prev: seq<seq<int>>)

  /** A node lies on the path a command is sent to, is a sibling of the last such node, or neither. */
  datatype Role = Target | Sibling | Unrelated

  ghost function RoleOf(path: seq<int>, addr: seq<int>): Role
    requires 0 < |path| <= |addr|
  {
    var last := |path| - 1;
    if path[..last] != addr[..last] then Unrelated
    else if path[last] == addr[last] then Target
    else Sibling
  }

  ghost predicate Shaped(s: Standard, level: nat, st: Local)
    requires s.WellFormed() && level < |s.timing|
  {
    && |st.next| == |st.prev| == s.commands
    && forall c | 0 <= c < s.commands :: |st.prev[c]| == s.Depth(level, c)
  }

  function Init(s: Standard, level: nat): (st: Local)
    requires s.WellFormed() && level < |s.timing|
    ensures Shaped(s, level, st)
  {
    Local(seq(s.commands, _ => -1),
          seq(s.commands, c requires 0 <= c < s.commands => seq(s.Depth(level, c), _ => -1)))
  }

  /** A command was issued to a sibling at time `clk`. */
  function PushSibling(next: seq<int>, rules: seq<TimingEntry>, n: nat, clk: int): (r: seq<int>)
    requires n <= |rules|
    requires forall k | 0 <= k < |rules| :: rules[k].cmd < |next|
    ensures |r| == |next|
  {
    if n == 0 then next
    else
      var t := rules[n - 1];
      var r := PushSibling(next, rules, n - 1, clk);
      if !t.sibling then r else r[t.cmd := Max(r[t.cmd], clk + t.val)]
  }

  /** A command was issued to this node; `times` are its issue times, the latest first. */
  function PushTarget(next: seq<int>, rules: seq<TimingEntry>, n: nat, times: seq<int>): (r: seq<int>)
    requires n <= |rules|
    requires forall k | 0 <= k < |rules| :: rules[k].cmd < |next| && 1 <= rules[k].dist <= |times|
    ensures |r| == |next|
  {
    if n == 0 then next
    else
      var t := rules[n - 1];
      var r := PushTarget(next, rules, n - 1, times);
      var past := times[t.dist - 1];
      if t.sibling || past < 0 then r else r[t.cmd := Max(r[t.cmd], past + t.val)]
  }

  function Remember(times: seq<int>, clk: int): (r: seq<int>)
    ensures |r| == |times|
  {
    if times == [] then [] else [clk] + times[..|times| - 1]
  }

  /** What one issued command does to one node. */
  function Apply(s: Standard, level: nat, role: Role, st: Local, cmd: nat, clk: int): (r: Local)
    requires s.WellFormed() && level < |s.timing| && cmd < s.commands && Shaped(s, level, st)
    ensures Shaped(s, level, r)
  {
    var rules := s.Rules(level, cmd);
    match role
    case Unrelated => st
    case Sibling => st.(next := PushSibling(st.next, rules, |rules|, clk))
    case Target =>
      var times := Remember(st.prev[cmd], clk);
      Local(PushTarget(st.next, rules, |rules|, times), st.prev[cmd := times])
  }

  // ---------- the history ----------

  datatype Event = Event(cmd: nat, addr: seq<int>, clk: int)

  ghost predicate EventOk(s: Standard, e: Event) {
    e.cmd < s.commands && |s.timing| <= |e.addr| && 0 <= e.clk
  }

  ghost predicate HistoryOk(s: Standard, h: seq<Event>) {
    forall i | 0 <= i < |h| :: EventOk(s, h[i])
  }

  /** The node at `path` after the commands of `h`. */
  ghost function Run(s: Standard, path: seq<int>, h: seq<Event>): (st: Local)
    requires s.WellFormed() && 0 < |path| <= |s.timing| && HistoryOk(s, h)
    ensures Shaped(s, |path| - 1, st)
  {
    if h == [] then Init(s, |path| - 1)
    else
      var e := h[|h| - 1];
      Apply(s, |path| - 1, RoleOf(path, e.addr), Run(s, path, h[..|h| - 1]), e.cmd, e.clk)
  }

  /** When `cmd` was issued with this node in the given role, the earliest first. */
  ghost function Issued(s: Standard, path: seq<int>, role: Role, cmd: nat, h: seq<Event>): (r: seq<int>)
    requires 0 < |path| <= |s.timing| && HistoryOk(s, h)
    ensures forall i | 0 <= i < |r| :: 0 <= r[i]
  {
    if h == [] then []
    else
      var e := h[|h| - 1];
      var r := Issued(s, path, role, cmd, h[..|h| - 1]);
      if e.cmd == cmd && RoleOf(path, e.addr) == role then r + [e.clk] else r
  }

  // ---------- the declarative rule ----------

  /** Every issue time of the predecessor that is followed by at least `dist - 1` more is old enough. */
  ghost predicate RuleHolds(t: TimingEntry, times: seq<int>, clk: int)
  {
    forall i {:trigger times[i]} | 0 <= i < |times| && i + t.dist <= |times| :: times[i] + t.val <= clk
  }

  ghost function TimesFor(s: Standard, path: seq<int>, t: TimingEntry, from: nat, h: seq<Event>): seq<int>
    requires 0 < |path| <= |s.timing| && HistoryOk(s, h)
  {
    Issued(s, path, if t.sibling then Sibling else Target, from, h)
  }

  /** Rule `k` of `from` at this node does not hold `cmd` back at `clk`. */
  ghost predicate Clears(s: Standard, path: seq<int>, h: seq<Event>, cmd: nat, clk: int, from: nat, k: nat)
    requires s.WellFormed() && 0 < |path| <= |s.timing| && HistoryOk(s, h)
    requires from < s.commands && k < |s.Rules(|path| - 1, from)|
  {
    var t := s.Rules(|path| - 1, from)[k];
    t.cmd == cmd ==> RuleHolds(t, TimesFor(s, path, t, from, h), clk)
  }

  ghost predicate NodeAllows(s: Standard, path: seq<int>, h: seq<Event>, cmd: nat, clk: int)
    requires s.WellFormed() && 0 < |path| <= |s.timing| && HistoryOk(s, h)
  {
    forall from: nat, k: nat | from < s.commands && k < |s.Rules(|path| - 1, from)| ::
      Clears(s, path, h, cmd, clk, from, k)
  }

  // ---------- the two agree ----------

  lemma {:induction false} PushSiblingMeaning(next: seq<int>, rules: seq<TimingEntry>, n: nat, clk: int, cmd: nat,
                                              now: int)
    requires n <= |rules| && cmd < |next|
    requires forall k | 0 <= k < |rules| :: rules[k].cmd < |next|
    ensures PushSibling(next, rules, n, clk)[cmd] <= now <==>
            next[cmd] <= now
            && forall k | 0 <= k < n :: rules[k].sibling && rules[k].cmd == cmd ==> clk + rules[k].val <= now
    ensures next[cmd] <= PushSibling(next, rules, n, clk)[cmd]
  {
    if n > 0 {
      PushSiblingMeaning(next, rules, n - 1, clk, cmd, now);
    }
  }

  lemma {:induction false} PushTargetMeaning(next: seq<int>, rules: seq<TimingEntry>, n: nat, times: seq<int>, cmd: nat,
                                             now: int)
    requires n <= |rules| && cmd < |next|
    requires forall k | 0 <= k < |rules| :: rules[k].cmd < |next| && 1 <= rules[k].dist <= |times|
    ensures PushTarget(next, rules, n, times)[cmd] <= now <==>
            next[cmd] <= now
            && forall k | 0 <= k < n ::
                 !rules[k].sibling && rules[k].cmd == cmd && 0 <= times[rules[k].dist - 1] ==>
                   times[rules[k].dist - 1] + rules[k].val <= now
    ensures next[cmd] <= PushTarget(next, rules, n, times)[cmd]
  {
    if n > 0 {
      PushTargetMeaning(next, rules, n - 1, times, cmd, now);
    }
  }

  /** A node remembers exactly its most recent issue times, the latest first. */
  lemma {:induction false} PrevIsRecent(s: Standard, path: seq<int>, h: seq<Event>, cmd: nat, k: nat)
    requires s.WellFormed() && 0 < |path| <= |s.timing| && HistoryOk(s, h) && cmd < s.commands
    requires k < s.Depth(|path| - 1, cmd)
    ensures var times := Issued(s, path, Target, cmd, h);
            Run(s, path, h).prev[cmd][k] == if k < |times| then times[|times| - 1 - k] else -1
  {
    if h != [] {
      var init, e := h[..|h| - 1], h[|h| - 1];
      var before := Run(s, path, init);
      if e.cmd == cmd && RoleOf(path, e.addr) == Target {
        assert Run(s, path, h).prev[cmd] == Remember(before.prev[cmd], e.clk);
        if k > 0 {
          PrevIsRecent(s, path, init, cmd, k - 1);
        }
      } else {
        assert Run(s, path, h).prev[cmd] == before.prev[cmd];
        PrevIsRecent(s, path, init, cmd, k);
      }
    }
  }

  /** Rule `k` of the last command of a history does not hold `cmd` back at `clk`. */
  ghost predicate LastClears(s: Standard, path: seq<int>, h: seq<Event>, cmd: nat, clk: int, k: nat)
    requires s.WellFormed() && 0 < |path| <= |s.timing| && HistoryOk(s, h) && h != []
    requires k < |s.Rules(|path| - 1, h[|h| - 1].cmd)|
  {
    var e := h[|h| - 1];
    var t := s.Rules(|path| - 1, e.cmd)[k];
    var times := TimesFor(s, path, t, e.cmd, h);
    t.cmd == cmd && RoleOf(path, e.addr) == (if t.sibling then Sibling else Target) && t.dist <= |times| ==>
      times[|times| - t.dist] + t.val <= clk
  }

  ghost predicate LastAllows(s: Standard, path: seq<int>, h: seq<Event>, cmd: nat, clk: int)
    requires s.WellFormed() && 0 < |path| <= |s.timing| && HistoryOk(s, h) && h != []
  {
    forall k: nat | k < |s.Rules(|path| - 1, h[|h| - 1].cmd)| :: LastClears(s, path, h, cmd, clk, k)
  }

  lemma RuleHoldsSnoc(t: TimingEntry, times: seq<int>, last: int, clk: int)
    requires 1 <= t.dist
    ensures RuleHolds(t, times + [last], clk) <==>
            RuleHolds(t, times, clk)
            && (t.dist <= |times| + 1 ==> (times + [last])[|times| + 1 - t.dist] + t.val <= clk)
  {
    var all := times + [last];
    if RuleHolds(t, all, clk) {
      forall i {:trigger times[i]} | 0 <= i < |times| && i + t.dist <= |times|
        ensures times[i] + t.val <= clk
      {
        assert all[i] == times[i];
      }
    } else {
      var i :| 0 <= i < |all| && i + t.dist <= |all| && all[i] + t.val > clk;
      if i + t.dist <= |times| {
        assert all[i] == times[i];
      }
    }
  }

  lemma ClearsSnoc(s: Standard, path: seq<int>, h: seq<Event>, cmd: nat, clk: int, from: nat, k: nat)
    requires s.WellFormed() && 0 < |path| <= |s.timing| && HistoryOk(s, h) && h != []
    requires from < s.commands && k < |s.Rules(|path| - 1, from)|
    ensures Clears(s, path, h, cmd, clk, from, k) <==>
            Clears(s, path, h[..|h| - 1], cmd, clk, from, k)
            && (from == h[|h| - 1].cmd ==> LastClears(s, path, h, cmd, clk, k))
  {
    var init, e := h[..|h| - 1], h[|h| - 1];
    var t := s.Rules(|path| - 1, from)[k];
    if from == e.cmd && RoleOf(path, e.addr) == (if t.sibling then Sibling else Target) {
      RuleHoldsSnoc(t, TimesFor(s, path, t, from, init), e.clk, clk);
    }
  }

  lemma NodeAllowsSnoc(s: Standard, path: seq<int>, h: seq<Event>, cmd: nat, clk: int)
    requires s.WellFormed() && 0 < |path| <= |s.timing| && HistoryOk(s, h) && h != []
    ensures NodeAllows(s, path, h, cmd, clk) <==>
            NodeAllows(s, path, h[..|h| - 1], cmd, clk) && LastAllows(s, path, h, cmd, clk)
  {
    var init, last := h[..|h| - 1], h[|h| - 1].cmd;
    if NodeAllows(s, path, h, cmd, clk) {
      forall from: nat, k: nat | from < s.commands && k < |s.Rules(|path| - 1, from)|
        ensures Clears(s, path, init, cmd, clk, from, k)
      {
        ClearsSnoc(s, path, h, cmd, clk, from, k);
      }
      forall k: nat | k < |s.Rules(|path| - 1, last)|
        ensures LastClears(s, path, h, cmd, clk, k)
      {
        ClearsSnoc(s, path, h, cmd, clk, last, k);
      }
    }
    if NodeAllows(s, path, init, cmd, clk) && LastAllows(s, path, h, cmd, clk) {
      forall from: nat, k: nat | from < s.commands && k < |s.Rules(|path| - 1, from)|
        ensures Clears(s, path, h, cmd, clk, from, k)
      {
        ClearsSnoc(s, path, h, cmd, clk, from, k);
      }
    }
  }

  lemma TargetClears(s: Standard, path: seq<int>, h: seq<Event>, cmd: nat, clk: int, k: nat, past: int)
    requires s.WellFormed() && 0 < |path| <= |s.timing| && HistoryOk(s, h) && h != []
    requires k < |s.Rules(|path| - 1, h[|h| - 1].cmd)|
    requires RoleOf(path, h[|h| - 1].addr) == Target
    requires past == Run(s, path, h).prev[h[|h| - 1].cmd][s.Rules(|path| - 1, h[|h| - 1].cmd)[k].dist - 1]
    ensures var t := s.Rules(|path| - 1, h[|h| - 1].cmd)[k];
            LastClears(s, path, h, cmd, clk, k) <==>
            (!t.sibling && t.cmd == cmd && 0 <= past ==> past + t.val <= clk)
  {
    PrevIsRecent(s, path, h, h[|h| - 1].cmd, s.Rules(|path| - 1, h[|h| - 1].cmd)[k].dist - 1);
  }

  lemma TargetPushMeaning(s: Standard, path: seq<int>, h: seq<Event>, cmd: nat, clk: int)
    requires s.WellFormed() && 0 < |path| <= |s.timing| && HistoryOk(s, h) && h != []
    requires cmd < s.commands && RoleOf(path, h[|h| - 1].addr) == Target
    ensures Run(s, path, h).next[cmd] <= clk <==>
            Run(s, path, h[..|h| - 1]).next[cmd] <= clk && LastAllows(s, path, h, cmd, clk)
    ensures Run(s, path, h[..|h| - 1]).next[cmd] <= Run(s, path, h).next[cmd]
  {
    var e := h[|h| - 1];
    var before := Run(s, path, h[..|h| - 1]);
    var rules := s.Rules(|path| - 1, e.cmd);
    var prev := Remember(before.prev[e.cmd], e.clk);
    forall k: nat | k < |rules|
      ensures LastClears(s, path, h, cmd, clk, k) <==>
              (!rules[k].sibling && rules[k].cmd == cmd && 0 <= prev[rules[k].dist - 1] ==>
                 prev[rules[k].dist - 1] + rules[k].val <= clk)
    {
      assert Run(s, path, h).prev[e.cmd] == prev;
      TargetClears(s, path, h, cmd, clk, k, prev[rules[k].dist - 1]);
    }
    PushTargetMeaning(before.next, rules, |rules|, prev, cmd, clk);
  }

  lemma SiblingPushMeaning(s: Standard, path: seq<int>, h: seq<Event>, cmd: nat, clk: int)
    requires s.WellFormed() && 0 < |path| <= |s.timing| && HistoryOk(s, h) && h != []
    requires cmd < s.commands && RoleOf(path, h[|h| - 1].addr) == Sibling
    ensures Run(s, path, h).next[cmd] <= clk <==>
            Run(s, path, h[..|h| - 1]).next[cmd] <= clk && LastAllows(s, path, h, cmd, clk)
    ensures Run(s, path, h[..|h| - 1]).next[cmd] <= Run(s, path, h).next[cmd]
  {
    var e := h[|h| - 1];
    var before := Run(s, path, h[..|h| - 1]);
    var rules := s.Rules(|path| - 1, e.cmd);
    PushSiblingMeaning(before.next, rules, |rules|, e.clk, cmd, clk);
    forall k: nat | k < |rules|
      ensures LastClears(s, path, h, cmd, clk, k) <==>
              (rules[k].sibling && rules[k].cmd == cmd ==> e.clk + rules[k].val <= clk)
    {
    }
  }

  /** The index of a node answers exactly what the declarative rule says about the whole history. */
  lemma {:induction false} NodeAgrees(s: Standard, path: seq<int>, h: seq<Event>, cmd: nat, clk: int)
    requires s.WellFormed() && 0 < |path| <= |s.timing| && HistoryOk(s, h)
    requires cmd < s.commands && 0 <= clk
    ensures -1 <= Run(s, path, h).next[cmd]
    ensures Run(s, path, h).next[cmd] <= clk <==> NodeAllows(s, path, h, cmd, clk)
  {
    if h != [] {
      NodeAgrees(s, path, h[..|h| - 1], cmd, clk);
      NodeAllowsSnoc(s, path, h, cmd, clk);
      match RoleOf(path, h[|h| - 1].addr)
      case Unrelated =>
      case Sibling => SiblingPushMeaning(s, path, h, cmd, clk);
      case Target => TargetPushMeaning(s, path, h, cmd, clk);
    } else {
      assert forall from: nat, k: nat | from < s.commands && k < |s.Rules(|path| - 1, from)| ::
        Clears(s, path, h, cmd, clk, from, k);
    }
  }
}
