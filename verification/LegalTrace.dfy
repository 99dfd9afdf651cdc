/** What a trace of commands satisfies when every one of them was allowed at its issue time. */
module LegalTrace {
  import opened DramTiming
  import opened DramTree

  ghost predicate Legal(s: Standard, h: seq<Event>)
    requires s.WellFormed()
  {
    && HistoryOk(s, h)
    && forall j | 0 <= j < |h| :: AllowedAt(s, h, j)
  }

  ghost predicate AllowedAt(s: Standard, h: seq<Event>, j: nat)
    requires s.WellFormed() && HistoryOk(s, h) && j < |h|
  {
    AddrOk(s, h[j].addr) && Allowed(s, h[..j], h[j].cmd, h[j].addr, h[j].clk)
  }

  /** `h[i]` is a `cmd` that went through the node at `path`. */
  ghost predicate Hit(s: Standard, path: seq<int>, cmd: nat, h: seq<Event>, i: nat, role: Role)
    requires 0 < |path| <= |s.timing| && HistoryOk(s, h)
  {
    i < |h| && h[i].cmd == cmd && RoleOf(path, h[i].addr) == role
  }

  lemma {:induction false} IssuedGrows(s: Standard, path: seq<int>, role: Role, cmd: nat, h: seq<Event>, i: nat, j: nat)
    requires 0 < |path| <= |s.timing| && HistoryOk(s, h) && i <= j <= |h|
    ensures Issued(s, path, role, cmd, h[..i]) <= Issued(s, path, role, cmd, h[..j])
  {
    if i < j {
      IssuedGrows(s, path, role, cmd, h, i, j - 1);
      assert h[..j][..j - 1] == h[..j - 1];
    }
  }

  lemma HitIsIssued(s: Standard, path: seq<int>, role: Role, cmd: nat, h: seq<Event>, i: nat, j: nat)
    requires 0 < |path| <= |s.timing| && HistoryOk(s, h) && i < j <= |h| && Hit(s, path, cmd, h, i, role)
    ensures var n := |Issued(s, path, role, cmd, h[..i])|;
            var times := Issued(s, path, role, cmd, h[..j]);
            n < |times| && times[n] == h[i].clk
  {
    assert h[..i + 1][..i] == h[..i];
    IssuedGrows(s, path, role, cmd, h, i + 1, j);
  }

  /** Hits at the positions `at`, in order, are that many separate issue times. */
  lemma {:induction false} HitsCount(s: Standard, path: seq<int>, role: Role, cmd: nat, h: seq<Event>, at: seq<nat>,
                                     j: nat)
    requires 0 < |path| <= |s.timing| && HistoryOk(s, h) && j <= |h| && at != []
    requires forall a, b | 0 <= a < b < |at| :: at[a] < at[b]
    requires forall a | 0 <= a < |at| :: at[a] < j && Hit(s, path, cmd, h, at[a], role)
    ensures |Issued(s, path, role, cmd, h[..at[0]])| + |at| <= |Issued(s, path, role, cmd, h[..j])|
  {
    var last := at[|at| - 1];
    HitIsIssued(s, path, role, cmd, h, last, j);
    if |at| > 1 {
      HitsCount(s, path, role, cmd, h, at[..|at| - 1], last);
    }
  }

  /** A rule with distance `dist` in a legal trace: `dist` predecessors at positions `at` and then the
      constrained command at position `j`, all on one node, span at least `val` cycles. */
  lemma WindowRule(s: Standard, h: seq<Event>, level: nat, from: nat, k: nat, at: seq<nat>, j: nat)
    requires s.WellFormed() && Legal(s, h) && j < |h|
    requires level <= LastLevel(s, h[j].cmd, h[j].addr, 0)
    requires from < s.commands && k < |s.Rules(level, from)|
    requires s.Rules(level, from)[k].cmd == h[j].cmd && |at| == s.Rules(level, from)[k].dist
    requires forall a, b | 0 <= a < b < |at| :: at[a] < at[b]
    requires var role := if s.Rules(level, from)[k].sibling then Sibling else Target;
             forall a | 0 <= a < |at| :: at[a] < j && Hit(s, h[j].addr[..level + 1], from, h, at[a], role)
    ensures h[at[0]].clk + s.Rules(level, from)[k].val <= h[j].clk
  {
    var t := s.Rules(level, from)[k];
    var role := if t.sibling then Sibling else Target;
    var path := h[j].addr[..level + 1];
    assert AllowedAt(s, h, j);
    assert LevelAllows(s, h[..j], h[j].cmd, h[j].addr, h[j].clk, level);
    assert Clears(s, path, h[..j], h[j].cmd, h[j].clk, from, k);
    HitsCount(s, path, role, from, h, at, j);
    HitIsIssued(s, path, role, from, h, at[0], j);
    var times := Issued(s, path, role, from, h[..j]);
    var n := |Issued(s, path, role, from, h[..at[0]])|;
    assert times[n] + t.val <= h[j].clk;
  }
}
