/** The tree of DRAM nodes (channel, rank, bank, ...): the timing half of `DRAM<T>`.

    The shape of the tree never changes after construction, so `children`, `level` and `id` are
    constants; what a command updates in place are `next`, `prev` and `curClk`.  Every method is
    specified node by node: `Apply` of `DramTiming` says what one command does to one node.
  */
module DramTree {
  import opened DramTiming

  /** Addresses a caller may pass: a component is either negative (unused) or names a child. */
  ghost predicate AddrOk(s: Standard, addr: seq<int>)
    requires s.WellFormed()
  {
    && |s.timing| <= |addr|
    && addr[0] == 0
    && forall l | 0 <= l < s.row :: s.Fanout(l) > 0 ==> addr[l + 1] < s.Fanout(l)
  }

  /** The deepest level that a check of `cmd` starting at `level` looks at. */
  ghost function LastLevel(s: Standard, cmd: nat, addr: seq<int>, level: nat): (r: nat)
    requires s.WellFormed() && cmd < s.commands && |s.timing| <= |addr| && level < s.row
    ensures level <= r < s.row
    decreases s.row - level
  {
    if addr[level + 1] < 0 || level == s.scope[cmd] || s.Fanout(level) == 0 then level
    else LastLevel(s, cmd, addr, level + 1)
  }

  /** The rule set lets `cmd` go to `addr` at `clk`: no node from the root to the command's scope objects. */
  ghost predicate Allowed(s: Standard, h: seq<Event>, cmd: nat, addr: seq<int>, clk: int)
    requires s.WellFormed() && HistoryOk(s, h) && cmd < s.commands && AddrOk(s, addr)
  {
    AllowedFrom(s, h, cmd, addr, clk, 0)
  }

  ghost predicate AllowedFrom(s: Standard, h: seq<Event>, cmd: nat, addr: seq<int>, clk: int, level: nat)
    requires s.WellFormed() && HistoryOk(s, h) && cmd < s.commands && AddrOk(s, addr) && level < s.row
  {
    forall l: nat | level <= l <= LastLevel(s, cmd, addr, level) :: LevelAllows(s, h, cmd, addr, clk, l)
  }

  ghost predicate LevelAllows(s: Standard, h: seq<Event>, cmd: nat, addr: seq<int>, clk: int, level: nat)
    requires s.WellFormed() && HistoryOk(s, h) && cmd < s.commands && AddrOk(s, addr) && level < s.row
  {
    NodeAllows(s, addr[..level + 1], h, cmd, clk)
  }

  class Node {
    const spec: Standard
    const level: nat
    const id: int
    const children: seq<Node>
    ghost const path: seq<int>      // the ids from the root to this node
    ghost const Nodes: set<Node>    // this node and everything below it
    var next: seq<int>
    var prev: seq<seq<int>>
    var curClk: int

    ghost predicate Valid()
      decreases if level < spec.row then spec.row - level else 0
    {
      && spec.WellFormed()
      && level < spec.row
      && |path| == level + 1 && path[level] == id
      && this in Nodes
      && (forall n | n in Nodes :: Covers(n))
      && Family(spec, level, path, children, Nodes - {this})
      && (level + 1 < spec.row ==> forall i | 0 <= i < |children| :: children[i].Valid())
    }

    /** The path to `n` runs through this node. */
    ghost predicate Covers(n: Node) {
      && n.spec == spec
      && |n.path| <= |spec.timing|
      && path <= n.path
      && (n != this ==> level + 1 < |n.path|)
    }

    ghost function Timing(): Local
      reads this
    {
      Local(next, prev)
    }

    /** Every node below (and this one) stores what the history `h` makes of it. */
    ghost predicate Reflects(h: seq<Event>)
      requires Valid() && HistoryOk(spec, h)
      reads Nodes
    {
      forall n | n in Nodes :: n.Matches(spec, h)
    }

    ghost predicate Matches(s: Standard, h: seq<Event>)
      requires s.WellFormed() && HistoryOk(s, h)
      reads this
    {
      0 < |path| <= |s.timing| && Timing() == Run(s, path, h)
    }

    constructor (s: Standard, level: nat, id: int, ghost parent: seq<int>)
      requires s.WellFormed() && level < s.row && |parent| == level
      ensures Valid() && fresh(Nodes)
      ensures spec == s && this.level == level && this.id == id && path == parent + [id]
      ensures Reflects([]) && curClk == 0
      decreases s.row - level
    {
      var cs;
      ghost var below;
      cs, below := Grow(s, level, parent + [id]);
      spec := s;
      this.level := level;
      this.id := id;
      children := cs;
      path := parent + [id];
      Nodes := {this} + below;
      next := Init(s, level).next;
      prev := Init(s, level).prev;
      curClk := 0;
      new;
      assert Nodes - {this} == below;
      forall n | n in Nodes ensures Covers(n) && n.Matches(s, []) {
        if n != this {
          assert Placed(level, n, children);
          var c := children[n.path[level + 1]];
          assert c.Valid() && c.Reflects([]) && c.Covers(n);
        }
      }
    }

    /** Push what issuing `cmd` to `addr` at `clk` means for this subtree. */
    method UpdateTiming(cmd: nat, addr: seq<int>, clk: int)
      requires Valid() && EventOk(spec, Event(cmd, addr, clk))
      requires path[..level] == addr[..level]
      requires forall n | n in Nodes :: 0 < |n.path| <= |spec.timing| && Shaped(spec, |n.path| - 1, n.Timing())
      modifies Nodes`next, Nodes`prev
      ensures forall n | n in Nodes ::
                n.Timing() == Apply(spec, |n.path| - 1, RoleOf(n.path, addr), old(n.Timing()), cmd, clk)
      decreases spec.row - level
    {
      var rules := spec.Rules(level, cmd);
      if id != addr[level] {
        // merely a sibling of the target: only this node changes
        var i := 0;
        while i < |rules|
          invariant 0 <= i <= |rules|
          invariant next == PushSibling(old(next), rules, i, clk)
          invariant prev == old(prev)
          invariant forall n | n in Nodes && n != this :: n.Timing() == old(n.Timing())
        {
          var t := rules[i];
          if t.sibling {
            next := next[t.cmd := Max(next[t.cmd], clk + t.val)];
          }
          i := i + 1;
        }
        forall n | n in Nodes && n != this
          ensures RoleOf(n.path, addr) == Unrelated
        {
          assert Covers(n);
          assert n.path[..|n.path| - 1][level] != addr[..|n.path| - 1][level];
        }
        return;
      }
      if |prev[cmd]| > 0 {
        prev := prev[cmd := [clk] + prev[cmd][..|prev[cmd]| - 1]];
      }
      var i := 0;
      while i < |rules|
        invariant 0 <= i <= |rules|
        invariant prev == old(prev)[cmd := Remember(old(prev)[cmd], clk)]
        invariant next == PushTarget(old(next), rules, i, prev[cmd])
        invariant forall n | n in Nodes && n != this :: n.Timing() == old(n.Timing())
      {
        var t := rules[i];
        if !t.sibling {
          var past := prev[cmd][t.dist - 1];
          if past >= 0 {
            next := next[t.cmd := Max(next[t.cmd], past + t.val)];
          }
        }
        i := i + 1;
      }
      UpdateChildren(cmd, addr, clk);
      assert path[..level] == addr[..level];
    }

    method UpdateChildren(cmd: nat, addr: seq<int>, clk: int)
      requires Valid() && EventOk(spec, Event(cmd, addr, clk))
      requires path == addr[..level + 1]
      requires forall n | n in Nodes :: 0 < |n.path| <= |spec.timing| && Shaped(spec, |n.path| - 1, n.Timing())
      modifies Nodes`next, Nodes`prev
      ensures Timing() == old(Timing())
      ensures forall n | n in Nodes && n != this ::
                n.Timing() == Apply(spec, |n.path| - 1, RoleOf(n.path, addr), old(n.Timing()), cmd, clk)
      decreases spec.row - level, 0
    {
      forall n | n in Nodes && n != this ensures 0 <= n.path[level + 1] < |children| {
        assert Placed(level, n, children);
      }
      for i := 0 to |children|
        invariant Timing() == old(Timing())
        invariant forall n | n in Nodes && n != this && n.path[level + 1] < i ::
                    n.Timing() == Apply(spec, |n.path| - 1, RoleOf(n.path, addr), old(n.Timing()), cmd, clk)
        invariant forall n | n in Nodes && n != this && n.path[level + 1] >= i :: n.Timing() == old(n.Timing())
      {
        assert Child(spec, level, path, children[i], i, Nodes - {this});
        assert children[i].path[..level + 1] == path;
        children[i].UpdateTiming(cmd, addr, clk);
        forall n | n in Nodes && n != this && n.path[level + 1] == i ensures n in children[i].Nodes {
          assert Placed(level, n, children);
        }
      }
    }

    /** Whether `cmd` may be issued to `addr` at `clk`, as far as the subtree stores. */
    predicate Check(cmd: nat, addr: seq<int>, clk: int)
      requires Valid() && cmd < spec.commands && AddrOk(spec, addr)
      requires forall n | n in Nodes :: cmd < |n.next|
      reads Nodes
      decreases spec.row - level
    {
      if next[cmd] != -1 && clk < next[cmd] then false
      else
        var child := addr[level + 1];
        if child < 0 || level == spec.scope[cmd] || |children| == 0 then true
        else
          assert Child(spec, level, path, children[child], child, Nodes - {this});
          children[child].Check(cmd, addr, clk)
    }

    /** The earliest time, not before the last update, at which `cmd` passes the check. */
    method GetNext(cmd: nat, addr: seq<int>) returns (nextClk: int)
      requires Valid() && cmd < spec.commands && AddrOk(spec, addr) && level <= spec.scope[cmd]
      requires forall n | n in Nodes :: cmd < |n.next|
      requires 0 <= curClk
      ensures curClk <= nextClk
      ensures forall clk :: curClk <= clk ==> (Check(cmd, addr, clk) <==> nextClk <= clk)
    {
      nextClk := Max(curClk, next[cmd]);
      var node := this;
      var l := level;
      while l < spec.scope[cmd] && |node.children| > 0 && addr[l + 1] >= 0
        invariant node in Nodes && node.Nodes <= Nodes && node.Valid() && node.spec == spec && node.level == l
        invariant level <= l <= spec.scope[cmd]
        invariant curClk <= nextClk && node.next[cmd] <= nextClk
        invariant forall clk :: curClk <= clk ==>
                    (Check(cmd, addr, clk) <==> nextClk <= clk && node.Check(cmd, addr, clk))
        decreases spec.row - l
      {
        assert Child(spec, l, node.path, node.children[addr[l + 1]], addr[l + 1], node.Nodes - {node});
        node := node.children[addr[l + 1]];
        nextClk := Max(nextClk, node.next[cmd]);
        l := l + 1;
      }
    }

    /** Issue a command.  Called on the root. */
    method Update(cmd: nat, addr: seq<int>, clk: int, ghost h: seq<Event>)
      requires Valid() && level == 0 && EventOk(spec, Event(cmd, addr, clk))
      requires HistoryOk(spec, h) && Reflects(h)
      modifies Nodes
      ensures curClk == clk
      ensures Reflects(h + [Event(cmd, addr, clk)])
    {
      curClk := clk;
      assert forall n | n in Nodes :: n.Matches(spec, h) && Shaped(spec, |n.path| - 1, n.Timing());
      UpdateTiming(cmd, addr, clk);
      var e := Event(cmd, addr, clk);
      assert (h + [e])[..|h|] == h;
      assert forall n | n in Nodes :: n.Matches(spec, h + [e]);
    }

    lemma {:induction false} CheckFromLevel(h: seq<Event>, cmd: nat, addr: seq<int>, clk: int)
      requires Valid() && HistoryOk(spec, h) && Reflects(h)
      requires cmd < spec.commands && AddrOk(spec, addr) && 0 <= clk
      requires path == addr[..level + 1]
      requires forall n | n in Nodes :: cmd < |n.next|
      ensures Check(cmd, addr, clk) <==> AllowedFrom(spec, h, cmd, addr, clk, level)
      decreases spec.row - level
    {
      assert Matches(spec, h);
      NodeAgrees(spec, path, h, cmd, clk);
      assert LevelAllows(spec, h, cmd, addr, clk, level) <==> next[cmd] <= clk;
      var i := addr[level + 1];
      if i >= 0 && level != spec.scope[cmd] && |children| > 0 {
        var c := children[i];
        assert Child(spec, level, path, c, i, Nodes - {this});
        assert c.Reflects(h) by {
          assert forall n | n in c.Nodes :: n in Nodes && n.Matches(spec, h);
        }
        c.CheckFromLevel(h, cmd, addr, clk);
        assert LastLevel(spec, cmd, addr, level) == LastLevel(spec, cmd, addr, level + 1);
      }
    }
  }

  /** The tree's answer is the declarative one, for every history and every time. */
  lemma CheckIsExact(root: Node, h: seq<Event>, cmd: nat, addr: seq<int>, clk: int)
    requires root.Valid() && root.level == 0 && root.id == 0
    requires HistoryOk(root.spec, h) && root.Reflects(h)
    requires cmd < root.spec.commands && AddrOk(root.spec, addr) && 0 <= clk
    ensures forall n | n in root.Nodes :: cmd < |n.next|
    ensures root.Check(cmd, addr, clk) <==> Allowed(root.spec, h, cmd, addr, clk)
  {
    assert forall n | n in root.Nodes :: n.Matches(root.spec, h);
    root.CheckFromLevel(h, cmd, addr, clk);
  }

  /** `below` is made up of the subtrees of the children of the node at `path`; the id on a node's
      path says which subtree it is in, so the subtrees are disjoint. */
  ghost predicate Family(s: Standard, level: nat, path: seq<int>, cs: seq<Node>, below: set<Node>)
    requires s.WellFormed() && level < s.row
  {
    && |cs| == s.Fanout(level)
    && (forall i | 0 <= i < |cs| :: Child(s, level, path, cs[i], i, below))
    && (forall n | n in below :: Placed(level, n, cs))
  }

  ghost predicate Child(s: Standard, level: nat, path: seq<int>, c: Node, i: int, below: set<Node>) {
    && c.spec == s && c.level == level + 1 < s.row && c.path == path + [i] && c.Nodes <= below
    && forall n | n in c.Nodes :: level + 1 < |n.path| && n.path[level + 1] == i
  }

  ghost predicate Placed(level: nat, n: Node, cs: seq<Node>) {
    level + 1 < |n.path| && 0 <= n.path[level + 1] < |cs| && n in cs[n.path[level + 1]].Nodes
  }

  method Grow(s: Standard, level: nat, ghost path: seq<int>) returns (cs: seq<Node>, ghost below: set<Node>)
    requires s.WellFormed() && level < s.row && |path| == level + 1
    ensures fresh(below) && Family(s, level, path, cs, below)
    ensures forall i | 0 <= i < |cs| :: cs[i].Valid() && cs[i].Reflects([])
    decreases s.row - level, 0
  {
    cs, below := [], {};
    for i := 0 to s.Fanout(level)
      invariant |cs| == i && fresh(below)
      invariant forall j | 0 <= j < i :: Child(s, level, path, cs[j], j, below)
      invariant forall n | n in below :: Placed(level, n, cs)
      invariant forall j | 0 <= j < i :: cs[j].Valid() && cs[j].Reflects([])
    {
      var c := new Node(s, level + 1, i, path);
      forall n | n in c.Nodes ensures level + 1 < |n.path| && n.path[level + 1] == i {
        assert c.Covers(n);
      }
      cs, below := cs + [c], below + c.Nodes;
    }
  }
}
