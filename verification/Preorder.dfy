/** The depth-first preorder in which the generator fills blocks: every block
    comes after all the blocks that strictly dominate it. */
module Preorder {
  import opened Graphs
  import opened Dominators

  /** Some path from the entry to `order[i]` stays within `order[..i + 1]`. */
  ghost predicate Rooted(g: Cfg, order: seq<Block>, i: nat)
    requires i < |order|
  {
    exists p :: g.PathFromTo(g.entry, order[i], p) && forall b :: b in p ==> b in order[..i + 1]
  }

  ghost predicate AllRooted(g: Cfg, order: seq<Block>) {
    forall i :: 0 <= i < |order| ==> Rooted(g, order, i)
  }

  /** A block may be entered first, or from a block already listed. */
  ghost predicate MayEnter(g: Cfg, order: seq<Block>, node: Block) {
    node in g.succ && if order == [] then node == g.entry else exists a :: a in order && g.Edge(a, node)
  }

  lemma RootedPrefix(g: Cfg, order: seq<Block>, node: Block, i: nat)
    requires i < |order| && Rooted(g, order, i)
    ensures Rooted(g, order + [node], i)
  {
    assert (order + [node])[..i + 1] == order[..i + 1];
  }

  lemma EnterRooted(g: Cfg, order: seq<Block>, node: Block)
    requires g.Valid() && AllRooted(g, order) && MayEnter(g, order, node)
    ensures AllRooted(g, order + [node])
  {
    var order' := order + [node];
    forall i | 0 <= i < |order|
      ensures Rooted(g, order', i)
    {
      RootedPrefix(g, order, node, i);
    }
    var n := |order|;
    assert order'[..n + 1] == order';
    if order == [] {
      assert g.PathFromTo(g.entry, order'[0], [node]);
      assert forall b :: b in [node] ==> b in order'[..1];
      assert Rooted(g, order', 0);
    } else {
      var a :| a in order && g.Edge(a, node);
      var k :| 0 <= k < n && order[k] == a;
      assert Rooted(g, order, k);
      var p :| g.PathFromTo(g.entry, a, p) && forall b :: b in p ==> b in order[..k + 1];
      PathJoin(g, p, [node]);
      forall b | b in p + [node]
        ensures b in order'
      {
        assert b == node || b in order[..k + 1];
      }
      assert g.PathFromTo(g.entry, order'[n], p + [node]);
      assert Rooted(g, order', n);
    }
  }

  /** The successors of the listed blocks outside `seen` are listed. */
  ghost predicate ClosedBeyond(g: Cfg, seen: set<Block>, visited: set<Block>) {
    forall b :: b in visited && b !in seen && b in g.succ ==> g.succ[b] <= visited
  }

  ghost predicate PreorderState(g: Cfg, visited: set<Block>, order: seq<Block>) {
    && visited <= g.succ.Keys
    && (forall b :: b in visited <==> b in order)
    && Distinct(order)
    && AllRooted(g, order)
  }

  lemma EnterState(g: Cfg, visited: set<Block>, order: seq<Block>, node: Block)
    requires g.Valid() && PreorderState(g, visited, order) && MayEnter(g, order, node) && node !in visited
    ensures PreorderState(g, visited + {node}, order + [node])
  {
    EnterRooted(g, order, node);
  }

  lemma EnterChild(g: Cfg, visited: set<Block>, order: seq<Block>, node: Block, c: Block)
    requires g.Valid() && PreorderState(g, visited, order) && node in visited && g.Edge(node, c)
    ensures MayEnter(g, order, c)
  {
    assert node in order;
  }

  lemma ClosedTransitive(g: Cfg, seen: set<Block>, v1: set<Block>, v2: set<Block>)
    requires ClosedBeyond(g, seen, v1) && ClosedBeyond(g, v1, v2) && v1 <= v2
    ensures ClosedBeyond(g, seen, v2)
  {
    forall b | b in v2 && b !in seen && b in g.succ
      ensures g.succ[b] <= v2
    {
      if b in v1 { assert g.succ[b] <= v1; }
    }
  }

  lemma ClosedAt(g: Cfg, visited: set<Block>, visited': set<Block>, node: Block)
    requires node in g.succ && ClosedBeyond(g, visited + {node}, visited') && g.succ[node] <= visited'
    ensures ClosedBeyond(g, visited, visited')
  {
  }

  lemma LongerPrefix(a: seq<Block>, b: seq<Block>, c: Block, d: seq<Block>)
    requires a <= b && b + [c] <= d
    ensures a <= d
  {
  }

  /** The search since it entered a block: `base` was visited and `first` listed. */
  ghost predicate Searching(g: Cfg, base: set<Block>, first: seq<Block>, visited: set<Block>, order: seq<Block>) {
    PreorderState(g, visited, order) && base <= visited && first <= order && ClosedBeyond(g, base, visited)
  }

  method VisitChild(g: Cfg, node: Block, c: Block, visited: set<Block>, order: seq<Block>, ghost base: set<Block>,
                    ghost first: seq<Block>)
    returns (visited': set<Block>, order': seq<Block>)
    requires g.Valid() && Searching(g, base, first, visited, order) && node in visited && g.Edge(node, c)
    ensures Searching(g, base, first, visited', order') && visited + {c} <= visited'
    decreases g.succ.Keys - visited, 1
  {
    visited', order' := visited, order;
    if c !in visited {
      EnterChild(g, visited, order, node, c);
      visited', order' := Dfs(g, c, visited, order);
      ClosedTransitive(g, base, visited, visited');
      LongerPrefix(first, order, c, order');
    }
  }

  ghost predicate FirstIn(succs: seq<Block>, n: nat, visited: set<Block>) {
    n <= |succs| && forall k :: 0 <= k < n ==> succs[k] in visited
  }

  lemma OneMoreIn(succs: seq<Block>, i: nat, seen: set<Block>, visited: set<Block>)
    requires i < |succs| && FirstIn(succs, i, seen) && seen + {succs[i]} <= visited
    ensures FirstIn(succs, i + 1, visited)
  {
  }

  lemma AllIn(succs: seq<Block>, s: set<Block>, visited: set<Block>)
    requires FirstIn(succs, |succs|, visited) && forall b :: b in succs <==> b in s
    ensures s <= visited
  {
  }

  method Dfs(g: Cfg, node: Block, visited: set<Block>, order: seq<Block>)
    returns (visited': set<Block>, order': seq<Block>)
    requires g.Valid() && PreorderState(g, visited, order) && MayEnter(g, order, node) && node !in visited
    ensures PreorderState(g, visited', order')
    ensures visited + {node} <= visited' && order + [node] <= order'
    ensures ClosedBeyond(g, visited, visited')
    decreases g.succ.Keys - visited, 0
  {
    EnterState(g, visited, order, node);
    visited', order' := visited + {node}, order + [node];
    ghost var base, first := visited', order';
    var succs := Ascending(g.succ[node]);
    for i := 0 to |succs|
      invariant Searching(g, base, first, visited', order')
      invariant FirstIn(succs, i, visited')
    {
      var c := succs[i];
      assert c in succs;
      ghost var seen := visited';
      visited', order' := VisitChild(g, node, c, visited', order', base, first);
      OneMoreIn(succs, i, seen, visited');
    }
    AllIn(succs, g.succ[node], visited');
    ClosedAt(g, visited, visited', node);
  }

  /** A duplicate-free listing of the reachable blocks, entry first, with every
      block rooted in what precedes it. */
  ghost predicate IsPreorder(g: Cfg, order: seq<Block>) {
    && Distinct(order)
    && (forall b :: b in order <==> g.Reachable(b))
    && AllRooted(g, order)
    && order != [] && order[0] == g.entry
  }

  method DfsOrder(g: Cfg) returns (order: seq<Block>)
    requires g.Valid()
    ensures IsPreorder(g, order)
  {
    var visited;
    visited, order := Dfs(g, g.entry, {}, []);
    assert [g.entry] <= order;
    forall b | g.Reachable(b)
      ensures b in visited
    {
      var p :| g.PathFromTo(g.entry, b, p);
      ClosedUnderPaths(g, visited, p);
    }
    forall b | b in order
      ensures g.Reachable(b)
    {
      var i :| 0 <= i < |order| && order[i] == b;
      assert Rooted(g, order, i);
    }
  }

  /** Every dominator of a block is listed no later than the block. */
  lemma DominatorsFirst(g: Cfg, order: seq<Block>, i: nat, d: Block)
    requires IsPreorder(g, order) && i < |order| && g.Dominates(d, order[i])
    ensures d in order[..i + 1]
    ensures d != order[i] ==> d in order[..i]
  {
    assert Rooted(g, order, i);
    var p :| g.PathFromTo(g.entry, order[i], p) && forall b :: b in p ==> b in order[..i + 1];
    assert d in p;
    var k :| 0 <= k < i + 1 && order[k] == d;
  }

  /** The first block of a list without successors. */
  method FirstWithoutSuccessors(g: Cfg, order: seq<Block>, ghost k: nat) returns (last: Block)
    requires forall i :: 0 <= i < |order| ==> order[i] in g.succ
    requires k < |order| && g.succ[order[k]] == {}
    ensures last in order && g.succ[last] == {}
  {
    var i := 0;
    while |Ascending(g.succ[order[i]])| > 0
      invariant 0 <= i <= k
      decreases k - i
    {
      i := i + 1;
    }
    last := order[i];
  }

  /** Where one block alone has no successors, that block is found. */
  method GetLastBlock(g: Cfg, order: seq<Block>, ghost exit: Block) returns (last: Block)
    requires IsPreorder(g, order) && g.Reachable(exit)
    requires forall b :: b in g.succ ==> (g.succ[b] == {} <==> b == exit)
    ensures last == exit
  {
    forall i | 0 <= i < |order|
      ensures order[i] in g.succ
    {
      assert order[i] in order;
      ReachableInLayout(g, order[i]);
    }
    assert exit in order;
    ghost var k :| 0 <= k < |order| && order[k] == exit;
    last := FirstWithoutSuccessors(g, order, k);
  }
}
