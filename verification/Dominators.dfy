/** The generator's dominator analysis: a reverse postorder by depth-first search,
    then sweeps that intersect the tables of the predecessors until nothing
    changes. */
module Dominators {
  import opened Graphs

  type Table = map<Block, set<Block>>

  // ----- depth-first search -----

  /** Each edge out of a finished block leads to a block finished earlier, or
      closes a cycle. */
  ghost predicate EdgesSettled(g: Cfg, post: seq<Block>) {
    forall i, v :: 0 <= i < |post| && g.Edge(post[i], v) ==> v in post[..i] || g.Reaches(v, post[i])
  }

  ghost predicate SearchState(g: Cfg, visited: set<Block>, post: seq<Block>) {
    && visited <= g.succ.Keys
    && Distinct(post)
    && (forall b :: b in post ==> b in visited && g.succ[b] <= visited)
    && EdgesSettled(g, post)
  }

  /** The blocks entered and not yet finished: those on the search stack. */
  ghost function Open(visited: set<Block>, post: seq<Block>): set<Block> {
    set b | b in visited && b !in post
  }

  ghost predicate OpenReach(g: Cfg, visited: set<Block>, post: seq<Block>, node: Block) {
    forall s {:trigger g.Reaches(s, node)} :: s in Open(visited, post) ==> g.Reaches(s, node)
  }

  ghost predicate NewReached(g: Cfg, visited: set<Block>, visited': set<Block>, node: Block) {
    forall b {:trigger g.Reaches(node, b)} :: b in visited' && b !in visited ==> g.Reaches(node, b)
  }

  lemma FinishBlock(g: Cfg, visited: set<Block>, post: seq<Block>, node: Block)
    requires g.Valid() && SearchState(g, visited, post)
    requires node in visited && node !in post && g.succ[node] <= visited
    requires OpenReach(g, visited, post, node)
    ensures SearchState(g, visited, post + [node])
    ensures Open(visited, post + [node]) == Open(visited, post) - {node}
  {
    var q := post + [node];
    forall i, v | 0 <= i < |q| && g.Edge(q[i], v)
      ensures v in q[..i] || g.Reaches(v, q[i])
    {
      if i < |post| {
        assert q[..i] == post[..i] && q[i] == post[i];
      } else {
        assert q[..i] == post;
        assert v in post || v in Open(visited, post);
      }
    }
  }

  /** The open blocks also reach a successor of the block they reach. */
  lemma DescendOpen(g: Cfg, visited: set<Block>, post: seq<Block>, node: Block, c: Block)
    requires g.Valid() && OpenReach(g, visited, post, node) && g.Edge(node, c)
    ensures OpenReach(g, visited, post, c) && g.Reaches(node, c)
  {
    EdgeReaches(g, node, c);
    forall s | s in Open(visited, post)
      ensures g.Reaches(s, c)
    {
      assert g.Reaches(s, node);
      ReachesTransitive(g, s, node, c);
    }
  }

  lemma ExtendReached(g: Cfg, v0: set<Block>, v1: set<Block>, v2: set<Block>, node: Block, c: Block)
    requires NewReached(g, v0, v1, node) && NewReached(g, v1, v2, c) && g.Reaches(node, c)
    ensures NewReached(g, v0, v2, node)
  {
    forall b | b in v2 && b !in v0
      ensures g.Reaches(node, b)
    {
      if b !in v1 {
        assert g.Reaches(c, b);
        ReachesTransitive(g, node, c, b);
      }
    }
  }

  /** Marking a block as visited opens it. */
  lemma OpenBlock(g: Cfg, visited: set<Block>, post: seq<Block>, node: Block)
    requires g.Valid() && SearchState(g, visited, post) && node in g.succ && node !in visited
    requires OpenReach(g, visited, post, node)
    ensures SearchState(g, visited + {node}, post)
    ensures Open(visited + {node}, post) == Open(visited, post) + {node}
    ensures OpenReach(g, visited + {node}, post, node)
    ensures NewReached(g, visited, visited + {node}, node)
  {
    ReachesSelf(g, node);
  }

  /** Postorder search.  Blocks already open when the search starts stay open,
      everything newly visited is finished, and all of it is reachable from
      `node`. */
  method PostorderDfs(g: Cfg, node: Block, visited: set<Block>, postorder: seq<Block>)
    returns (visited': set<Block>, postorder': seq<Block>)
    requires g.Valid() && node in g.succ && SearchState(g, visited, postorder)
    requires OpenReach(g, visited, postorder, node)
    ensures SearchState(g, visited', postorder')
    ensures visited <= visited' && node in visited'
    ensures Open(visited', postorder') == Open(visited, postorder)
    ensures NewReached(g, visited, visited', node)
    ensures node !in visited ==> postorder' != [] && postorder'[|postorder'| - 1] == node
    decreases g.succ.Keys - visited
  {
    visited', postorder' := visited, postorder;
    if node in visited {
      return;
    }
    OpenBlock(g, visited, postorder, node);
    visited' := visited' + {node};
    var succs := Ascending(g.succ[node]);
    for i := 0 to |succs|
      invariant SearchState(g, visited', postorder')
      invariant visited + {node} <= visited'
      invariant Open(visited', postorder') == Open(visited, postorder) + {node}
      invariant OpenReach(g, visited', postorder', node)
      invariant forall k :: 0 <= k < i ==> succs[k] in visited'
      invariant NewReached(g, visited, visited', node)
    {
      var c := succs[i];
      assert c in succs;
      DescendOpen(g, visited', postorder', node, c);
      ghost var seen := visited';
      visited', postorder' := PostorderDfs(g, c, visited', postorder');
      ExtendReached(g, visited, seen, visited', node, c);
    }
    assert g.succ[node] <= visited';
    assert node in Open(visited', postorder');
    FinishBlock(g, visited', postorder', node);
    postorder' := postorder' + [node];
  }

  function Reversed(s: seq<Block>): (r: seq<Block>)
    ensures |r| == |s|
    ensures forall i :: 0 <= i < |s| ==> r[i] == s[|s| - 1 - i]
  {
    seq(|s|, i requires 0 <= i < |s| => s[|s| - 1 - i])
  }

  lemma {:induction false} ClosedUnderPaths(g: Cfg, s: set<Block>, p: seq<Block>)
    requires g.IsPath(p) && p[0] in s
    requires forall a, b :: a in s && g.Edge(a, b) ==> b in s
    ensures forall i :: 0 <= i < |p| ==> p[i] in s
  {
    if |p| > 1 {
      assert g.Edge(p[0], p[1]);
      PathSuffix(g, p, 1);
      ClosedUnderPaths(g, s, p[1..]);
      assert forall i :: 1 <= i < |p| ==> p[i] == p[1..][i - 1];
    }
  }

  /** A duplicate-free listing of the reachable blocks, entry first, in which an
      edge goes forward unless it closes a cycle. */
  ghost predicate IsReversePostorder(g: Cfg, r: seq<Block>) {
    && Distinct(r)
    && (forall b :: b in r <==> g.Reachable(b))
    && |r| > 0 && r[0] == g.entry
    && forall i, v :: 0 <= i < |r| && g.Edge(r[i], v) ==> v in r[i + 1..] || g.Reaches(v, r[i])
  }

  lemma ReversedEdges(g: Cfg, post: seq<Block>)
    requires EdgesSettled(g, post)
    ensures var r := Reversed(post);
            forall i, v :: 0 <= i < |r| && g.Edge(r[i], v) ==> v in r[i + 1..] || g.Reaches(v, r[i])
  {
    var r := Reversed(post);
    forall i, v | 0 <= i < |r| && g.Edge(r[i], v)
      ensures v in r[i + 1..] || g.Reaches(v, r[i])
    {
      var j := |post| - 1 - i;
      if v in post[..j] {
        var k :| 0 <= k < j && post[k] == v;
        assert r[|post| - 1 - k] == v;
        assert r[i + 1..][|post| - 1 - k - (i + 1)] == v;
      }
    }
  }

  method ReversePostorder(g: Cfg) returns (r: seq<Block>)
    requires g.Valid()
    ensures IsReversePostorder(g, r)
  {
    var visited, postorder := PostorderDfs(g, g.entry, {}, []);
    r := Reversed(postorder);
    ReversedEdges(g, postorder);
    forall b | b in visited
      ensures g.Reachable(b)
    {
      assert g.Reaches(g.entry, b);
    }
    assert visited == set b | b in postorder by {
      assert Open(visited, postorder) == Open({}, []) == {};
      assert forall b :: b in visited && b !in postorder ==> b in Open(visited, postorder);
    }
    assert forall b :: b in r <==> b in postorder by {
      forall b | b in postorder
        ensures b in r
      {
        var k :| 0 <= k < |postorder| && postorder[k] == b;
        assert r[|postorder| - 1 - k] == b;
      }
    }
    forall b | g.Reachable(b)
      ensures b in visited
    {
      var p :| g.PathFromTo(g.entry, b, p);
      ClosedUnderPaths(g, visited, p);
    }
  }

  /** A duplicate-free listing of the reachable blocks in which every edge goes
      forward. */
  ghost predicate IsTopological(g: Cfg, r: seq<Block>) {
    && Distinct(r)
    && (forall b :: b in r <==> g.Reachable(b))
    && forall i, v :: 0 <= i < |r| && g.Edge(r[i], v) ==> v in r[i + 1..]
  }

  /** Without cycles a reverse postorder is a topological order. */
  lemma ReversePostorderIsTopological(g: Cfg, r: seq<Block>)
    requires g.Valid() && g.Acyclic() && IsReversePostorder(g, r)
    ensures IsTopological(g, r)
  {
    forall i, v | 0 <= i < |r| && g.Edge(r[i], v)
      ensures v in r[i + 1..]
    {
      if g.Reaches(v, r[i]) {
        var p :| g.PathFromTo(v, r[i], p);
        PathJoin(g, [r[i]], p);
        assert g.IsCycle([r[i]] + p);
      }
    }
  }

  // ----- the fixpoint iteration -----

  lemma ReachableInLayout(g: Cfg, b: Block)
    requires g.Reachable(b)
    ensures b in g.succ
  {
    var p :| g.PathFromTo(g.entry, b, p);
    assert p[|p| - 1] in g.succ;
  }

  /** The path definition of dominance as a table. */
  ghost function DominatorTable(g: Cfg): (t: Table) {
    map b | b in g.succ :: set d | d in g.succ && g.Dominates(d, b)
  }

  function Initial(g: Cfg): (t: Table) {
    map b | b in g.succ :: if b == g.entry then {b} else g.succ.Keys
  }

  /** What the block's predecessors have in common, and the block itself. */
  function Meet(g: Cfg, t: Table, b: Block): set<Block> {
    (set d | d in g.succ && forall p :: p in g.Preds(b) && p in t ==> d in t[p]) + {b}
  }

  function Update(g: Cfg, t: Table, b: Block): Table {
    if b == g.entry then t else t[b := Meet(g, t, b)]
  }

  function Sweep(g: Cfg, order: seq<Block>, t: Table): Table {
    if order == [] then t else Sweep(g, order[1..], Update(g, t, order[0]))
  }

  /** What every table of the iteration satisfies: it covers the blocks, lies
      above true dominance, and can only shrink. */
  ghost predicate Descending(g: Cfg, t: Table) {
    && t.Keys == g.succ.Keys
    && g.entry in t && t[g.entry] == {g.entry}
    && (forall b :: b in t ==> t[b] <= g.succ.Keys)
    && (forall b, d :: b in t && d in g.succ && g.Dominates(d, b) ==> d in t[b])
    && (forall b :: b in t && b != g.entry ==> Meet(g, t, b) <= t[b])
    && (forall b :: b in t && !g.Reachable(b) ==> t[b] == g.succ.Keys)
  }

  lemma EntryDominators(g: Cfg, d: Block)
    requires g.Valid() && g.Dominates(d, g.entry)
    ensures d == g.entry
  {
    assert g.PathFromTo(g.entry, g.entry, [g.entry]);
  }

  lemma InitialDescends(g: Cfg)
    requires g.Valid()
    ensures Descending(g, Initial(g))
  {
    forall d | d in g.succ && g.Dominates(d, g.entry)
      ensures d == g.entry
    {
      EntryDominators(g, d);
    }
    ReachesSelf(g, g.entry);
  }

  lemma MeetKeepsDominators(g: Cfg, t: Table, b: Block, d: Block)
    requires g.Valid() && Descending(g, t) && b in t
    requires d in g.succ && g.Dominates(d, b)
    ensures d in Meet(g, t, b)
  {
    if d != b {
      forall p | p in g.Preds(b) && p in t
        ensures d in t[p]
      {
        DominatesPredecessor(g, d, p, b);
      }
    }
  }

  lemma MeetMonotone(g: Cfg, t: Table, t': Table, b: Block)
    requires t.Keys == t'.Keys && forall p :: p in t ==> t'[p] <= t[p]
    ensures Meet(g, t', b) <= Meet(g, t, b)
  {
  }

  /** One update keeps the table above dominance and shrinks it, strictly when
      it changes anything. */
  lemma UpdateDescends(g: Cfg, t: Table, b: Block)
    requires g.Valid() && Descending(g, t) && b in t && g.Reachable(b)
    ensures Descending(g, Update(g, t, b))
    ensures forall c :: c in t ==> Update(g, t, b)[c] <= t[c]
  {
    var t' := Update(g, t, b);
    if b != g.entry {
      forall c, d | c in t' && d in g.succ && g.Dominates(d, c)
        ensures d in t'[c]
      {
        if c == b { MeetKeepsDominators(g, t, b, d); }
      }
      forall c | c in t' && c != g.entry
        ensures Meet(g, t', c) <= t'[c]
      {
        MeetMonotone(g, t, t', c);
      }
    }
  }

  ghost predicate Settled(g: Cfg, t: Table) {
    forall c :: c in t && g.Reachable(c) && c != g.entry ==> Meet(g, t, c) == t[c]
  }

  lemma SettledAtPredecessor(g: Cfg, t: Table, a: Block, b: Block, d: Block)
    requires g.Valid() && Descending(g, t) && Settled(g, t)
    requires g.Edge(a, b) && g.Reachable(b) && b != g.entry && d in t[b]
    ensures d == b || d in t[a]
  {
    assert b in t;
    assert d in Meet(g, t, b);
    assert a in g.Preds(b);
  }

  lemma {:induction false} FixpointIsExactOn(g: Cfg, t: Table, b: Block, d: Block, p: seq<Block>)
    requires g.Valid() && Descending(g, t)
    requires Settled(g, t)
    requires g.PathFromTo(g.entry, b, p) && d in t[b]
    ensures d in p
    decreases |p|
  {
    if b == g.entry || d == b {
      assert p[0] in p && p[|p| - 1] in p;
    } else {
      var n := |p| - 1;
      assert g.Edge(p[n - 1], p[n]);
      SettledAtPredecessor(g, t, p[n - 1], b, d);
      PathPrefix(g, p, n - 1);
      FixpointIsExactOn(g, t, p[n - 1], d, p[..n]);
    }
  }

  /** A table that one more sweep would not change is path dominance. */
  lemma FixpointIsDominance(g: Cfg, t: Table)
    requires g.Valid() && Descending(g, t)
    requires Settled(g, t)
    ensures t == DominatorTable(g)
  {
    forall b, d | b in t && d in t[b]
      ensures g.Dominates(d, b)
    {
      forall p | g.PathFromTo(g.entry, b, p)
        ensures d in p
      {
        FixpointIsExactOn(g, t, b, d, p);
      }
    }
    forall b | b in t
      ensures t[b] == DominatorTable(g)[b]
    {
    }
  }

  /** Where the predecessors' sets are exact, so is their meet. */
  lemma MeetOfExact(g: Cfg, t: Table, b: Block)
    requires g.Valid() && Descending(g, t) && b in t && b != g.entry
    requires forall p :: p in g.Preds(b) ==> t[p] == DominatorTable(g)[p]
    ensures Meet(g, t, b) == DominatorTable(g)[b]
  {
    forall d | d in Meet(g, t, b)
      ensures g.Dominates(d, b)
    {
      forall p | g.PathFromTo(g.entry, b, p)
        ensures d in p
      {
        if d == b {
          assert p[|p| - 1] in p;
        } else {
          var a := p[|p| - 2];
          assert g.Edge(a, b);
          PathPrefix(g, p, |p| - 2);
          assert a in g.Preds(b) && d in t[a];
          assert d in p[..|p| - 1];
        }
      }
    }
    forall d | d in DominatorTable(g)[b]
      ensures d in Meet(g, t, b)
    {
      MeetKeepsDominators(g, t, b, d);
    }
  }

  ghost predicate Exact(g: Cfg, t: Table, b: Block) {
    b in g.succ && b in t && t[b] == DominatorTable(g)[b]
  }

  ghost predicate ExactOn(g: Cfg, t: Table, done: seq<Block>) {
    forall b :: b in done ==> Exact(g, t, b)
  }

  lemma EntryIsExact(g: Cfg, t: Table)
    requires g.Valid() && Descending(g, t)
    ensures Exact(g, t, g.entry)
  {
    forall d | d in DominatorTable(g)[g.entry]
      ensures d == g.entry
    {
      EntryDominators(g, d);
    }
    forall p | g.PathFromTo(g.entry, g.entry, p)
      ensures g.entry in p
    {
      assert p[0] in p;
    }
  }

  lemma PredecessorSettled(g: Cfg, r: seq<Block>, i: nat, t: Table, a: Block)
    requires g.Valid() && IsTopological(g, r) && i < |r|
    requires Descending(g, t) && ExactOn(g, t, r[..i])
    requires g.Edge(a, r[i])
    ensures Exact(g, t, a)
  {
    if g.Reachable(a) {
      var k :| 0 <= k < |r| && r[k] == a;
      var m :| 0 <= m < |r[k + 1..]| && r[k + 1..][m] == r[i];
      assert r[k + 1 + m] == r[i];
      assert k + 1 + m == i;
      assert a in r[..i];
    } else {
      assert DominatorTable(g)[a] == g.succ.Keys;
    }
  }

  lemma UpdateSettles(g: Cfg, r: seq<Block>, i: nat, t: Table)
    requires g.Valid() && IsTopological(g, r) && i < |r|
    requires Descending(g, t) && ExactOn(g, t, r[..i])
    ensures r[i] in g.succ && Exact(g, Update(g, t, r[i]), r[i])
  {
    var b := r[i];
    assert b in r;
    ReachableInLayout(g, b);
    if b == g.entry {
      EntryIsExact(g, t);
    } else {
      forall a | a in g.Preds(b)
        ensures Exact(g, t, a)
      {
        PredecessorSettled(g, r, i, t, a);
      }
      MeetOfExact(g, t, b);
    }
  }

  lemma SettleOne(g: Cfg, r: seq<Block>, i: nat, t: Table)
    requires g.Valid() && IsTopological(g, r) && i < |r|
    requires Descending(g, t) && ExactOn(g, t, r[..i])
    ensures Descending(g, Update(g, t, r[i])) && ExactOn(g, Update(g, t, r[i]), r[..i + 1])
  {
    var b := r[i];
    var t' := Update(g, t, b);
    UpdateSettles(g, r, i, t);
    assert Descending(g, t') by {
      assert b in r;
      UpdateDescends(g, t, b);
    }
    forall c | c in r[..i + 1]
      ensures Exact(g, t', c)
    {
      if c != b {
        assert c in r[..i];
        assert Exact(g, t, c);
        assert t'[c] == t[c];
      }
    }
  }

  /** In a topological order one sweep settles every block. */
  lemma {:induction false} SweepSettles(g: Cfg, r: seq<Block>, i: nat, t: Table)
    requires g.Valid() && IsTopological(g, r) && i <= |r|
    requires Descending(g, t) && ExactOn(g, t, r[..i])
    ensures Descending(g, Sweep(g, r[i..], t))
    ensures ExactOn(g, Sweep(g, r[i..], t), r)
    decreases |r| - i
  {
    if i == |r| {
      assert r[..i] == r && r[i..] == [];
    } else {
      SettleOne(g, r, i, t);
      SweepSettles(g, r, i + 1, Update(g, t, r[i]));
      assert r[i..][0] == r[i] && r[i..][1..] == r[i + 1..];
    }
  }

  lemma UnreachableIsExact(g: Cfg, t: Table, b: Block)
    requires Descending(g, t) && b in g.succ && !g.Reachable(b)
    ensures Exact(g, t, b)
  {
    assert DominatorTable(g)[b] == g.succ.Keys;
  }

  /** On an acyclic graph the first sweep already yields path dominance. */
  lemma FirstSweepIsDominance(g: Cfg, r: seq<Block>)
    requires g.Valid() && IsTopological(g, r)
    ensures Sweep(g, r, Initial(g)) == DominatorTable(g)
  {
    InitialDescends(g);
    assert r[0..] == r;
    SweepSettles(g, r, 0, Initial(g));
    var t := Sweep(g, r, Initial(g));
    forall b | b in g.succ
      ensures Exact(g, t, b)
    {
      if b !in r { UnreachableIsExact(g, t, b); }
    }
  }

  /** Path dominance is a fixpoint of every update. */
  lemma DominanceIsFixpoint(g: Cfg, b: Block)
    requires g.Valid() && Descending(g, DominatorTable(g)) && b in g.succ
    ensures Update(g, DominatorTable(g), b) == DominatorTable(g)
  {
    if b != g.entry {
      MeetOfExact(g, DominatorTable(g), b);
    }
  }

  lemma {:induction false} SweepOfDominance(g: Cfg, order: seq<Block>)
    requires g.Valid() && Descending(g, DominatorTable(g))
    requires forall b :: b in order ==> b in g.succ
    ensures Sweep(g, order, DominatorTable(g)) == DominatorTable(g)
  {
    if order != [] {
      DominanceIsFixpoint(g, order[0]);
      SweepOfDominance(g, order[1..]);
    }
  }

  /** The pairs of the table, which every change strictly diminishes. */
  ghost function Pairs(g: Cfg, t: Table): set<(Block, Block)> {
    set b, d | b in g.succ && d in g.succ && b in t && d in t[b] :: (b, d)
  }

  lemma PairsShrink(g: Cfg, t: Table, t': Table, b: Block)
    requires b in g.succ && b in t && b in t' && t[b] <= g.succ.Keys
    requires t' == t[b := t'[b]] && t'[b] < t[b]
    ensures Pairs(g, t') < Pairs(g, t)
  {
    var d :| d in t[b] && d !in t'[b];
    assert (b, d) in Pairs(g, t) && (b, d) !in Pairs(g, t');
  }

  /** The intersection of the predecessors' sets, computed by a loop. */
  method IntersectPredecessors(g: Cfg, t: Table, b: Block) returns (newDom: set<Block>)
    ensures newDom == Meet(g, t, b)
  {
    newDom := g.succ.Keys;
    var preds := Ascending(g.Preds(b));
    for i := 0 to |preds|
      invariant newDom == set d | d in g.succ && forall k :: 0 <= k < i && preds[k] in t ==> d in t[preds[k]]
    {
      if preds[i] in t {
        newDom := newDom * t[preds[i]];
      }
    }
    forall d | d in newDom
      ensures forall p :: p in g.Preds(b) && p in t ==> d in t[p]
    {
      forall p | p in g.Preds(b) && p in t
        ensures d in t[p]
      {
        assert p in preds;
        var k :| 0 <= k < |preds| && preds[k] == p;
      }
    }
    newDom := newDom + {b};
  }

  /** What a sweep from `t` has established after the blocks `done`. */
  ghost predicate SweepState(g: Cfg, t: Table, t': Table, changed: bool, done: seq<Block>) {
    && Descending(g, t')
    && Pairs(g, t') <= Pairs(g, t)
    && (changed ==> Pairs(g, t') < Pairs(g, t))
    && (!changed ==> t' == t && forall b :: b in done && b != g.entry ==> b in t && Meet(g, t, b) == t[b])
  }

  lemma UpdateShrinks(g: Cfg, t: Table, node: Block)
    requires g.Valid() && Descending(g, t) && node in g.succ && g.Reachable(node)
    ensures Descending(g, Update(g, t, node))
    ensures Update(g, t, node) != t ==> Pairs(g, Update(g, t, node)) < Pairs(g, t)
    ensures Update(g, t, node) == t && node != g.entry ==> Meet(g, t, node) == t[node]
  {
    UpdateDescends(g, t, node);
    var t' := Update(g, t, node);
    if t' != t {
      assert t'[node] == t[node] ==> t' == t;
      PairsShrink(g, t, t', node);
    } else if node != g.entry {
      assert t[node := Meet(g, t, node)][node] == t[node];
    }
  }

  lemma SweepStep(g: Cfg, t: Table, t1: Table, t2: Table, changed: bool, done: seq<Block>, node: Block)
    requires g.Valid() && SweepState(g, t, t1, changed, done)
    requires node in g.succ && g.Reachable(node) && t2 == Update(g, t1, node)
    ensures SweepState(g, t, t2, changed || t2 != t1, done + [node])
  {
    UpdateShrinks(g, t1, node);
  }

  /** Recomputes one block's set and says whether it changed. */
  method UpdateBlock(g: Cfg, t: Table, node: Block) returns (t': Table, changed: bool)
    requires node in t
    ensures t' == Update(g, t, node) && (changed <==> t' != t)
  {
    t', changed := t, false;
    if node == g.entry {
      return;
    }
    var newDom := IntersectPredecessors(g, t, node);
    if t[node] != newDom {
      t', changed := t[node := newDom], true;
      assert t'[node] != t[node];
    } else {
      assert t[node := newDom] == t;
    }
  }

  lemma SweepCons(g: Cfg, order: seq<Block>, i: nat, t: Table)
    requires i < |order|
    ensures Sweep(g, order[i..], t) == Sweep(g, order[i + 1..], Update(g, t, order[i]))
  {
    assert order[i..][0] == order[i] && order[i..][1..] == order[i + 1..];
  }

  /** One pass over the reverse postorder. */
  method SweepOnce(g: Cfg, order: seq<Block>, t: Table) returns (t': Table, changed: bool)
    requires g.Valid() && Descending(g, t)
    requires forall b :: b in order ==> b in g.succ && g.Reachable(b)
    ensures t' == Sweep(g, order, t)
    ensures SweepState(g, t, t', changed, order)
  {
    t', changed := t, false;
    assert order[0..] == order;
    for i := 0 to |order|
      invariant Sweep(g, order, t) == Sweep(g, order[i..], t')
      invariant SweepState(g, t, t', changed, order[..i])
    {
      var node := order[i];
      assert node in order;
      SweepCons(g, order, i, t');
      SweepStep(g, t, t', Update(g, t', node), changed, order[..i], node);
      var here;
      t', here := UpdateBlock(g, t', node);
      changed := changed || here;
      assert order[..i] + [node] == order[..i + 1];
    }
    assert order[..|order|] == order;
  }

  /** The dominator analysis returns path dominance: for each block the blocks on
      all entry-to-block paths.  On an acyclic graph it makes at most two sweeps. */
  method ComputeDominators(g: Cfg) returns (dominators: Table, ghost sweeps: nat)
    requires g.Valid()
    ensures dominators == DominatorTable(g)
    ensures g.Acyclic() ==> sweeps <= 2
  {
    dominators, sweeps := Initial(g), 0;
    InitialDescends(g);
    var order := ReversePostorder(g);
    forall b | b in order
      ensures b in g.succ
    {
      ReachableInLayout(g, b);
    }
    if g.Acyclic() {
      ReversePostorderIsTopological(g, order);
      FirstSweepIsDominance(g, order);
    }
    var changed := true;
    while changed
      invariant Descending(g, dominators)
      invariant sweeps == 0 ==> dominators == Initial(g)
      invariant !changed ==> dominators == DominatorTable(g)
      invariant g.Acyclic() && sweeps > 0 ==> dominators == DominatorTable(g)
      invariant g.Acyclic() ==> sweeps <= if changed then 1 else 2
      decreases Pairs(g, dominators), changed
    {
      if g.Acyclic() && sweeps > 0 { SweepOfDominance(g, order); }
      dominators, changed := SweepOnce(g, order, dominators);
      sweeps := sweeps + 1;
      if !changed {
        assert Settled(g, dominators) by {
          assert forall b :: g.Reachable(b) ==> b in order;
        }
        FixpointIsDominance(g, dominators);
      }
    }
  }
}
