/** Control-flow graphs as maps from a block to the set of its successors, paths
    through them, and dominance defined by paths.  Blocks are numbered like
    Cranelift's `Block` entities. */
module Graphs {

  type Block = nat

  predicate Distinct(s: seq<nat>) {
    forall i, j :: 0 <= i < j < |s| ==> s[i] != s[j]
  }

  datatype Cfg = Cfg(entry: Block, succ: map<Block, set<Block>>) {

    /** The entry is a block of the layout, and so is every branch target. */
    ghost predicate Valid() {
      entry in succ && forall b :: b in succ ==> succ[b] <= succ.Keys
    }

    predicate Edge(a: Block, b: Block) {
      a in succ && b in succ[a]
    }

    /** A nonempty walk along edges. */
    ghost predicate IsPath(p: seq<Block>) {
      && |p| > 0
      && (forall i :: 0 <= i < |p| ==> p[i] in succ)
      && (forall i :: 0 <= i < |p| - 1 ==> Edge(p[i], p[i + 1]))
    }

    ghost predicate PathFromTo(a: Block, b: Block, p: seq<Block>) {
      IsPath(p) && p[0] == a && p[|p| - 1] == b
    }

    ghost predicate Reaches(a: Block, b: Block) {
      exists p :: PathFromTo(a, b, p)
    }

    ghost predicate Reachable(b: Block) {
      Reaches(entry, b)
    }

    /** `d` lies on every path from the entry to `b`; so every block dominates
        an unreachable one. */
    ghost predicate Dominates(d: Block, b: Block) {
      forall p :: PathFromTo(entry, b, p) ==> d in p
    }

    ghost predicate StrictlyDominates(d: Block, b: Block) {
      d != b && Dominates(d, b)
    }

    /** A walk of at least one edge that ends where it began. */
    ghost predicate IsCycle(p: seq<Block>) {
      IsPath(p) && |p| >= 2 && p[0] == p[|p| - 1]
    }

    ghost predicate Acyclic() {
      forall p :: !IsCycle(p)
    }

    function Preds(b: Block): set<Block> {
      set a | a in succ && b in succ[a]
    }
  }

  lemma PathPrefix(g: Cfg, p: seq<Block>, i: nat)
    requires g.IsPath(p) && i < |p|
    ensures g.PathFromTo(p[0], p[i], p[..i + 1])
  {
  }

  lemma PathSuffix(g: Cfg, p: seq<Block>, i: nat)
    requires g.IsPath(p) && i < |p|
    ensures g.PathFromTo(p[i], p[|p| - 1], p[i..])
  {
  }

  /** Joins two walks by an edge. */
  lemma PathJoin(g: Cfg, p: seq<Block>, q: seq<Block>)
    requires g.IsPath(p) && g.IsPath(q) && g.Edge(p[|p| - 1], q[0])
    ensures g.PathFromTo(p[0], q[|q| - 1], p + q)
  {
    var r := p + q;
    forall i | 0 <= i < |r| - 1
      ensures g.Edge(r[i], r[i + 1])
    {
      if i < |p| - 1 {
        assert r[i] == p[i] && r[i + 1] == p[i + 1];
      } else if i >= |p| {
        assert r[i] == q[i - |p|] && r[i + 1] == q[i + 1 - |p|];
      }
    }
  }

  /** Joins two walks at a shared block. */
  lemma PathMeet(g: Cfg, p: seq<Block>, q: seq<Block>)
    requires g.IsPath(p) && g.IsPath(q) && p[|p| - 1] == q[0]
    ensures g.PathFromTo(p[0], q[|q| - 1], p + q[1..])
  {
    if |q| == 1 {
      assert p + q[1..] == p;
    } else {
      PathSuffix(g, q, 1);
      assert g.Edge(q[0], q[1]);
      PathJoin(g, p, q[1..]);
    }
  }

  lemma ReachesTransitive(g: Cfg, a: Block, b: Block, c: Block)
    requires g.Reaches(a, b) && g.Reaches(b, c)
    ensures g.Reaches(a, c)
  {
    var p :| g.PathFromTo(a, b, p);
    var q :| g.PathFromTo(b, c, q);
    PathMeet(g, p, q);
  }

  lemma EdgeReaches(g: Cfg, a: Block, b: Block)
    requires g.Valid() && g.Edge(a, b)
    ensures g.Reaches(a, b)
  {
    assert g.PathFromTo(a, b, [a, b]);
  }

  lemma ReachesSelf(g: Cfg, a: Block)
    requires a in g.succ
    ensures g.Reaches(a, a)
  {
    assert g.PathFromTo(a, a, [a]);
  }

  lemma DominatesTransitive(g: Cfg, a: Block, b: Block, c: Block)
    requires g.Dominates(a, b) && g.Dominates(b, c)
    ensures g.Dominates(a, c)
  {
    forall p | g.PathFromTo(g.entry, c, p)
      ensures a in p
    {
      var i :| 0 <= i < |p| && p[i] == b;
      PathPrefix(g, p, i);
      assert a in p[..i + 1];
    }
  }

  /** A strict dominator of a block dominates each of its predecessors. */
  lemma DominatesPredecessor(g: Cfg, d: Block, a: Block, b: Block)
    requires g.Valid() && g.StrictlyDominates(d, b) && g.Edge(a, b)
    ensures g.Dominates(d, a)
  {
    forall p | g.PathFromTo(g.entry, a, p)
      ensures d in p
    {
      PathJoin(g, p, [b]);
      assert d in p + [b];
    }
  }

  /** Along any path to `b`, dominance between distinct blocks is one-way. */
  lemma {:induction false} DominanceAntisymmetricOn(g: Cfg, d: Block, b: Block, p: seq<Block>)
    requires g.StrictlyDominates(d, b)
    requires g.PathFromTo(g.entry, b, p)
    ensures !g.Dominates(b, d)
    decreases |p|
  {
    var i :| 0 <= i < |p| && p[i] == d;
    PathPrefix(g, p, i);
    if g.Dominates(b, d) {
      assert b in p[..i + 1];
      var j :| 0 <= j < i + 1 && p[j] == b;
      PathPrefix(g, p, j);
      DominanceAntisymmetricOn(g, d, b, p[..j + 1]);
    }
  }

  /** Two distinct blocks do not dominate each other when one is reachable. */
  lemma DominanceAntisymmetric(g: Cfg, d: Block, b: Block)
    requires g.StrictlyDominates(d, b) && g.Reachable(b)
    ensures !g.Dominates(b, d)
  {
    var p :| g.PathFromTo(g.entry, b, p);
    DominanceAntisymmetricOn(g, d, b, p);
  }

  predicate IsLeast(m: Block, s: set<Block>) {
    m in s && forall x :: x in s ==> m <= x
  }

  lemma {:induction false} LeastExists(s: set<Block>)
    requires s != {}
    ensures exists m :: IsLeast(m, s)
  {
    var y :| y in s;
    var t := s - {y};
    assert forall x :: x in s ==> x == y || x in t;
    if t == {} {
      assert IsLeast(y, s);
    } else {
      LeastExists(t);
      var m :| IsLeast(m, t);
      assert IsLeast(if m <= y then m else y, s);
    }
  }

  function Least(s: set<Block>): (m: Block)
    requires s != {}
    ensures IsLeast(m, s)
  {
    LeastExists(s);
    var m :| IsLeast(m, s);
    m
  }

  predicate StrictlyAscending(r: seq<Block>) {
    forall i, j :: 0 <= i < j < |r| ==> r[i] < r[j]
  }

  /** The elements of a finite set of blocks in increasing order: the order in
      which Cranelift's flow graph iterates over successors. */
  function Ascending(s: set<Block>): (r: seq<Block>)
    ensures forall b :: b in r <==> b in s
    ensures |r| == |s|
    ensures StrictlyAscending(r)
  {
    if s == {} then []
    else
      var m := Least(s);
      [m] + Ascending(s - {m})
  }
}
