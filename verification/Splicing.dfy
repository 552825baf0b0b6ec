/** Replacing one block of a flow graph by a fresh single-entry single-exit
    region, and what that does to paths, dominance, reachability and
    reducibility. */
module Splicing {
  import opened Graphs

  /** `h` is a header of the walk `c`: it lies on it and dominates all of it. */
  ghost predicate IsHeader(g: Cfg, h: Block, c: seq<Block>) {
    h in c && forall x :: x in c ==> g.Dominates(h, x)
  }

  /** Every cycle has a block that dominates the whole cycle. */
  ghost predicate Reducible(g: Cfg) {
    forall c :: g.IsCycle(c) ==> exists h :: IsHeader(g, h, c)
  }

  ghost predicate AllReachable(g: Cfg) {
    forall b {:trigger g.Reachable(b)} :: b in g.succ ==> g.Reachable(b)
  }

  ghost predicate AllReach(g: Cfg, exit: Block) {
    forall b {:trigger g.Reaches(b, exit)} :: b in g.succ ==> g.Reaches(b, exit)
  }

  predicate NoSelfEdges(g: Cfg) {
    forall b :: b in g.succ ==> b !in g.succ[b]
  }

  /** The exit is the one block without successors. */
  predicate UniqueExit(g: Cfg, exit: Block) {
    exit in g.succ && forall b :: b in g.succ ==> (g.succ[b] == {} <==> b == exit)
  }

  /** What the generator promises of a finished graph, and what a region is. */
  ghost predicate Structured(g: Cfg, exit: Block) {
    && g.Valid() && g.entry != exit
    && UniqueExit(g, exit)
    && NoSelfEdges(g)
    && AllReachable(g)
    && AllReach(g, exit)
    && Reducible(g)
  }

  function Redirect(s: set<Block>, from: Block, to: Block): set<Block> {
    if from in s then s - {from} + {to} else s
  }

  /** The block `r` of `g` replaced by the region `R` with exit `last`. */
  function Splice(g: Cfg, r: Block, R: Cfg, last: Block): Cfg
    requires r in g.succ
  {
    Cfg(g.entry,
        map b | b in (g.succ.Keys - {r}) + R.succ.Keys ::
          if b == last then g.succ[r]
          else if b in R.succ then R.succ[b]
          else Redirect(g.succ[b], r, R.entry))
  }

  ghost predicate Spliceable(g: Cfg, r: Block, R: Cfg, last: Block) {
    && g.Valid() && NoSelfEdges(g)
    && r in g.succ && r != g.entry
    && R.succ.Keys !! g.succ.Keys
    && R.Valid() && NoSelfEdges(R)
    && last in R.succ && R.succ[last] == {}
  }

  /** The old block that a block of the spliced graph stands for. */
  function Origin(R: Cfg, r: Block, b: Block): Block {
    if b in R.succ then r else b
  }

  lemma SpliceEdge(g: Cfg, r: Block, R: Cfg, last: Block, a: Block, b: Block)
    requires Spliceable(g, r, R, last)
    requires Splice(g, r, R, last).Edge(a, b)
    ensures a in R.succ && b in R.succ ==> R.Edge(a, b)
    ensures a !in R.succ && b in R.succ ==> b == R.entry
    ensures a in R.succ && b !in R.succ ==> a == last
    ensures !(a in R.succ && b in R.succ) ==> g.Edge(Origin(R, r, a), Origin(R, r, b))
    ensures b in Splice(g, r, R, last).succ
  {
  }

  lemma SpliceValid(g: Cfg, r: Block, R: Cfg, last: Block)
    requires Spliceable(g, r, R, last)
    ensures Splice(g, r, R, last).Valid()
    ensures NoSelfEdges(Splice(g, r, R, last))
  {
    var g' := Splice(g, r, R, last);
    forall a, b | a in g'.succ && b in g'.succ[a]
      ensures b in g'.succ && a != b
    {
      SpliceEdge(g, r, R, last, a, b);
    }
  }

  /** No branch leads back to the entry. */
  predicate EntryFree(g: Cfg) {
    forall b :: b in g.succ ==> g.entry !in g.succ[b]
  }

  lemma SpliceEntryFree(g: Cfg, r: Block, R: Cfg, last: Block)
    requires Spliceable(g, r, R, last) && EntryFree(g)
    ensures EntryFree(Splice(g, r, R, last))
  {
    var g' := Splice(g, r, R, last);
    forall b | b in g'.succ
      ensures g'.entry !in g'.succ[b]
    {
      if g'.Edge(b, g.entry) {
        SpliceEdge(g, r, R, last, b, g.entry);
      }
    }
  }

  // ----- projecting walks of the spliced graph -----

  /** Each run of region blocks is replaced by one visit to `r`. */
  function Collapse(R: Cfg, r: Block, q: seq<Block>): (p: seq<Block>)
    ensures |p| <= |q|
  {
    if q == [] then []
    else if q[0] !in R.succ then [q[0]] + Collapse(R, r, q[1..])
    else if |q| == 1 || q[1] !in R.succ then [r] + Collapse(R, r, q[1..])
    else Collapse(R, r, q[1..])
  }

  lemma {:induction false} CollapseMembers(R: Cfg, r: Block, q: seq<Block>)
    requires r !in q
    ensures forall x :: x != r ==> (x in Collapse(R, r, q) <==> x in q && x !in R.succ)
    ensures r in Collapse(R, r, q) <==> exists x :: x in q && x in R.succ
  {
    if q != [] {
      CollapseMembers(R, r, q[1..]);
      assert q == [q[0]] + q[1..];
    }
  }

  lemma {:induction false} CollapsePath(g: Cfg, r: Block, R: Cfg, last: Block, q: seq<Block>)
    requires Spliceable(g, r, R, last) && Splice(g, r, R, last).IsPath(q)
    ensures g.PathFromTo(Origin(R, r, q[0]), Origin(R, r, q[|q| - 1]), Collapse(R, r, q))
  {
    var g' := Splice(g, r, R, last);
    if |q| == 1 {
      assert Collapse(R, r, q[1..]) == [];
    } else {
      PathSuffix(g', q, 1);
      CollapsePath(g, r, R, last, q[1..]);
      assert g'.Edge(q[0], q[1]);
      SpliceEdge(g, r, R, last, q[0], q[1]);
      if !(q[0] in R.succ && q[1] in R.succ) {
        PathJoin(g, [Origin(R, r, q[0])], Collapse(R, r, q[1..]));
      }
    }
  }

  /** A walk that is outside the region before being inside enters by the first
      block. */
  lemma {:induction false} EntersByFirst(g: Cfg, r: Block, R: Cfg, last: Block, q: seq<Block>, i: nat, j: nat)
    requires Spliceable(g, r, R, last) && Splice(g, r, R, last).IsPath(q)
    requires i < j < |q| && q[i] !in R.succ && q[j] in R.succ
    ensures R.entry in q
    decreases j
  {
    assert Splice(g, r, R, last).Edge(q[j - 1], q[j]);
    SpliceEdge(g, r, R, last, q[j - 1], q[j]);
    if q[j - 1] in R.succ {
      EntersByFirst(g, r, R, last, q, i, j - 1);
    }
  }

  /** The part of a walk after its last entry into the region. */
  lemma {:induction false} LastRun(g: Cfg, r: Block, R: Cfg, last: Block, q: seq<Block>) returns (k: nat)
    requires Spliceable(g, r, R, last) && Splice(g, r, R, last).IsPath(q)
    requires q[0] !in R.succ && q[|q| - 1] in R.succ
    ensures k < |q| && R.PathFromTo(R.entry, q[|q| - 1], q[k..])
  {
    k := |q| - 1;
    while q[k - 1] in R.succ
      invariant 0 < k < |q|
      invariant R.IsPath(q[k..]) && q[k..][|q| - k - 1] == q[|q| - 1]
      decreases k
    {
      assert Splice(g, r, R, last).Edge(q[k - 1], q[k]);
      SpliceEdge(g, r, R, last, q[k - 1], q[k]);
      PathJoin(R, [q[k - 1]], q[k..]);
      assert [q[k - 1]] + q[k..] == q[k - 1..];
      k := k - 1;
    }
    assert Splice(g, r, R, last).Edge(q[k - 1], q[k]);
    SpliceEdge(g, r, R, last, q[k - 1], q[k]);
  }

  // ----- dominance -----

  lemma SurvivorAvoids(g: Cfg, r: Block, R: Cfg, last: Block, q: seq<Block>)
    requires Spliceable(g, r, R, last) && Splice(g, r, R, last).IsPath(q)
    ensures r !in q
  {
  }

  /** A surviving block keeps dominating what stands for what it dominated. */
  lemma SurvivorDominates(g: Cfg, r: Block, R: Cfg, last: Block, d: Block, b: Block)
    requires Spliceable(g, r, R, last)
    requires d != r && g.Dominates(d, Origin(R, r, b)) && d in g.succ
    ensures Splice(g, r, R, last).Dominates(d, b)
  {
    forall q | Splice(g, r, R, last).PathFromTo(g.entry, b, q)
      ensures d in q
    {
      CollapsePath(g, r, R, last, q);
      SurvivorAvoids(g, r, R, last, q);
      CollapseMembers(R, r, q);
    }
  }

  /** The region's first block dominates what the replaced block dominated. */
  lemma FirstDominates(g: Cfg, r: Block, R: Cfg, last: Block, b: Block)
    requires Spliceable(g, r, R, last) && g.Dominates(r, Origin(R, r, b))
    ensures Splice(g, r, R, last).Dominates(R.entry, b)
  {
    forall q | Splice(g, r, R, last).PathFromTo(g.entry, b, q)
      ensures R.entry in q
    {
      CollapsePath(g, r, R, last, q);
      SurvivorAvoids(g, r, R, last, q);
      CollapseMembers(R, r, q);
      var x :| x in q && x in R.succ;
      var j :| 0 <= j < |q| && q[j] == x;
      EntersByFirst(g, r, R, last, q, 0, j);
    }
  }

  /** Dominance inside the region carries over. */
  lemma InnerDominates(g: Cfg, r: Block, R: Cfg, last: Block, h: Block, b: Block)
    requires Spliceable(g, r, R, last) && b in R.succ && R.Dominates(h, b)
    ensures Splice(g, r, R, last).Dominates(h, b)
  {
    forall q | Splice(g, r, R, last).PathFromTo(g.entry, b, q)
      ensures h in q
    {
      var k := LastRun(g, r, R, last, q);
      assert h in q[k..];
    }
  }

  // ----- reducibility -----

  lemma InnerWalk(g: Cfg, r: Block, R: Cfg, last: Block, q: seq<Block>)
    requires Spliceable(g, r, R, last) && Splice(g, r, R, last).IsPath(q)
    requires forall x :: x in q ==> x in R.succ
    ensures R.IsPath(q)
  {
    forall i | 0 <= i < |q| - 1
      ensures R.Edge(q[i], q[i + 1])
    {
      assert Splice(g, r, R, last).Edge(q[i], q[i + 1]);
      SpliceEdge(g, r, R, last, q[i], q[i + 1]);
    }
  }

  /** A cycle inside the region has its header there. */
  lemma InnerCycle(g: Cfg, r: Block, R: Cfg, last: Block, c: seq<Block>) returns (h: Block)
    requires Spliceable(g, r, R, last) && Reducible(R) && Splice(g, r, R, last).IsCycle(c)
    requires forall x :: x in c ==> x in R.succ
    ensures IsHeader(Splice(g, r, R, last), h, c)
  {
    InnerWalk(g, r, R, last, c);
    assert R.IsCycle(c);
    h :| IsHeader(R, h, c);
    forall x | x in c
      ensures Splice(g, r, R, last).Dominates(h, x)
    {
      InnerDominates(g, r, R, last, h, x);
    }
  }

  lemma CollapsedCycle(g: Cfg, r: Block, R: Cfg, last: Block, c: seq<Block>, s: Block)
    requires Spliceable(g, r, R, last) && Splice(g, r, R, last).IsCycle(c)
    requires s in c && s !in R.succ
    ensures g.IsCycle(Collapse(R, r, c))
  {
    CollapsePath(g, r, R, last, c);
    SurvivorAvoids(g, r, R, last, c);
    CollapseMembers(R, r, c);
  }

  /** A cycle that leaves the region has the image of its old header. */
  lemma OuterCycle(g: Cfg, r: Block, R: Cfg, last: Block, c: seq<Block>, s: Block) returns (h: Block)
    requires Spliceable(g, r, R, last) && Reducible(g) && Splice(g, r, R, last).IsCycle(c)
    requires s in c && s !in R.succ
    ensures IsHeader(Splice(g, r, R, last), h, c)
  {
    var p := Collapse(R, r, c);
    CollapsedCycle(g, r, R, last, c, s);
    SurvivorAvoids(g, r, R, last, c);
    CollapseMembers(R, r, c);
    var h0 :| IsHeader(g, h0, p);
    forall x | x in c
      ensures g.Dominates(h0, Origin(R, r, x))
    {
      assert Origin(R, r, x) in p;
    }
    if h0 == r {
      h := R.entry;
      var x :| x in c && x in R.succ;
      FirstOnCycle(g, r, R, last, c, s, x);
      forall y | y in c
        ensures Splice(g, r, R, last).Dominates(h, y)
      {
        FirstDominates(g, r, R, last, y);
      }
    } else {
      h := h0;
      forall y | y in c
        ensures Splice(g, r, R, last).Dominates(h, y)
      {
        SurvivorDominates(g, r, R, last, h, y);
      }
    }
  }

  lemma FirstOnCycle(g: Cfg, r: Block, R: Cfg, last: Block, c: seq<Block>, s: Block, x: Block)
    requires Spliceable(g, r, R, last) && Splice(g, r, R, last).IsCycle(c)
    requires s in c && s !in R.succ && x in c && x in R.succ
    ensures R.entry in c
  {
    var i :| 0 <= i < |c| && c[i] == s;
    var j :| 0 <= j < |c| && c[j] == x;
    if c[0] in R.succ {
      EntersByFirst(g, r, R, last, c, i, |c| - 1);
    } else {
      EntersByFirst(g, r, R, last, c, 0, j);
    }
  }

  /** Splicing a region for a block keeps every cycle headed. */
  lemma SpliceReducible(g: Cfg, r: Block, R: Cfg, last: Block)
    requires Spliceable(g, r, R, last) && Reducible(g) && Reducible(R)
    ensures Reducible(Splice(g, r, R, last))
  {
    var g' := Splice(g, r, R, last);
    forall c | g'.IsCycle(c)
      ensures exists h :: IsHeader(g', h, c)
    {
      if s :| s in c && s !in R.succ {
        var h := OuterCycle(g, r, R, last, c, s);
      } else {
        var h := InnerCycle(g, r, R, last, c);
      }
    }
  }

  // ----- path correspondence -----

  /** `q` is `p` with each visit to `r` replaced by a first-to-last walk through
      the region. */
  ghost predicate Expands(r: Block, R: Cfg, last: Block, p: seq<Block>, q: seq<Block>)
    decreases |p|
  {
    if p == [] then q == []
    else if p[0] != r then q != [] && q[0] == p[0] && Expands(r, R, last, p[1..], q[1..])
    else exists k :: ExpandsAt(r, R, last, p, q, k)
  }

  ghost predicate ExpandsAt(r: Block, R: Cfg, last: Block, p: seq<Block>, q: seq<Block>, k: nat)
    requires p != []
    decreases |p|, 0
  {
    0 < k <= |q| && R.PathFromTo(R.entry, last, q[..k]) && Expands(r, R, last, p[1..], q[k..])
  }

  /** Where the image of a visit to `b` begins and ends. */
  function FirstOf(r: Block, R: Cfg, b: Block): Block {
    if b == r then R.entry else b
  }

  function LastOf(r: Block, last: Block, b: Block): Block {
    if b == r then last else b
  }

  lemma EdgeSpliced(g: Cfg, r: Block, R: Cfg, last: Block, a: Block, b: Block)
    requires Spliceable(g, r, R, last) && g.Edge(a, b)
    ensures Splice(g, r, R, last).Edge(LastOf(r, last, a), FirstOf(r, R, b))
  {
  }

  lemma RegionWalkSurvives(g: Cfg, r: Block, R: Cfg, last: Block, w: seq<Block>)
    requires Spliceable(g, r, R, last) && R.IsPath(w)
    ensures Splice(g, r, R, last).IsPath(w)
  {
    var g' := Splice(g, r, R, last);
    forall i | 0 <= i < |w| - 1
      ensures g'.Edge(w[i], w[i + 1])
    {
      assert R.Edge(w[i], w[i + 1]);
    }
  }

  /** The image of one visit: `[b]`, or the region walk in place of `r`. */
  lemma VisitImage(g: Cfg, r: Block, R: Cfg, last: Block, b: Block, w: seq<Block>)
    requires Spliceable(g, r, R, last) && b in g.succ
    requires if b == r then R.PathFromTo(R.entry, last, w) else w == [b]
    ensures Splice(g, r, R, last).PathFromTo(FirstOf(r, R, b), LastOf(r, last, b), w)
  {
    if b == r { RegionWalkSurvives(g, r, R, last, w); }
  }

  /** Expanding an old path gives a path of the spliced graph. */
  lemma {:induction false} ExpansionIsPath(g: Cfg, r: Block, R: Cfg, last: Block, p: seq<Block>, q: seq<Block>)
    requires Spliceable(g, r, R, last) && g.IsPath(p) && Expands(r, R, last, p, q)
    ensures Splice(g, r, R, last).PathFromTo(FirstOf(r, R, p[0]), LastOf(r, last, p[|p| - 1]), q)
    decreases |p|
  {
    var k: nat;
    if p[0] == r {
      k :| ExpandsAt(r, R, last, p, q, k);
    } else {
      k := 1;
      assert q[..1] == [p[0]];
    }
    VisitImage(g, r, R, last, p[0], q[..k]);
    assert q == q[..k] + q[k..];
    if |p| == 1 {
      assert p[1..] == [];
      assert Expands(r, R, last, p[1..], q[k..]);
      assert q[k..] == [];
      assert q == q[..k];
    } else {
      PathSuffix(g, p, 1);
      ExpansionIsPath(g, r, R, last, p[1..], q[k..]);
      assert g.Edge(p[0], p[1]);
      EdgeSpliced(g, r, R, last, p[0], p[1]);
      PathJoin(Splice(g, r, R, last), q[..k], q[k..]);
    }
  }

  /** Every old path has an expansion, given one way through the region. */
  lemma {:induction false} ExpansionExists(r: Block, R: Cfg, last: Block, w: seq<Block>, p: seq<Block>)
    returns (q: seq<Block>)
    requires R.PathFromTo(R.entry, last, w)
    ensures Expands(r, R, last, p, q)
  {
    if p == [] {
      q := [];
    } else {
      var t := ExpansionExists(r, R, last, w, p[1..]);
      var v := if p[0] == r then w else [p[0]];
      q := v + t;
      assert q[..|v|] == v && q[|v|..] == t;
      if p[0] == r {
        assert ExpandsAt(r, R, last, p, q, |w|);
      }
    }
  }

  /** The run of region blocks at the start of a walk that begins at the first
      block and does not stop inside: it goes from first to last. */
  lemma FirstRun(g: Cfg, r: Block, R: Cfg, last: Block, q: seq<Block>) returns (k: nat)
    requires Spliceable(g, r, R, last) && Splice(g, r, R, last).IsPath(q)
    requires q[0] == R.entry && (q[|q| - 1] in R.succ ==> q[|q| - 1] == last)
    ensures 0 < k <= |q| && R.PathFromTo(R.entry, last, q[..k])
    ensures k < |q| ==> q[k] !in R.succ
  {
    var g' := Splice(g, r, R, last);
    k := 1;
    while k < |q| && q[k] in R.succ
      invariant 0 < k <= |q|
      invariant R.PathFromTo(R.entry, q[k - 1], q[..k])
    {
      assert g'.Edge(q[k - 1], q[k]);
      SpliceEdge(g, r, R, last, q[k - 1], q[k]);
      PathJoin(R, q[..k], [q[k]]);
      assert q[..k] + [q[k]] == q[..k + 1];
      k := k + 1;
    }
    if k < |q| {
      assert g'.Edge(q[k - 1], q[k]);
      SpliceEdge(g, r, R, last, q[k - 1], q[k]);
    }
  }

  /** A path of the spliced graph that neither starts nor stops within the region
      is the expansion of an old path. */
  lemma {:induction false} PathIsExpansion(g: Cfg, r: Block, R: Cfg, last: Block, q: seq<Block>)
    returns (p: seq<Block>)
    requires Spliceable(g, r, R, last) && Splice(g, r, R, last).IsPath(q)
    requires q[0] in R.succ ==> q[0] == R.entry
    requires q[|q| - 1] in R.succ ==> q[|q| - 1] == last
    ensures g.PathFromTo(Origin(R, r, q[0]), Origin(R, r, q[|q| - 1]), p) && Expands(r, R, last, p, q)
    decreases |q|
  {
    var g' := Splice(g, r, R, last);
    var b := Origin(R, r, q[0]);
    var k := 1;
    if q[0] == R.entry {
      k := FirstRun(g, r, R, last, q);
    }
    if k == |q| {
      p := [b];
      assert Expands(r, R, last, p[1..], q[k..]);
    } else {
      assert g'.Edge(q[k - 1], q[k]);
      SpliceEdge(g, r, R, last, q[k - 1], q[k]);
      PathSuffix(g', q, k);
      var t := PathIsExpansion(g, r, R, last, q[k..]);
      PathJoin(g, [b], t);
      p := [b] + t;
      assert p[1..] == t;
    }
    if b == r {
      assert ExpandsAt(r, R, last, p, q, k);
    }
  }

  /** Splice correspondence: between surviving blocks, the paths of the spliced
      graph are exactly the expansions of the old paths. */
  lemma SpliceCorrespondence(g: Cfg, r: Block, R: Cfg, last: Block, a: Block, b: Block, q: seq<Block>)
    requires Spliceable(g, r, R, last)
    requires a in g.succ && b in g.succ && a != r && b != r
    ensures Splice(g, r, R, last).PathFromTo(a, b, q)
      <==> exists p :: g.PathFromTo(a, b, p) && Expands(r, R, last, p, q)
  {
    if Splice(g, r, R, last).PathFromTo(a, b, q) {
      var p := PathIsExpansion(g, r, R, last, q);
    }
    if p :| g.PathFromTo(a, b, p) && Expands(r, R, last, p, q) {
      ExpansionIsPath(g, r, R, last, p, q);
    }
  }

  // ----- reachability and the exit -----

  lemma ReachesSpliced(g: Cfg, r: Block, R: Cfg, last: Block, a: Block, b: Block)
    requires Spliceable(g, r, R, last) && R.Reaches(R.entry, last) && g.Reaches(a, b)
    ensures Splice(g, r, R, last).Reaches(FirstOf(r, R, a), LastOf(r, last, b))
  {
    var w :| R.PathFromTo(R.entry, last, w);
    var p :| g.PathFromTo(a, b, p);
    var q := ExpansionExists(r, R, last, w, p);
    ExpansionIsPath(g, r, R, last, p, q);
  }

  lemma RegionReachesSpliced(g: Cfg, r: Block, R: Cfg, last: Block, a: Block, b: Block)
    requires Spliceable(g, r, R, last) && R.Reaches(a, b)
    ensures Splice(g, r, R, last).Reaches(a, b)
  {
    var w :| R.PathFromTo(a, b, w);
    RegionWalkSurvives(g, r, R, last, w);
    assert Splice(g, r, R, last).PathFromTo(a, b, w);
  }

  lemma ReachesFirst(g: Cfg, r: Block, R: Cfg, last: Block)
    requires Spliceable(g, r, R, last) && R.Reaches(R.entry, last) && g.Reachable(r)
    ensures Splice(g, r, R, last).Reachable(R.entry)
  {
    var p :| g.PathFromTo(g.entry, r, p);
    var n := |p| - 1;
    assert g.Edge(p[n - 1], p[n]);
    PathPrefix(g, p, n - 1);
    ReachesSpliced(g, r, R, last, g.entry, p[n - 1]);
    EdgeSpliced(g, r, R, last, p[n - 1], r);
    SpliceValid(g, r, R, last);
    var g' := Splice(g, r, R, last);
    EdgeReaches(g', p[n - 1], R.entry);
    ReachesTransitive(g', g.entry, p[n - 1], R.entry);
  }

  lemma SpliceAllReachable(g: Cfg, r: Block, R: Cfg, last: Block)
    requires Spliceable(g, r, R, last) && AllReachable(g) && AllReachable(R)
    ensures AllReachable(Splice(g, r, R, last))
  {
    var g' := Splice(g, r, R, last);
    assert R.Reachable(last) && g.Reachable(r);
    forall b | b in g'.succ
      ensures g'.Reachable(b)
    {
      if b in R.succ {
        assert R.Reachable(b);
        ReachesFirst(g, r, R, last);
        RegionReachesSpliced(g, r, R, last, R.entry, b);
        ReachesTransitive(g', g.entry, R.entry, b);
      } else {
        assert g.Reachable(b);
        ReachesSpliced(g, r, R, last, g.entry, b);
      }
    }
  }

  lemma SpliceAllReach(g: Cfg, r: Block, R: Cfg, last: Block, exit: Block)
    requires Spliceable(g, r, R, last) && r != exit
    requires AllReach(g, exit) && AllReach(R, last)
    ensures AllReach(Splice(g, r, R, last), exit)
  {
    var g' := Splice(g, r, R, last);
    assert R.Reaches(R.entry, last);
    forall b | b in g'.succ
      ensures g'.Reaches(b, exit)
    {
      if b in R.succ {
        assert R.Reaches(b, last);
        LastReachesExit(g, r, R, last, exit);
        RegionReachesSpliced(g, r, R, last, b, last);
        ReachesTransitive(g', b, last, exit);
      } else {
        assert g.Reaches(b, exit);
        ReachesSpliced(g, r, R, last, b, exit);
      }
    }
  }

  lemma LastReachesExit(g: Cfg, r: Block, R: Cfg, last: Block, exit: Block)
    requires Spliceable(g, r, R, last) && r != exit
    requires AllReach(g, exit) && AllReach(R, last)
    ensures Splice(g, r, R, last).Reaches(last, exit)
  {
    var g' := Splice(g, r, R, last);
    assert g.Reaches(r, exit) && R.Reaches(R.entry, last);
    var p :| g.PathFromTo(r, exit, p);
    assert g.Edge(p[0], p[1]);
    EdgeSpliced(g, r, R, last, r, p[1]);
    PathSuffix(g, p, 1);
    ReachesSpliced(g, r, R, last, p[1], exit);
    SpliceValid(g, r, R, last);
    EdgeReaches(g', last, p[1]);
    ReachesTransitive(g', last, p[1], exit);
  }

  lemma SpliceUniqueExit(g: Cfg, r: Block, R: Cfg, last: Block, exit: Block)
    requires Spliceable(g, r, R, last) && r != exit
    requires UniqueExit(g, exit) && UniqueExit(R, last)
    ensures UniqueExit(Splice(g, r, R, last), exit)
  {
  }

  /** Replacing any block but entry and exit of a structured graph by a structured
      region gives a structured graph with the same exit. */
  lemma SpliceStructured(g: Cfg, exit: Block, r: Block, R: Cfg, last: Block)
    requires Structured(g, exit) && Structured(R, last)
    requires r in g.succ && r != g.entry && r != exit
    requires R.succ.Keys !! g.succ.Keys
    ensures Structured(Splice(g, r, R, last), exit)
  {
    SpliceValid(g, r, R, last);
    SpliceUniqueExit(g, r, R, last, exit);
    SpliceAllReachable(g, r, R, last);
    SpliceAllReach(g, r, R, last, exit);
    SpliceReducible(g, r, R, last);
  }
}
