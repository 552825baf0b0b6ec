/** The four region shapes of the control-flow constructor, each laid out on
    consecutive fresh block numbers, and the proof that each is structured. */
module Regions {
  import opened Graphs
  import opened Splicing

  /** A child region as the constructor remembers it. */
  datatype Region =
    | Sequential(blocks: seq<Block>)
    | IfElse(cond: Block, onTrue: Block, onFalse: Block, last: Block)
    | While(head: Block, body: Block, after: Block)
    | Switch(head: Block, default: Block, cases: seq<Block>, last: Block)
  {
    function First(): Block
      requires Sequential? ==> blocks != []
    {
      match this
      case Sequential(bs) => bs[0]
      case IfElse(c, _, _, _) => c
      case While(h, _, _) => h
      case Switch(h, _, _, _) => h
    }

    function Last(): Block
      requires Sequential? ==> blocks != []
    {
      match this
      case Sequential(bs) => bs[|bs| - 1]
      case IfElse(_, _, _, l) => l
      case While(_, _, a) => a
      case Switch(_, _, _, l) => l
    }

    /** The blocks that a later step may pick for replacement. */
    function Candidates(): set<Block> {
      match this
      case Sequential(bs) => set b | b in bs
      case IfElse(_, t, f, _) => {t, f}
      case While(h, b, a) => {h, b, a}
      case Switch(h, d, cs, _) => {h, d} + set c | c in cs
    }
  }

  /** The `n` consecutive block numbers from `base` on. */
  function Span(base: Block, n: nat): (s: set<Block>)
    ensures forall b :: b in s <==> base <= b < base + n
  {
    if n == 0 then {} else Span(base, n - 1) + {base + n - 1}
  }

  function SequentialGraph(base: Block, n: nat): Cfg {
    Cfg(base, map b | b in Span(base, n) :: if b == base + n - 1 then {} else {b + 1})
  }

  function IfElseGraph(base: Block): Cfg {
    Cfg(base, map[base := {base + 1, base + 2}, base + 1 := {base + 3},
                  base + 2 := {base + 3}, base + 3 := {}])
  }

  function WhileGraph(base: Block): Cfg {
    Cfg(base, map[base := {base + 1, base + 2}, base + 1 := {base}, base + 2 := {}])
  }

  /** Condition block, default block, last block, then the cases. */
  function SwitchGraph(base: Block, cases: nat): Cfg {
    var blocks := Span(base, cases + 3);
    Cfg(base, map b | b in blocks ::
          if b == base then blocks - {base, base + 2}
          else if b == base + 2 then {}
          else {base + 2})
  }

  /** A graph whose edges all climb in some ranking has no cycle. */
  lemma {:induction false} RankClimbs(g: Cfg, rank: Block -> int, p: seq<Block>)
    requires forall a, b :: g.Edge(a, b) ==> rank(a) < rank(b)
    requires g.IsPath(p) && |p| >= 2
    ensures rank(p[0]) < rank(p[|p| - 1])
  {
    assert g.Edge(p[0], p[1]);
    if |p| > 2 {
      PathSuffix(g, p, 1);
      RankClimbs(g, rank, p[1..]);
    }
  }

  lemma RankedIsAcyclic(g: Cfg, rank: Block -> int)
    requires forall a, b :: g.Edge(a, b) ==> rank(a) < rank(b)
    ensures g.Acyclic() && Reducible(g)
  {
    forall c | g.IsCycle(c)
      ensures false
    {
      RankClimbs(g, rank, c);
    }
  }

  /** The block leads to the next one only. */
  predicate Steps(g: Cfg, x: Block) {
    x in g.succ && g.succ[x] == {x + 1}
  }

  /** A block reaches another when every block in between leads to the next. */
  lemma {:induction false} StepsReach(g: Cfg, a: Block, b: Block)
    requires g.Valid() && a <= b && b in g.succ && forall x: Block :: a <= x < b ==> Steps(g, x)
    ensures g.Reaches(a, b)
    decreases b - a
  {
    if a == b {
      ReachesSelf(g, a);
    } else {
      assert Steps(g, a);
      EdgeReaches(g, a, a + 1);
      StepsReach(g, a + 1, b);
      ReachesTransitive(g, a, a + 1, b);
    }
  }

  lemma SequentialSteps(base: Block, n: nat, x: Block)
    requires base <= x < base + n - 1
    ensures Steps(SequentialGraph(base, n), x)
  {
  }

  lemma SequentialReaches(base: Block, n: nat, g: Cfg, a: Block, b: Block)
    requires g == SequentialGraph(base, n) && base <= a <= b < base + n && g.Valid()
    ensures g.Reaches(a, b)
  {
    forall x: Block | a <= x < b
      ensures Steps(g, x)
    {
      SequentialSteps(base, n, x);
    }
    StepsReach(g, a, b);
  }

  lemma SequentialAllReach(base: Block, n: nat, g: Cfg, last: Block)
    requires n >= 2 && last == base + n - 1 && g == SequentialGraph(base, n) && g.Valid()
    ensures AllReachable(g) && AllReach(g, last)
  {
    forall b | b in g.succ
      ensures g.Reachable(b) && g.Reaches(b, last)
    {
      SequentialReaches(base, n, g, base, b);
      SequentialReaches(base, n, g, b, last);
    }
  }

  lemma SequentialStructured(base: Block, n: nat, last: Block)
    requires n >= 2 && last == base + n - 1
    ensures Structured(SequentialGraph(base, n), last)
  {
    var g := SequentialGraph(base, n);
    RankedIsAcyclic(g, b => b);
    assert g.Valid() && UniqueExit(g, last) && NoSelfEdges(g);
    SequentialAllReach(base, n, g, last);
  }

  lemma IfElseStructured(base: Block)
    ensures Structured(IfElseGraph(base), base + 3)
  {
    var g := IfElseGraph(base);
    RankedIsAcyclic(g, b => b);
    assert g.PathFromTo(base, base, [base]);
    assert g.PathFromTo(base, base + 1, [base, base + 1]);
    assert g.PathFromTo(base, base + 2, [base, base + 2]);
    assert g.PathFromTo(base, base + 3, [base, base + 1, base + 3]);
    assert g.PathFromTo(base + 1, base + 3, [base + 1, base + 3]);
    assert g.PathFromTo(base + 2, base + 3, [base + 2, base + 3]);
    assert g.PathFromTo(base + 3, base + 3, [base + 3]);
  }

  lemma EntryDominatesAll(g: Cfg, b: Block)
    ensures g.Dominates(g.entry, b)
  {
    forall p | g.PathFromTo(g.entry, b, p)
      ensures g.entry in p
    {
      assert p[0] in p;
    }
  }

  lemma WhileReducible(base: Block)
    ensures Reducible(WhileGraph(base))
  {
    var g := WhileGraph(base);
    forall c | g.IsCycle(c)
      ensures exists h :: IsHeader(g, h, c)
    {
      assert g.Edge(c[0], c[1]);
      assert c[0] == base || c[1] == base;
      assert base in c;
      forall x | x in c
        ensures g.Dominates(base, x)
      {
        EntryDominatesAll(g, x);
      }
      assert IsHeader(g, base, c);
    }
  }

  lemma WhileStructured(base: Block)
    ensures Structured(WhileGraph(base), base + 2)
  {
    var g := WhileGraph(base);
    WhileReducible(base);
    assert g.PathFromTo(base, base, [base]);
    assert g.PathFromTo(base, base + 1, [base, base + 1]);
    assert g.PathFromTo(base, base + 2, [base, base + 2]);
    assert g.PathFromTo(base + 1, base + 2, [base + 1, base, base + 2]);
    assert g.PathFromTo(base + 2, base + 2, [base + 2]);
  }

  lemma SwitchStructured(base: Block, cases: nat)
    ensures Structured(SwitchGraph(base, cases), base + 2)
  {
    var g := SwitchGraph(base, cases);
    var last := base + 2;
    RankedIsAcyclic(g, b => if b == base then 0 else if b == base + 2 then 2 else 1);
    assert base + 1 in g.succ[base];
    assert g.Valid() && UniqueExit(g, last) && NoSelfEdges(g);
    SwitchAllReach(base, cases, last);
  }

  lemma SwitchAllReach(base: Block, cases: nat, last: Block)
    requires last == base + 2
    ensures AllReachable(SwitchGraph(base, cases)) && AllReach(SwitchGraph(base, cases), last)
  {
    var g := SwitchGraph(base, cases);
    assert base + 1 in g.succ[base];
    assert g.PathFromTo(base, base, [base]);
    assert g.PathFromTo(last, last, [last]);
    assert g.PathFromTo(base, last, [base, base + 1, last]);
    forall b | b in g.succ && b != base && b != last
      ensures g.Reachable(b) && g.Reaches(b, last)
    {
      assert g.PathFromTo(base, b, [base, b]);
      assert g.PathFromTo(b, last, [b, last]);
    }
  }
}
