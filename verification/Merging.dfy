/** Merging a block into its only predecessor: the reducer's `MergeBlocks`, seen on
    code whose operands are already resolved through the alias table.  The aliases
    of the merged parameters then are a substitution. */
module Merging {
  import opened Graphs
  import opened Ir
  import opened Ssa
  import opened Execution

  // ----- substitution -----

  /** The argument that stands for `v` if it is one of the parameters. */
  function Subst(ps: seq<TypedValue>, args: seq<Value>, v: Value): Value {
    if ps == [] || args == [] then v
    else if ps[0].value == v then args[0]
    else Subst(ps[1..], args[1..], v)
  }

  lemma {:induction false} SubstOther(ps: seq<TypedValue>, args: seq<Value>, v: Value)
    requires !Names(ps, v)
    ensures Subst(ps, args, v) == v
  {
    if ps != [] && args != [] {
      assert ps[0].value != v;
      assert forall k :: 0 <= k < |ps| - 1 ==> ps[1..][k] == ps[k + 1];
      SubstOther(ps[1..], args[1..], v);
    }
  }

  lemma {:induction false} SubstAt(ps: seq<TypedValue>, args: seq<Value>, k: nat)
    requires DistinctValues(ps) && |args| == |ps| && k < |ps|
    ensures Subst(ps, args, ps[k].value) == args[k]
  {
    if k > 0 {
      assert ps[1..][k - 1] == ps[k] && args[1..][k - 1] == args[k];
      SubstAt(ps[1..], args[1..], k - 1);
    }
  }

  function SubstAll(ps: seq<TypedValue>, args: seq<Value>, vs: seq<Value>): (r: seq<Value>)
    ensures |r| == |vs| && forall i :: 0 <= i < |vs| ==> r[i] == Subst(ps, args, vs[i])
  {
    seq(|vs|, i requires 0 <= i < |vs| => Subst(ps, args, vs[i]))
  }

  function SubstCall(ps: seq<TypedValue>, args: seq<Value>, c: BlockCall): BlockCall {
    c.(args := SubstAll(ps, args, c.args))
  }

  function SubstTerm(ps: seq<TypedValue>, args: seq<Value>, t: Terminator): (r: Terminator)
    ensures |r.Calls()| == |t.Calls()| && forall k :: 0 <= k < |t.Calls()| ==>
              r.Calls()[k] == SubstCall(ps, args, t.Calls()[k])
  {
    match t
    case NoTerminator => t
    case Jump(d) => Jump(SubstCall(ps, args, d))
    case Brif(c, a, b) => Brif(Subst(ps, args, c), SubstCall(ps, args, a), SubstCall(ps, args, b))
    case BrTable(c, table) =>
      BrTable(Subst(ps, args, c), seq(|table|, i requires 0 <= i < |table| => SubstCall(ps, args, table[i])))
    case Return(vs) => Return(SubstAll(ps, args, vs))
  }

  function SubstInst(ps: seq<TypedValue>, args: seq<Value>, i: Inst): Inst {
    i.(args := SubstAll(ps, args, i.args))
  }

  function SubstInsts(ps: seq<TypedValue>, args: seq<Value>, insts: seq<Inst>): (r: seq<Inst>)
    ensures |r| == |insts| && forall i :: 0 <= i < |insts| ==> r[i] == SubstInst(ps, args, insts[i])
  {
    seq(|insts|, i requires 0 <= i < |insts| => SubstInst(ps, args, insts[i]))
  }

  function SubstBlock(ps: seq<TypedValue>, args: seq<Value>, d: BlockData): BlockData {
    BlockData(d.params, SubstInsts(ps, args, d.insts), SubstTerm(ps, args, d.term))
  }

  // ----- scopes -----

  /** `v` may be used in block `c` before instruction `n`. */
  ghost predicate Visible(s: Code, g: Cfg, c: Block, n: nat, v: Value) {
    c in s.blocks && Usable(Outer(s, g, Elements(s.layout), c), s.blocks[c], n, v)
  }

  /** A visible value is defined earlier in the block or in a strict dominator. */
  lemma VisibleHome(s: Code, g: Cfg, home: Value -> Site, c: Block, n: nat, v: Value)
    requires Homed(s, home) && c in s.layout && Visible(s, g, c, n, v)
    ensures (home(v).block == c && home(v).pos <= n)
            || (home(v).block in s.layout && g.StrictlyDominates(home(v).block, c))
  {
    var ty :| InScope(Outer(s, g, Elements(s.layout), c), s.blocks[c], n, TypedValue(v, ty));
    var tv := TypedValue(v, ty);
    assert HomedBlock(s.blocks[c], c, home);
    if Inherits(s, g, Elements(s.layout), c, tv) {
      var a :| a in Elements(s.layout) && a in s.blocks && g.StrictlyDominates(a, c) && Defines(s.blocks[a], tv);
      assert HomedBlock(s.blocks[a], a, home);
    }
  }

  /** What is visible after an instruction was visible before it or is its result. */
  lemma VisibleBefore(s: Code, g: Cfg, c: Block, n: nat, v: Value)
    requires c in s.blocks && n < |s.blocks[c].insts| && Visible(s, g, c, n + 1, v)
    ensures Visible(s, g, c, n, v) || Names(s.blocks[c].insts[n].results, v)
  {
    var outer := Outer(s, g, Elements(s.layout), c);
    var ty :| InScope(outer, s.blocks[c], n + 1, TypedValue(v, ty));
    var tv := TypedValue(v, ty);
    if !InScope(outer, s.blocks[c], n, tv) {
      assert tv in s.blocks[c].insts[n].results;
    }
  }

  /** What is visible at the start of a block is a parameter or was visible at the
      end of every predecessor. */
  lemma VisibleAcross(s: Code, g: Cfg, c: Block, t: Block, v: Value)
    requires HasGraph(s, g) && g.Valid() && c in s.layout && g.Edge(c, t) && Visible(s, g, t, 0, v)
    ensures Visible(s, g, c, |s.blocks[c].insts|, v) || Names(s.blocks[t].params, v)
  {
    var S := Elements(s.layout);
    var ty :| InScope(Outer(s, g, S, t), s.blocks[t], 0, TypedValue(v, ty));
    var tv := TypedValue(v, ty);
    if tv in s.blocks[t].params {
      assert Names(s.blocks[t].params, v);
    } else {
      var a :| a in S && a in s.blocks && g.StrictlyDominates(a, t) && Defines(s.blocks[a], tv);
      DominatesPredecessor(g, a, c, t);
      assert InScope(Outer(s, g, S, c), s.blocks[c], |s.blocks[c].insts|, tv) by {
        if a != c {
          assert Inherits(s, g, S, c, tv);
        }
      }
    }
  }

  // ----- the merge -----

  /** Code in which block `b` is to be merged into its predecessor `p`. */
  datatype Merge = Merge(s: Code, g: Cfg, p: Block, b: Block) {
    predicate Defined() {
      p in s.blocks && b in s.blocks && |s.blocks[p].term.Calls()| == 1
    }

    function Params(): seq<TypedValue>
      requires Defined()
    {
      s.blocks[b].params
    }

    function Args(): seq<Value>
      requires Defined()
    {
      s.blocks[p].term.Calls()[0].args
    }

    function Sub(v: Value): Value
      requires Defined()
    {
      Subst(Params(), Args(), v)
    }

    function Joined(): BlockData
      requires Defined()
    {
      SubstBlock(Params(), Args(),
                 BlockData(s.blocks[p].params, s.blocks[p].insts + s.blocks[b].insts, s.blocks[b].term))
    }

    /** The code after the merge. */
    function Result(): Code
      requires Defined()
    {
      s.(layout := Without(s.layout, b),
         blocks := map c | c in s.blocks && c != b ::
                     if c == p then Joined() else SubstBlock(Params(), Args(), s.blocks[c]))
    }

    /** The situation in which the reducer merges: `b` is not the entry, its one
        predecessor ends in a branch with one target, and what can run is valid SSA. */
    ghost predicate Ready(home: Value -> Site) {
      && HasGraph(s, g) && g.Valid() && LiveSsa(s, g) && Homed(s, home)
      && p in s.layout && b in s.layout && b != g.entry && g.Reachable(b)
      && g.Preds(b) == {p} && |s.blocks[p].term.Calls()| == 1
    }
  }

  lemma MergeFacts(m: Merge, home: Value -> Site)
    requires m.Ready(home)
    ensures m.Defined() && m.g.Edge(m.p, m.b) && m.s.blocks[m.p].term.Calls()[0].block == m.b
    ensures m.p != m.b && m.g.StrictlyDominates(m.p, m.b) && m.g.Reachable(m.p)
    ensures |m.Args()| == |m.Params()|
  {
    var s, g, p, b := m.s, m.g, m.p, m.b;
    assert p in g.Preds(b);
    assert b in Elements(s.blocks[p].term.Dests());
    PredReachable(g, p, b);
    assert CallsOk(s, g, Elements(s.layout), p) && CallOk(s, g, Elements(s.layout), p, 0);
    forall q | g.PathFromTo(g.entry, b, q)
      ensures p in q && p != b
    {
      FirstVisit(g, p, b, q);
    }
    var q :| g.PathFromTo(g.entry, b, q);
  }

  lemma PredReachable(g: Cfg, p: Block, b: Block)
    requires g.Preds(b) == {p} && b != g.entry && g.Reachable(b)
    ensures g.Reachable(p)
  {
    var q :| g.PathFromTo(g.entry, b, q);
    FirstVisit(g, p, b, q);
    var i :| 0 <= i < |q| && q[i] == p;
    PathPrefix(g, q, i);
  }

  /** A path to `b` passes `p` before it first gets there. */
  lemma FirstVisit(g: Cfg, p: Block, b: Block, q: seq<Block>)
    requires g.Preds(b) == {p} && b != g.entry && g.PathFromTo(g.entry, b, q)
    ensures p in q && p != b
    decreases |q|
  {
    var n := |q| - 1;
    assert g.Edge(q[n - 1], q[n]);
    assert q[n - 1] in g.Preds(b);
    if p == b {
      PathPrefix(g, q, n - 1);
      FirstVisit(g, p, b, q[..n]);
    }
  }

  /** The arguments are not themselves merged parameters, and are defined above `b`. */
  lemma ArgsAbove(m: Merge, home: Value -> Site, k: nat)
    requires m.Ready(home) && m.Defined() && k < |m.Args()|
    ensures Visible(m.s, m.g, m.p, |m.s.blocks[m.p].insts|, m.Args()[k])
    ensures m.g.StrictlyDominates(home(m.Args()[k]).block, m.b)
    ensures m.Sub(m.Args()[k]) == m.Args()[k]
  {
    MergeFacts(m, home);
    var s, g, p, b := m.s, m.g, m.p, m.b;
    var S, v := Elements(s.layout), m.Args()[k];
    assert CallsOk(s, g, S, p) && CallOk(s, g, S, p, 0);
    assert InScope(Outer(s, g, S, p), s.blocks[p], |s.blocks[p].insts|, TypedValue(v, m.Params()[k].ty));
    VisibleHome(s, g, home, p, |s.blocks[p].insts|, v);
    var a := home(v).block;
    DominanceAntisymmetric(g, p, b);
    if a != p {
      DominatesTransitive(g, a, p, b);
      if a == b { assert false; }
    }
    assert HomedBlock(s.blocks[b], b, home);
    SubstOther(m.Params(), m.Args(), v);
  }

  /** The alias of a visible parameter is never stale: where a merged parameter is
      visible, its argument is not being redefined. */
  lemma Steady(m: Merge, home: Value -> Site, c: Block, n: nat, v: Value)
    requires m.Ready(home) && m.Defined() && c in m.s.layout && m.g.Reachable(c) && Visible(m.s, m.g, c, n, v)
    ensures m.Sub(v) == v || (Names(m.Params(), v) && home(m.Sub(v)).block != c)
  {
    MergeFacts(m, home);
    if !Names(m.Params(), v) {
      SubstOther(m.Params(), m.Args(), v);
    } else {
      var k :| 0 <= k < |m.Params()| && m.Params()[k].value == v;
      assert HomedBlock(m.s.blocks[m.b], m.b, home);
      assert m.Params()[k] in m.Params();
      SubstAt(m.Params(), m.Args(), k);
      ArgsAbove(m, home, k);
      VisibleHome(m.s, m.g, home, c, n, v);
      var a := home(m.Args()[k]).block;
      if a == c {
        DominanceAntisymmetric(m.g, a, m.b);
      }
    }
  }
}
