/** The merged code is again valid SSA as far as it can run, and no block that could be
    merged has become unreachable, so that merges can follow one another. */
module MergeInvariants {
  import opened Graphs
  import opened Ir
  import opened Ssa
  import opened Execution
  import opened Merging
  import opened MergeSimulation

  // ----- the graph -----

  function Contracted(g: Cfg, p: Block, b: Block): Cfg
    requires b in g.succ
  {
    Cfg(g.entry, map c | c in g.succ && c != b :: if c == p then g.succ[b] else g.succ[c])
  }

  /** Only `p` leads to `b`, and `p` leads nowhere else. */
  ghost predicate Contractible(g: Cfg, p: Block, b: Block) {
    g.Valid() && p in g.succ && b in g.succ && p != b && b != g.entry && g.Preds(b) == {p} && g.succ[p] == {b}
  }

  function Stand(p: Block, b: Block, c: Block): Block {
    if c == b then p else c
  }

  /** A walk through the contracted graph with every visit to `p` followed by one to
      `b`. */
  function Expanded(p: Block, b: Block, q: seq<Block>): seq<Block> {
    if q == [] then [] else Expanded(p, b, q[..|q| - 1]) + if q[|q| - 1] == p then [p, b] else [q[|q| - 1]]
  }

  lemma {:induction false} ExpandedIsPath(g: Cfg, p: Block, b: Block, q: seq<Block>)
    requires Contractible(g, p, b) && Contracted(g, p, b).IsPath(q) && q[0] == g.entry
    ensures var e := Expanded(p, b, q);
            if q[|q| - 1] == p then g.PathFromTo(g.entry, b, e) && |e| >= 2 && g.PathFromTo(g.entry, p, e[..|e| - 1])
            else g.PathFromTo(g.entry, q[|q| - 1], e)
    decreases |q|
  {
    var n := |q| - 1;
    TailIsPath(g, p, b, q[n]);
    if n == 0 {
      assert Expanded(p, b, q[..0]) == [];
      assert Expanded(p, b, q) == if q[n] == p then [p, b] else [q[n]];
    } else {
      PathPrefix(Contracted(g, p, b), q, n - 1);
      ExpandedIsPath(g, p, b, q[..n]);
      ExpandedStep(g, p, b, Expanded(p, b, q[..n]), q[n - 1], q[n]);
    }
  }

  lemma ExpandedStep(g: Cfg, p: Block, b: Block, e: seq<Block>, x: Block, y: Block)
    requires Contractible(g, p, b) && Contracted(g, p, b).Edge(x, y) && y in g.succ
    requires g.PathFromTo(g.entry, if x == p then b else x, e)
    ensures if y == p then g.PathFromTo(g.entry, b, e + [p, b]) && g.PathFromTo(g.entry, p, (e + [p, b])[..|e| + 1])
            else g.PathFromTo(g.entry, y, e + [y])
  {
    TailIsPath(g, p, b, y);
    if y == p {
      PathJoin(g, e, [p, b]);
      PathJoin(g, e, [p]);
      assert (e + [p, b])[..|e| + 1] == e + [p];
    } else {
      PathJoin(g, e, [y]);
    }
  }

  lemma TailIsPath(g: Cfg, p: Block, b: Block, c: Block)
    requires Contractible(g, p, b) && c in g.succ
    ensures g.IsPath(if c == p then [p, b] else [c])
    ensures c == p ==> [p, b][..1] == [p]
  {
    assert g.Edge(p, b);
  }

  lemma {:induction false} ExpandedVisits(p: Block, b: Block, q: seq<Block>, a: Block)
    requires a in Expanded(p, b, q) && b !in q
    ensures Stand(p, b, a) in q
    decreases |q|
  {
    if q != [] {
      var n := |q| - 1;
      if a in Expanded(p, b, q[..n]) {
        ExpandedVisits(p, b, q[..n], a);
      } else {
        assert q[n] in q;
      }
    }
  }

  /** Dominance survives the contraction. */
  lemma DominanceMoves(g: Cfg, p: Block, b: Block, a: Block, c: Block)
    requires Contractible(g, p, b) && g.Dominates(a, c)
    ensures Contracted(g, p, b).Dominates(Stand(p, b, a), Stand(p, b, c))
  {
    var g' := Contracted(g, p, b);
    forall q | g'.PathFromTo(g'.entry, Stand(p, b, c), q)
      ensures Stand(p, b, a) in q
    {
      ExpandedIsPath(g, p, b, q);
      var e := Expanded(p, b, q);
      assert a in e;
      ExpandedVisits(p, b, q, a);
    }
  }

  lemma {:induction false} ReachabilityMoves(g: Cfg, p: Block, b: Block, q: seq<Block>)
    requires Contractible(g, p, b) && g.IsPath(q) && q[0] == g.entry
    ensures Contracted(g, p, b).Reachable(Stand(p, b, q[|q| - 1]))
    decreases |q|
  {
    var g' := Contracted(g, p, b);
    var n := |q| - 1;
    if n == 0 {
      assert g'.PathFromTo(g'.entry, g'.entry, [g'.entry]);
    } else {
      PathPrefix(g, q, n - 1);
      ReachabilityMoves(g, p, b, q[..n]);
      assert g.Edge(q[n - 1], q[n]);
      if q[n] == b {
        assert q[n - 1] in g.Preds(b);
      } else {
        ContractedValid(g, p, b);
        EdgeReaches(g', Stand(p, b, q[n - 1]), q[n]);
        ReachesTransitive(g', g'.entry, Stand(p, b, q[n - 1]), q[n]);
      }
    }
  }

  lemma ContractedValid(g: Cfg, p: Block, b: Block)
    requires Contractible(g, p, b)
    ensures Contracted(g, p, b).Valid()
  {
    var g' := Contracted(g, p, b);
    forall c, t | c in g'.succ && t in g'.succ[c]
      ensures t in g'.succ
    {
      if t == b {
        assert (if c == p then b else c) in g.Preds(b);
      }
    }
  }

  // ----- the scopes -----

  lemma MergeContractible(m: Merge, home: Value -> Site)
    requires m.Ready(home)
    ensures Contractible(m.g, m.p, m.b) && m.Defined()
  {
    MergeFacts(m, home);
    var t := m.s.blocks[m.p].term;
    assert t.Dests() == [m.b];
    assert t.Targets() == {m.b};
  }

  /** The typed value as it is named after the merge. */
  function Renamed(m: Merge, tv: TypedValue): TypedValue
    requires m.Defined()
  {
    TypedValue(m.Sub(tv.value), tv.ty)
  }

  /** `tv` is in scope in block `c` before instruction `n`. */
  ghost predicate Scoped(s: Code, g: Cfg, c: Block, n: nat, tv: TypedValue) {
    c in s.blocks && InScope(Outer(s, g, Elements(s.layout), c), s.blocks[c], n, tv)
  }

  lemma ResultBlock(m: Merge, c: Block)
    requires m.Defined() && m.p != m.b && c in m.s.blocks
    ensures Place(m, c) in m.Result().blocks
    ensures var d, d' := m.s.blocks[c], m.Result().blocks[Place(m, c)];
            && Offset(m, c) + |d.insts| <= |d'.insts| && (c != m.b ==> d'.params == d.params)
            && forall n, n' :: 0 <= n < |d.insts| && n' == Offset(m, c) + n ==>
                d'.insts[n'].results == d.insts[n].results
  {
    if c == m.p || c == m.b { assert m.Result().blocks[m.p] == m.Joined(); }
    forall n, n' | 0 <= n < |m.s.blocks[c].insts| && n' == Offset(m, c) + n
      ensures n' < |m.Result().blocks[Place(m, c)].insts|
      ensures m.Result().blocks[Place(m, c)].insts[n'].results == m.s.blocks[c].insts[n].results
    {
      PlaceInst(m, c, n, n');
    }
  }

  /** A definition that is not a merged parameter stays, perhaps in the other block. */
  lemma DefinitionMoves(m: Merge, c: Block, n: nat, tv: TypedValue)
    requires m.Defined() && m.p != m.b && c in m.s.blocks && DefinedBefore(m.s.blocks[c], n, tv)
    requires c == m.b ==> tv !in m.Params()
    ensures Place(m, c) in m.Result().blocks
    ensures DefinedBefore(m.Result().blocks[Place(m, c)], Offset(m, c) + n, tv)
  {
    ResultBlock(m, c);
    if tv !in m.s.blocks[c].params {
      var j :| 0 <= j < n && j < |m.s.blocks[c].insts| && tv in m.s.blocks[c].insts[j].results;
      var j' := Offset(m, c) + j;
      assert m.Result().blocks[Place(m, c)].insts[j'].results == m.s.blocks[c].insts[j].results;
    }
  }

  /** A definition in a strict dominator. */
  lemma InheritedMoves(m: Merge, home: Value -> Site, a: Block, c: Block, n: nat, tv: TypedValue)
    requires m.Ready(home) && m.Defined() && c in m.s.layout && a in m.s.layout && m.g.Reachable(c)
    requires m.g.StrictlyDominates(a, c) && Defines(m.s.blocks[a], tv) && (a == m.b ==> tv !in m.Params())
    ensures Scoped(m.Result(), Contracted(m.g, m.p, m.b), Place(m, c), Offset(m, c) + n, tv)
  {
    MergeFacts(m, home);
    MergeContractible(m, home);
    var g', s' := Contracted(m.g, m.p, m.b), m.Result();
    DefinitionMoves(m, a, |m.s.blocks[a].insts|, tv);
    DominanceMoves(m.g, m.p, m.b, a, c);
    ResultBlock(m, a);
    ResultBlock(m, c);
    if Place(m, a) == Place(m, c) && a == m.b { DominanceAntisymmetric(m.g, m.p, m.b); }
    ScopedFrom(s', g', Place(m, a), Place(m, c), Offset(m, a) + |m.s.blocks[a].insts|, Offset(m, c) + n, tv);
  }

  lemma ScopedFrom(s: Code, g: Cfg, a: Block, c: Block, i: nat, n: nat, tv: TypedValue)
    requires a in s.layout && a in s.blocks && c in s.blocks && DefinedBefore(s.blocks[a], i, tv)
             && i <= |s.blocks[a].insts|
    requires if a == c then i <= n else g.StrictlyDominates(a, c)
    ensures Scoped(s, g, c, n, tv)
  {
    Earlier(s.blocks[a], i, |s.blocks[a].insts|, tv);
    if a == c {
      Earlier(s.blocks[a], i, n, tv);
    } else {
      assert Inherits(s, g, Elements(s.layout), c, tv);
    }
  }

  lemma Earlier(d: BlockData, n: nat, n': nat, tv: TypedValue)
    requires DefinedBefore(d, n, tv) && n <= n'
    ensures DefinedBefore(d, n', tv)
  {
  }

  /** A value that is not a merged parameter stays in scope where it was. */
  lemma PlainScopeMoves(m: Merge, home: Value -> Site, c: Block, n: nat, tv: TypedValue)
    requires m.Ready(home) && m.Defined() && c in m.s.layout && m.g.Reachable(c) && Scoped(m.s, m.g, c, n, tv)
    requires !Names(m.Params(), tv.value)
    ensures Scoped(m.Result(), Contracted(m.g, m.p, m.b), Place(m, c), Offset(m, c) + n, tv)
  {
    MergeFacts(m, home);
    MergeContractible(m, home);
    NotParam(m.Params(), tv);
    if DefinedBefore(m.s.blocks[c], n, tv) {
      DefinitionMoves(m, c, n, tv);
    } else {
      var S := Elements(m.s.layout);
      var a :| a in S && a in m.s.blocks && m.g.StrictlyDominates(a, c) && Defines(m.s.blocks[a], tv);
      InheritedMoves(m, home, a, c, n, tv);
    }
  }

  lemma NotParam(ps: seq<TypedValue>, tv: TypedValue)
    requires !Names(ps, tv.value)
    ensures tv !in ps
  {
    assert forall k :: 0 <= k < |ps| ==> ps[k].value != tv.value;
  }

  /** Where a merged parameter is in scope, so is its argument, with its type. */
  lemma ParamScope(m: Merge, home: Value -> Site, c: Block, n: nat, tv: TypedValue, k: nat)
    requires m.Ready(home) && m.Defined() && c in m.s.layout && m.g.Reachable(c) && Scoped(m.s, m.g, c, n, tv)
    requires k < |m.Params()| && m.Params()[k].value == tv.value && |m.Args()| == |m.Params()|
    ensures Scoped(m.s, m.g, c, n, TypedValue(m.Args()[k], tv.ty))
  {
    MergeFacts(m, home);
    var s, g, S := m.s, m.g, Elements(m.s.layout);
    var a := DefiningBlock(s, g, home, c, n, tv);
    assert HomedBlock(s.blocks[m.b], m.b, home) && m.Params()[k] in m.Params();
    SameParam(s.blocks[m.b], m.b, home, tv, k);
    var arg := TypedValue(m.Args()[k], tv.ty);
    assert CallsOk(s, g, S, m.p) && CallOk(s, g, S, m.p, 0);
    assert Scoped(s, g, m.p, |s.blocks[m.p].insts|, arg);
    assert g.Dominates(m.b, c);
    ScopeBelow(s, g, m.p, m.b, c, n, arg);
  }

  /** What is in scope at the end of `p` is in scope below it. */
  lemma ScopeBelow(s: Code, g: Cfg, p: Block, b: Block, c: Block, n: nat, tv: TypedValue)
    requires p in s.layout && p in s.blocks && c in s.blocks && Scoped(s, g, p, |s.blocks[p].insts|, tv)
    requires g.StrictlyDominates(p, b) && g.Dominates(b, c) && g.Reachable(c) && g.Reachable(b)
    ensures Scoped(s, g, c, n, tv)
  {
    var S := Elements(s.layout);
    DominatesTransitive(g, p, b, c);
    if c == p { DominanceAntisymmetric(g, p, b); }
    if Inherits(s, g, S, p, tv) {
      var a :| a in S && a in s.blocks && g.StrictlyDominates(a, p) && Defines(s.blocks[a], tv);
      DominatesTransitive(g, a, p, c);
      if a == c { DominanceAntisymmetric(g, p, c); }
      assert Inherits(s, g, S, c, tv);
    } else {
      assert Inherits(s, g, S, c, tv);
    }
  }

  /** The block that brings a value into scope. */
  lemma DefiningBlock(s: Code, g: Cfg, home: Value -> Site, c: Block, n: nat, tv: TypedValue) returns (a: Block)
    requires Homed(s, home) && c in s.layout && Scoped(s, g, c, n, tv)
    ensures a in s.layout && a in s.blocks && Defines(s.blocks[a], tv) && home(tv.value).block == a
    ensures a == c || g.StrictlyDominates(a, c)
  {
    var S := Elements(s.layout);
    if Inherits(s, g, S, c, tv) {
      a :| a in S && a in s.blocks && g.StrictlyDominates(a, c) && Defines(s.blocks[a], tv);
    } else {
      a := c;
    }
    assert HomedBlock(s.blocks[a], a, home);
  }

  /** A definition of a parameter's value in its own block is the parameter. */
  lemma SameParam(d: BlockData, b: Block, home: Value -> Site, tv: TypedValue, k: nat)
    requires HomedBlock(d, b, home) && Defines(d, tv) && k < |d.params| && d.params[k].value == tv.value
    ensures tv == d.params[k]
  {
    assert d.params[k] in d.params;
    assert home(tv.value) == Site(b, 0);
    assert tv in d.params;
    var j :| 0 <= j < |d.params| && d.params[j] == tv;
    if j != k { assert d.params[j].value != d.params[k].value; }
  }

  /** Every value in scope is in scope after the merge, under its new name. */
  lemma ScopeMoves(m: Merge, home: Value -> Site, c: Block, n: nat, tv: TypedValue)
    requires m.Ready(home) && m.Defined() && c in m.s.layout && m.g.Reachable(c) && Scoped(m.s, m.g, c, n, tv)
    ensures Scoped(m.Result(), Contracted(m.g, m.p, m.b), Place(m, c), Offset(m, c) + n, Renamed(m, tv))
  {
    MergeFacts(m, home);
    if Names(m.Params(), tv.value) {
      var k :| 0 <= k < |m.Params()| && m.Params()[k].value == tv.value;
      assert HomedBlock(m.s.blocks[m.b], m.b, home);
      SubstAt(m.Params(), m.Args(), k);
      ParamScope(m, home, c, n, tv, k);
      ArgsAbove(m, home, k);
      ArgNotParam(m, home, k);
      PlainScopeMoves(m, home, c, n, TypedValue(m.Args()[k], tv.ty));
    } else {
      SubstOther(m.Params(), m.Args(), tv.value);
      PlainScopeMoves(m, home, c, n, tv);
    }
  }

  lemma ArgNotParam(m: Merge, home: Value -> Site, k: nat)
    requires m.Ready(home) && m.Defined() && k < |m.Args()|
    ensures !Names(m.Params(), m.Args()[k])
  {
    ArgsAbove(m, home, k);
    if Names(m.Params(), m.Args()[k]) { ParamHome(m.s, home, m.b, m.Args()[k]); }
  }

  lemma VisibleMoves(m: Merge, home: Value -> Site, c: Block, n: nat, v: Value)
    requires m.Ready(home) && m.Defined() && c in m.s.layout && m.g.Reachable(c) && Visible(m.s, m.g, c, n, v)
    ensures Visible(m.Result(), Contracted(m.g, m.p, m.b), Place(m, c), Offset(m, c) + n, m.Sub(v))
  {
    var ty :| InScope(Outer(m.s, m.g, Elements(m.s.layout), c), m.s.blocks[c], n, TypedValue(v, ty));
    ScopeMoves(m, home, c, n, TypedValue(v, ty));
  }

  // ----- the invariant -----

  /** `c` has one predecessor, and that has no other target. */
  ghost predicate Single(s: Code, g: Cfg, c: Block) {
    exists p :: g.Preds(c) == {p} && p in s.blocks && |s.blocks[p].term.Calls()| == 1
  }

  /** Valid SSA as far as the code can run, where only reachable blocks can be merged:
      what the merge needs and keeps. */
  ghost predicate Sound(s: Code, g: Cfg, home: Value -> Site) {
    && HasGraph(s, g) && g.Valid() && (forall c :: c in s.layout && Single(s, g, c) ==> g.Reachable(c))
    && LiveSsa(s, g) && Homed(s, home)
  }

  /** The instructions of one block end up with operands in scope. */
  lemma InstMoves(m: Merge, home: Value -> Site, c: Block, n: nat, n': nat)
    requires m.Ready(home) && m.Defined() && c in m.s.layout && m.g.Reachable(c) && m.p != m.b
    requires n < |m.s.blocks[c].insts| && n' == Offset(m, c) + n
    ensures Place(m, c) in m.Result().blocks && n' < |m.Result().blocks[Place(m, c)].insts|
    ensures var s', g' := m.Result(), Contracted(m.g, m.p, m.b);
            InstOk(Outer(s', g', Elements(s'.layout), Place(m, c)), s'.blocks[Place(m, c)], n')
  {
    PlaceInst(m, c, n, n');
    var s', g' := m.Result(), Contracted(m.g, m.p, m.b);
    var args, args' := m.s.blocks[c].insts[n].args, s'.blocks[Place(m, c)].insts[n'].args;
    assert BlockOk(m.s, m.g, Elements(m.s.layout), c);
    assert InstOk(Outer(m.s, m.g, Elements(m.s.layout), c), m.s.blocks[c], n);
    forall v' | v' in args'
      ensures Visible(s', g', Place(m, c), n', v')
    {
      var i :| 0 <= i < |args'| && args'[i] == v';
      assert args[i] in args;
      VisibleMoves(m, home, c, n, args[i]);
    }
  }

  /** The end of one block uses only values in scope. */
  lemma EndMoves(m: Merge, home: Value -> Site, c: Block)
    requires m.Ready(home) && m.Defined() && c in m.s.layout && m.g.Reachable(c) && m.p != m.b && c != m.p
    ensures Place(m, c) in m.Result().blocks
    ensures var s', g' := m.Result(), Contracted(m.g, m.p, m.b);
            EndOk(Outer(s', g', Elements(s'.layout), Place(m, c)), s'.blocks[Place(m, c)])
  {
    PlaceEnd(m, c);
    var s', g' := m.Result(), Contracted(m.g, m.p, m.b);
    var t, n := m.s.blocks[c].term, |m.s.blocks[c].insts|;
    assert BlockOk(m.s, m.g, Elements(m.s.layout), c);
    if t.Conditional() {
      VisibleMoves(m, home, c, n, t.cond);
    }
    if t.Return? {
      var vs' := s'.blocks[Place(m, c)].term.values;
      forall v' | v' in vs'
        ensures Visible(s', g', Place(m, c), Offset(m, c) + n, v')
      {
        var i :| 0 <= i < |vs'| && vs'[i] == v';
        assert t.values[i] in t.values;
        VisibleMoves(m, home, c, n, t.values[i]);
      }
    }
  }

  /** The branch arguments still fit. */
  lemma CallMoves(m: Merge, home: Value -> Site, c: Block, k: nat)
    requires m.Ready(home) && m.Defined() && c in m.s.layout && m.g.Reachable(c) && m.p != m.b && c != m.p
    requires Place(m, c) in m.Result().blocks && k < |m.Result().blocks[Place(m, c)].term.Calls()|
    ensures var s', g' := m.Result(), Contracted(m.g, m.p, m.b); CallOk(s', g', Elements(s'.layout), Place(m, c), k)
  {
    PlaceEnd(m, c);
    var s, g, s', g' := m.s, m.g, m.Result(), Contracted(m.g, m.p, m.b);
    var call, n := s.blocks[c].term.Calls()[k], |s.blocks[c].insts|;
    assert CallsOk(s, g, Elements(s.layout), c) && CallOk(s, g, Elements(s.layout), c, k);
    assert call.block == s.blocks[c].term.Dests()[k] && g.Edge(c, call.block) && c in g.Preds(call.block);
    PlaceParams(m, call.block);
    ArgsMove(m, home, c, call.args, s.blocks[call.block].params);
  }

  lemma ArgsMove(m: Merge, home: Value -> Site, c: Block, args: seq<Value>, ps: seq<TypedValue>)
    requires m.Ready(home) && m.Defined() && c in m.s.layout && m.g.Reachable(c) && m.p != m.b
    requires ArgsOk(Outer(m.s, m.g, Elements(m.s.layout), c), m.s.blocks[c], args, ps)
    ensures forall i :: 0 <= i < |args| ==>
              Scoped(m.Result(), Contracted(m.g, m.p, m.b), Place(m, c), Offset(m, c) + |m.s.blocks[c].insts|,
                     TypedValue(m.Sub(args[i]), ps[i].ty))
  {
    forall i | 0 <= i < |args|
      ensures Scoped(m.Result(), Contracted(m.g, m.p, m.b), Place(m, c), Offset(m, c) + |m.s.blocks[c].insts|,
                     TypedValue(m.Sub(args[i]), ps[i].ty))
    {
      ScopeMoves(m, home, c, |m.s.blocks[c].insts|, TypedValue(args[i], ps[i].ty));
    }
  }

  /** A block of the merged code is in order. */
  lemma BlockMoves(m: Merge, home: Value -> Site, c: Block)
    requires m.Ready(home) && m.Defined() && m.p != m.b && c in m.s.layout && c != m.b && m.g.Reachable(c)
    ensures var s', g' := m.Result(), Contracted(m.g, m.p, m.b);
            BlockOk(s', g', Elements(s'.layout), c) && CallsOk(s', g', Elements(s'.layout), c)
  {
    var s', g' := m.Result(), Contracted(m.g, m.p, m.b);
    PlaceParams(m, c);
    var last := if c == m.p then m.b else c;
    PlaceEnd(m, last);
    forall i | 0 <= i < |s'.blocks[c].insts|
      ensures InstOk(Outer(s', g', Elements(s'.layout), c), s'.blocks[c], i)
    {
      if i < |m.s.blocks[c].insts| {
        InstMoves(m, home, c, i, i);
      } else {
        InstMoves(m, home, m.b, i - |m.s.blocks[m.p].insts|, i);
      }
    }
    EndMoves(m, home, last);
    forall k | 0 <= k < |s'.blocks[c].term.Calls()|
      ensures CallOk(s', g', Elements(s'.layout), c, k)
    {
      CallMoves(m, home, last, k);
    }
  }

  function NewHome(m: Merge, home: Value -> Site): Value -> Site
    requires m.Defined()
  {
    (v: Value) => if home(v).block == m.b then Site(m.p, |m.s.blocks[m.p].insts| + home(v).pos) else home(v)
  }

  lemma InstHome(m: Merge, home: Value -> Site, c: Block, n: nat, n': nat)
    requires m.Defined() && m.p != m.b && c in m.s.blocks && n < |m.s.blocks[c].insts| && n' == Offset(m, c) + n
    requires HomedBlock(m.s.blocks[c], c, home)
    ensures Place(m, c) in m.Result().blocks && n' < |m.Result().blocks[Place(m, c)].insts|
    ensures var rs := m.Result().blocks[Place(m, c)].insts[n'].results;
            DistinctValues(rs) && forall tv :: tv in rs ==> NewHome(m, home)(tv.value) == Site(Place(m, c), n' + 1)
  {
    PlaceInst(m, c, n, n');
  }

  lemma HomeMoves(m: Merge, home: Value -> Site, c: Block)
    requires m.Ready(home) && m.Defined() && m.p != m.b && c in m.s.layout && c != m.b
    ensures c in m.Result().blocks && HomedBlock(m.Result().blocks[c], c, NewHome(m, home))
  {
    PlaceParams(m, c);
    PlaceEnd(m, if c == m.p then m.b else c);
    var d' := m.Result().blocks[c];
    assert HomedBlock(m.s.blocks[c], c, home) && HomedBlock(m.s.blocks[m.b], m.b, home);
    forall i | 0 <= i < |d'.insts|
      ensures DistinctValues(d'.insts[i].results)
      ensures forall tv :: tv in d'.insts[i].results ==> NewHome(m, home)(tv.value) == Site(c, i + 1)
    {
      if i < |m.s.blocks[c].insts| {
        InstHome(m, home, c, i, i);
      } else {
        InstHome(m, home, m.b, i - |m.s.blocks[m.p].insts|, i);
      }
    }
  }

  lemma GraphMoves(m: Merge, home: Value -> Site)
    requires m.Ready(home) && m.Defined() && m.p != m.b
    ensures HasGraph(m.Result(), Contracted(m.g, m.p, m.b))
  {
    var s', g' := m.Result(), Contracted(m.g, m.p, m.b);
    WithoutLaid(m.s.layout, m.b);
    forall c | c in s'.layout
      ensures c in s'.blocks && g'.succ[c] == s'.blocks[c].term.Targets()
    {
      var last := if c == m.p then m.b else c;
      PlaceEnd(m, last);
      assert s'.blocks[c].term.Dests() == m.s.blocks[last].term.Dests();
    }
  }

  lemma SsaKept(m: Merge, home: Value -> Site)
    requires m.Ready(home) && m.Defined() && m.p != m.b
    ensures LiveSsa(m.Result(), Contracted(m.g, m.p, m.b))
  {
    MergeContractible(m, home);
    forall c | c in m.Result().layout && Contracted(m.g, m.p, m.b).Reachable(c)
      ensures BlockOk(m.Result(), Contracted(m.g, m.p, m.b), Elements(m.Result().layout), c)
      ensures CallsOk(m.Result(), Contracted(m.g, m.p, m.b), Elements(m.Result().layout), c)
    {
      WasReachable(m.g, m.p, m.b, c);
      BlockMoves(m, home, c);
    }
  }

  lemma HomesKept(m: Merge, home: Value -> Site)
    requires m.Ready(home) && m.Defined() && m.p != m.b
    ensures Homed(m.Result(), NewHome(m, home))
  {
    forall c | c in m.Result().layout
      ensures c in m.Result().blocks && HomedBlock(m.Result().blocks[c], c, NewHome(m, home))
    {
      HomeMoves(m, home, c);
    }
  }

  /** The merge keeps everything that it needs. */
  lemma MergeKeepsSound(m: Merge, home: Value -> Site)
    requires m.Ready(home) && m.Defined() && Sound(m.s, m.g, home)
    ensures m.b in m.g.succ && Sound(m.Result(), Contracted(m.g, m.p, m.b), NewHome(m, home))
  {
    MergeFacts(m, home);
    MergeContractible(m, home);
    GraphMoves(m, home);
    ContractedValid(m.g, m.p, m.b);
    SsaKept(m, home);
    HomesKept(m, home);
    forall c | c in m.Result().layout && Single(m.Result(), Contracted(m.g, m.p, m.b), c)
      ensures Contracted(m.g, m.p, m.b).Reachable(c)
    {
      if m.g.Reachable(c) {
        StillReachable(m.g, m.p, m.b, c);
      } else {
        WasSingle(m, home, c);
      }
    }
  }

  /** An unreachable block keeps its predecessors and their branches. */
  lemma WasSingle(m: Merge, home: Value -> Site, c: Block)
    requires m.Ready(home) && m.Defined() && Contractible(m.g, m.p, m.b) && m.g.Reachable(m.p)
    requires c in m.s.layout && !m.g.Reachable(c) && Single(m.Result(), Contracted(m.g, m.p, m.b), c)
    ensures Single(m.s, m.g, c)
  {
    var s', g' := m.Result(), Contracted(m.g, m.p, m.b);
    var a :| g'.Preds(c) == {a} && a in s'.blocks && |s'.blocks[a].term.Calls()| == 1;
    SamePreds(m.g, m.p, m.b, c);
    assert a in g'.Preds(c);
    SingleCall(m, a);
    assert m.g.Preds(c) == {a};
  }

  lemma SingleCall(m: Merge, a: Block)
    requires m.Defined() && m.p != m.b && a in m.Result().blocks && a != m.p && a != m.b
    ensures a in m.s.blocks && |m.s.blocks[a].term.Calls()| == |m.Result().blocks[a].term.Calls()|
  {
    PlaceEnd(m, a);
  }

  lemma SamePreds(g: Cfg, p: Block, b: Block, c: Block)
    requires Contractible(g, p, b) && g.Reachable(p) && g.Reachable(b) && !g.Reachable(c)
    ensures Contracted(g, p, b).Preds(c) == g.Preds(c) && p !in g.Preds(c) && b !in g.Preds(c)
  {
    NotFromReachable(g, p, c);
    NotFromReachable(g, b, c);
  }

  lemma NotFromReachable(g: Cfg, a: Block, c: Block)
    requires g.Valid() && g.Reachable(a) && !g.Reachable(c)
    ensures !g.Edge(a, c)
  {
    if g.Edge(a, c) {
      EdgeReaches(g, a, c);
      ReachesTransitive(g, g.entry, a, c);
    }
  }

  lemma WasReachable(g: Cfg, p: Block, b: Block, c: Block)
    requires Contractible(g, p, b) && Contracted(g, p, b).Reachable(c)
    ensures g.Reachable(c)
  {
    var q :| Contracted(g, p, b).PathFromTo(g.entry, c, q);
    ExpandedIsPath(g, p, b, q);
  }

  lemma StillReachable(g: Cfg, p: Block, b: Block, c: Block)
    requires Contractible(g, p, b) && c != b && g.Reachable(c)
    ensures Contracted(g, p, b).Reachable(c)
  {
    var q :| g.PathFromTo(g.entry, c, q);
    ReachabilityMoves(g, p, b, q);
  }
}
