/** The function generator: dominators, the two passes and the return; then the
    insertion of calls to the children in the call graph. */
module FunctionGenerator {
  import opened Graphs
  import opened Dominators
  import opened Splicing
  import opened Ir
  import opened RegionBuilders
  import opened CfConstruct
  import opened Preorder
  import opened Ssa
  import opened Typing
  import opened Population
  import opened BlockFilling
  import opened BlockParameters

  // ----- the second pass over all blocks -----

  lemma MoreDone(s0: Code, s: Code, g: Cfg, defs: Defs, refs: Defs, done: set<Block>, done': set<Block>, join: Block)
    requires SecondPass(s0, s, g, defs, refs, done, join, {}) && done <= done'
    ensures SecondPass(s0, s, g, defs, refs, done', join, {})
  {
    forall b | b in g.succ
      ensures InOrder(s0, s, g, defs, refs, done', join, {}, b)
    {
      assert InOrder(s0, s, g, defs, refs, done, join, {}, b);
    }
  }

  ghost predicate DefsGrow(defs: Defs, defs': Defs) {
    forall c :: c in defs ==> c in defs' && defs[c] <= defs'[c]
  }

  lemma CurrentGraph(s0: Code, s: Code, g: Cfg, defs: Defs, refs: Defs, done: set<Block>, last: Block)
    requires HasGraph(s0, g) && SecondPass(s0, s, g, defs, refs, done, last, {})
    ensures s.layout != [] && s.Graph() == g
  {
    SecondPassFacts(s0, s, g, defs, refs, done, last, {});
    SameGraph(s0, s, g);
  }

  lemma JoinPreds(g: Cfg, node: Block, preds: seq<Block>)
    requires EntryFree(g) && forall b :: b in preds <==> b in g.Preds(node)
    ensures Elements(preds) == g.Preds(node) && (|preds| >= 1 ==> node != g.entry)
  {
    if |preds| >= 1 { assert preds[0] in preds; }
  }

  /** The parameters of a block that is not the entry: one for each type used in it, if it
      has two predecessors or more, and otherwise none. */
  ghost predicate ParamsPlanned(ps: seq<TypedValue>, g: Cfg, refs: Defs, b: Block) {
    if |g.Preds(b)| >= 2 then OnePerType(ps, refs, b) else ps == []
  }

  /** The blocks done have their parameters, and the others what they had in `m`. */
  ghost predicate Planned(m: map<Block, BlockData>, m': map<Block, BlockData>, g: Cfg, refs: Defs, done: set<Block>) {
    forall b :: b in g.succ ==> PlannedAt(m, m', g, refs, done, b)
  }

  ghost predicate PlannedAt(m: map<Block, BlockData>, m': map<Block, BlockData>, g: Cfg, refs: Defs, done: set<Block>,
                            b: Block) {
    && b in m && b in m'
    && if b in done && b != g.entry then ParamsPlanned(m'[b].params, g, refs, b) else m'[b].params == m[b].params
  }

  lemma PlannedJoin(m: map<Block, BlockData>, m1: map<Block, BlockData>, m2: map<Block, BlockData>, g: Cfg, refs: Defs,
                    done: set<Block>, node: Block)
    requires Planned(m, m1, g, refs, done) && node in m2 && ParamsBut(m1, m2, node) && node != g.entry
    requires ParamsPlanned(m2[node].params, g, refs, node)
    ensures Planned(m, m2, g, refs, done + {node})
  {
    forall b | b in g.succ
      ensures PlannedAt(m, m2, g, refs, done + {node}, b)
    {
      assert PlannedAt(m, m1, g, refs, done, b);
    }
  }

  lemma PlannedEntry(m: map<Block, BlockData>, m1: map<Block, BlockData>, g: Cfg, refs: Defs, done: set<Block>)
    requires Planned(m, m1, g, refs, done)
    ensures Planned(m, m1, g, refs, done + {g.entry})
  {
    forall b | b in g.succ
      ensures PlannedAt(m, m1, g, refs, done + {g.entry}, b)
    {
      assert PlannedAt(m, m1, g, refs, done, b);
    }
  }

  /** A block with fewer than two predecessors is left without parameters. */
  lemma PlannedSkip(s0: Code, s: Code, m: map<Block, BlockData>, g: Cfg, defs: Defs, refs: Defs, done: set<Block>,
                    last: Block, node: Block)
    requires SecondPass(s0, s, g, defs, refs, done, last, {}) && Planned(m, s.blocks, g, refs, done)
    requires node in g.succ && node !in done && |g.Preds(node)| < 2
    ensures Planned(m, s.blocks, g, refs, done + {node})
  {
    if node == g.entry {
      PlannedEntry(m, s.blocks, g, refs, done);
    } else {
      JoinUntouched(s0, s, g, defs, refs, done, last, node);
      PlannedJoin(m, s.blocks, s.blocks, g, refs, done, node);
    }
  }

  /** One block of the second pass: only a block with at least two predecessors is
      touched. */
  method VisitJoin(f: Func, node: Block, dom: Table, defs: Defs, refs: Defs,
                   ghost s0: Code, ghost g: Cfg, ghost exit: Block, ghost done: set<Block>, ghost last: Block,
                   ghost base: Code)
    returns (defs': Defs, ghost last': Block)
    requires Wired(s0, exit) && HasGraph(s0, g) && g.Valid() && EntryFree(g) && dom == DominatorTable(g)
    requires node in g.succ && node !in done && f.layout != []
    requires SecondPass(s0, f.State(), g, defs, refs, done, last, {})
    requires KeepsTypes(base, f.State()) && Planned(base.blocks, f.blocks, g, refs, done)
    modifies f`blocks, f`nextValue
    ensures KeepsTypes(base, f.State()) && Planned(base.blocks, f.blocks, g, refs, done + {node})
    ensures SecondPass(s0, f.State(), g, defs', refs, done + {node}, last', {})
    ensures DefsGrow(defs, defs')
  {
    CurrentGraph(s0, f.State(), g, defs, refs, done, last);
    var preds := Ascending(f.State().Graph().Preds(node));
    JoinPreds(g, node, preds);
    ghost var m := f.blocks;
    if |preds| >= 2 {
      defs' := ParameteriseJoin(f, node, preds, dom, defs, refs, s0, g, exit, done, last, base);
      last' := node;
      PlannedJoin(base.blocks, m, f.blocks, g, refs, done, node);
    } else {
      defs', last' := defs, last;
      PlannedSkip(s0, f.State(), base.blocks, g, defs, refs, done, last, node);
      MoreDone(s0, f.State(), g, defs, refs, done, done + {node}, last);
    }
  }

  method AddBlockParameters(f: Func, order: seq<Block>, dom: Table, defs: Defs, refs: Defs,
                            ghost s0: Code, ghost g: Cfg, ghost exit: Block, ghost base: Code)
    returns (defs': Defs, ghost last: Block)
    requires Wired(s0, exit) && HasGraph(s0, g) && g.Valid() && EntryFree(g) && dom == DominatorTable(g)
    requires Distinct(order) && f.layout != [] && forall b :: b in order ==> b in g.succ
    requires SecondPass(s0, f.State(), g, defs, refs, {}, g.entry, {})
    requires KeepsTypes(base, f.State()) && Planned(base.blocks, f.blocks, g, refs, {})
    modifies f`blocks, f`nextValue
    ensures KeepsTypes(base, f.State()) && Planned(base.blocks, f.blocks, g, refs, Elements(order))
    ensures SecondPass(s0, f.State(), g, defs', refs, Elements(order), last, {})
    ensures DefsGrow(defs, defs')
  {
    defs', last := defs, g.entry;
    OrderEnds(order);
    for i := 0 to |order|
      invariant SecondPass(s0, f.State(), g, defs', refs, Elements(order[..i]), last, {})
      invariant DefsGrow(defs, defs') && KeepsTypes(base, f.State())
      invariant Planned(base.blocks, f.blocks, g, refs, Elements(order[..i]))
    {
      ghost var was := defs';
      assert order[i] in order;
      defs', last := VisitNext(f, order, i, dom, defs', refs, s0, g, exit, last, base);
      GrowsTransitively(defs, was, defs');
    }
  }

  method VisitNext(f: Func, order: seq<Block>, i: nat, dom: Table, defs: Defs, refs: Defs,
                   ghost s0: Code, ghost g: Cfg, ghost exit: Block, ghost last: Block, ghost base: Code)
    returns (defs': Defs, ghost last': Block)
    requires Wired(s0, exit) && HasGraph(s0, g) && g.Valid() && EntryFree(g) && dom == DominatorTable(g)
    requires Distinct(order) && f.layout != [] && i < |order| && order[i] in g.succ
    requires SecondPass(s0, f.State(), g, defs, refs, Elements(order[..i]), last, {})
    requires KeepsTypes(base, f.State()) && Planned(base.blocks, f.blocks, g, refs, Elements(order[..i]))
    modifies f`blocks, f`nextValue
    ensures KeepsTypes(base, f.State()) && Planned(base.blocks, f.blocks, g, refs, Elements(order[..i + 1]))
    ensures SecondPass(s0, f.State(), g, defs', refs, Elements(order[..i + 1]), last', {})
    ensures DefsGrow(defs, defs')
  {
    PrefixElements(order, i);
    defs', last' := VisitJoin(f, order[i], dom, defs, refs, s0, g, exit, Elements(order[..i]), last, base);
  }

  lemma GrowsTransitively(a: Defs, b: Defs, c: Defs)
    requires DefsGrow(a, b) && DefsGrow(b, c)
    ensures DefsGrow(a, c)
  {
    forall k | k in a
      ensures k in c && a[k] <= c[k]
    {
      assert k in b;
    }
  }

  // ----- the finished function -----

  /** The table and the recorded values that the generator hands on. */
  ghost predicate Recorded(s: Code, g: Cfg, defs: Defs) {
    && defs.Keys == g.succ.Keys
    && forall c :: c in defs ==> c in s.blocks && AllDefined(s.blocks[c], defs[c])
  }

  ghost predicate Terminated(s: Code) {
    forall b :: b in s.layout ==> b in s.blocks && !s.blocks[b].term.NoTerminator?
  }

  /** Every block after the second pass: instructions, branches and terminators. */
  lemma SecondPassValid(s0: Code, s: Code, g: Cfg, exit: Block, defs: Defs, refs: Defs, done: set<Block>, join: Block)
    requires Wired(s0, exit) && HasGraph(s0, g) && SecondPass(s0, s, g, defs, refs, done, join, {})
    ensures ValidSsa(s, g) && Recorded(s, g, defs) && Unique(s, g.succ.Keys)
    ensures forall b :: b in s.layout && b != exit ==> b in s.blocks && !s.blocks[b].term.NoTerminator?
    ensures exit in s.layout && exit in s.blocks && s.blocks[exit].term.NoTerminator?
    ensures forall b :: b in g.succ ==> b in s.blocks && SameBranch(s0.blocks[b].term, s.blocks[b].term)
  {
    SecondPassFacts(s0, s, g, defs, refs, done, join, {});
    assert Elements(s.layout) == g.succ.Keys;
    forall b | b in s.layout
      ensures BlockOk(s, g, Elements(s.layout), b) && CallsOk(s, g, Elements(s.layout), b)
    {
      assert InOrder(s0, s, g, defs, refs, done, join, {}, b);
    }
    assert SameBranch(s0.blocks[exit].term, s.blocks[exit].term);
    forall b | b in s.layout && b != exit
      ensures b in s.blocks && !s.blocks[b].term.NoTerminator?
    {
      assert IsBranch(s0.blocks[b]);
      assert SameBranch(s0.blocks[b].term, s.blocks[b].term);
    }
  }

  /** Replacing one block by one with the same definitions and more, the same
      parameters and the same branch arguments. */
  lemma BlockReplaced(s: Code, s': Code, g: Cfg, b: Block, d: BlockData)
    requires ValidSsa(s, g) && b in s.layout && b in s.blocks && s'.layout == s.layout && s'.blocks == s.blocks[b := d]
    requires Widens(s.blocks[b], d) && d.params == s.blocks[b].params && d.term.Calls() == s.blocks[b].term.Calls()
    requires InstsOk(Outer(s, g, Elements(s.layout), b), d) && EndOk(Outer(s, g, Elements(s.layout), b), d)
    ensures ValidSsa(s', g)
  {
    var S := Elements(s.layout);
    forall c | c in s'.layout
      ensures BlockOk(s', g, S, c) && CallsOk(s', g, S, c)
    {
      assert BlockOk(s, g, S, c) && CallsOk(s, g, S, c);
      OuterWidens(s, s', g, S, S, c);
      var kept := if c == b then d else s.blocks[c];
      InstsWiden(Outer(s, g, S, c), Outer(s', g, S, c), kept, s'.blocks[c]);
      EndWidens(Outer(s, g, S, c), Outer(s', g, S, c), kept, s'.blocks[c]);
      CallsWiden(s, s', g, S, c);
    }
  }

  /** Branch arguments keep fitting when scopes only widen and no parameter list
      changes. */
  lemma CallsWiden(s: Code, s': Code, g: Cfg, S: set<Block>, b: Block)
    requires CallsOk(s, g, S, b) && b in s'.blocks && s'.blocks[b].term.Calls() == s.blocks[b].term.Calls()
    requires Widens(s.blocks[b], s'.blocks[b]) && Outer(s, g, S, b) <= Outer(s', g, S, b)
    requires forall c :: c in s.blocks ==> c in s'.blocks && s'.blocks[c].params == s.blocks[c].params
    ensures CallsOk(s', g, S, b)
  {
    forall k | 0 <= k < |s'.blocks[b].term.Calls()|
      ensures CallOk(s', g, S, b, k)
    {
      assert CallOk(s, g, S, b, k);
      var call := s.blocks[b].term.Calls()[k];
      ArgsWiden(Outer(s, g, S, b), Outer(s', g, S, b), s.blocks[b], s'.blocks[b], call.args,
                s.blocks[call.block].params);
    }
  }

  /** Ending a block that has no branch. */
  lemma EndBlockValid(s: Code, g: Cfg, b: Block, t: Terminator)
    requires ValidSsa(s, g) && b in s.layout && b in s.blocks && s.blocks[b].term.Calls() == [] && t.Calls() == []
    requires EndOk(Outer(s, g, Elements(s.layout), b), s.blocks[b].(term := t))
    ensures ValidSsa(WithTerm(s, b, t), g)
  {
    var S, d := Elements(s.layout), s.blocks[b].(term := t);
    assert BlockOk(s, g, S, b);
    InstsWiden(Outer(s, g, S, b), Outer(s, g, S, b), s.blocks[b], d);
    BlockReplaced(s, WithTerm(s, b, t), g, b, d);
  }

  /** What the generator leaves behind: valid SSA over the same flow graph, each value
      defined once, with the dominator table and the values recorded for each block. */
  ghost predicate Populated(s: Code, g: Cfg, dom: Table, defs: Defs) {
    HasGraph(s, g) && dom == DominatorTable(g) && ValidSsa(s, g) && Recorded(s, g, defs) && Unique(s, g.succ.Keys)
  }

  /** The exit block returns values in scope, of the types of the signature. */
  ghost predicate Returns(s: Code, g: Cfg, exit: Block, results: seq<Type>) {
    && exit in s.blocks && s.blocks[exit].term.Return?
    && var d := s.blocks[exit];
       && |d.term.values| == |results|
       && forall i :: 0 <= i < |results| ==>
            InScope(Outer(s, g, Elements(s.layout), exit), d, |d.insts|, TypedValue(d.term.values[i], results[i]))
  }

  /** Only the exit block lacks a terminator. */
  ghost predicate AllButExit(s: Code, exit: Block) {
    && exit in s.layout && exit in s.blocks && s.blocks[exit].term.NoTerminator?
    && forall b :: b in s.layout && b != exit ==> b in s.blocks && !s.blocks[b].term.NoTerminator?
  }

  /** No instruction is lost, and no terminator. */
  ghost predicate MoreCode(m: map<Block, BlockData>, m': map<Block, BlockData>) {
    forall b :: b in m ==>
      && b in m' && |m'[b].insts| >= |m[b].insts|
      && (m'[b].term.NoTerminator? ==> m[b].term.NoTerminator?)
  }

  lemma OccupiedMore(m: map<Block, BlockData>, m': map<Block, BlockData>, S: set<Block>)
    requires AllOccupied(m, S) && MoreCode(m, m')
    ensures AllOccupied(m', S)
  {
  }

  /** The return of the exit block; none for a signature without results. */
  method InsertReturn(f: Func, exit: Block, results: seq<Type>, dom: Table, defs: Defs, ghost g: Cfg)
    requires Populated(f.State(), g, dom, defs) && AllButExit(f.State(), exit)
    requires exit in dom && forall ty :: ty in results ==> Offers(Pool(dom, defs, exit), ty)
    modifies f`blocks
    ensures Populated(f.State(), g, dom, defs) && KeepsTypes(old(f.State()), f.State())
    ensures SameParams(old(f.blocks), f.blocks) && MoreCode(old(f.blocks), f.blocks)
    ensures Terminated(f.State()) <==> results != []
    ensures results != [] ==> Returns(f.State(), g, exit, results)
  {
    KeepsSelf(f.State());
    if |results| != 0 {
      var values := ChooseArgs(Pool(dom, defs, exit), results);
      ReturnKeeps(f.State(), exit, values);
      ReturnPlaced(f.State(), WithTerm(f.State(), exit, Return(values)), g, dom, defs, exit, results, values);
      f.SetBlock(exit, f.blocks[exit].(term := Return(values)));
    }
  }

  lemma ReturnKeeps(s: Code, b: Block, values: seq<Value>)
    requires b in s.blocks && s.blocks[b].term.NoTerminator?
    ensures KeepsTypes(s, WithTerm(s, b, Return(values)))
    ensures SameParams(s.blocks, WithTerm(s, b, Return(values)).blocks)
    ensures MoreCode(s.blocks, WithTerm(s, b, Return(values)).blocks)
  {
    BlockSwapped(s, WithTerm(s, b, Return(values)), b, s.blocks[b].(term := Return(values)));
  }

  /** What is in scope has its type. */
  lemma ScopeTyped(s: Code, g: Cfg, b: Block, tv: TypedValue)
    requires b in s.layout && b in s.blocks
             && InScope(Outer(s, g, Elements(s.layout), b), s.blocks[b], |s.blocks[b].insts|, tv)
    ensures HasType(s, tv.value, tv.ty)
  {
    if tv in Outer(s, g, Elements(s.layout), b) {
      var c :| c in Elements(s.layout) && c in s.blocks && g.StrictlyDominates(c, b) && Defines(s.blocks[c], tv);
      assert c in s.layout && Defines(s.blocks[c], TypedValue(tv.value, tv.ty));
    } else {
      assert Defines(s.blocks[b], TypedValue(tv.value, tv.ty));
    }
  }

  /** A value in scope has no other type than its own. */
  lemma TypedInScope(s: Code, g: Cfg, b: Block, v: Value, ty: Type)
    requires b in s.layout && b in s.blocks && Unique(s, Elements(s.layout)) && HasType(s, v, ty)
    requires Usable(Outer(s, g, Elements(s.layout), b), s.blocks[b], |s.blocks[b].insts|, v)
    ensures InScope(Outer(s, g, Elements(s.layout), b), s.blocks[b], |s.blocks[b].insts|, TypedValue(v, ty))
  {
    var ty' :| InScope(Outer(s, g, Elements(s.layout), b), s.blocks[b], |s.blocks[b].insts|, TypedValue(v, ty'));
    ScopeTyped(s, g, b, TypedValue(v, ty'));
    TypeFound(s, v, ty);
    TypeFound(s, v, ty');
  }

  lemma ReturnsHaveTypes(s: Code, g: Cfg, exit: Block, results: seq<Type>)
    requires exit in s.layout && Returns(s, g, exit, results)
    ensures ReturnsTyped(s, exit, results)
  {
    var values := s.blocks[exit].term.values;
    forall i | 0 <= i < |values|
      ensures HasType(s, values[i], results[i])
    {
      ScopeTyped(s, g, exit, TypedValue(values[i], results[i]));
    }
  }

  lemma TypedReturns(s: Code, g: Cfg, exit: Block, results: seq<Type>)
    requires HasGraph(s, g) && ValidSsa(s, g) && Unique(s, g.succ.Keys) && ReturnsTyped(s, exit, results)
    ensures Returns(s, g, exit, results)
  {
    assert Elements(s.layout) == g.succ.Keys && BlockOk(s, g, Elements(s.layout), exit);
    var values := s.blocks[exit].term.values;
    forall i | 0 <= i < |values|
      ensures InScope(Outer(s, g, Elements(s.layout), exit), s.blocks[exit], |s.blocks[exit].insts|,
                      TypedValue(values[i], results[i]))
    {
      assert values[i] in values;
      TypedInScope(s, g, exit, values[i], results[i]);
    }
  }

  lemma ReturnPlaced(s: Code, s': Code, g: Cfg, dom: Table, defs: Defs, exit: Block, results: seq<Type>,
                     values: seq<Value>)
    requires Populated(s, g, dom, defs) && AllButExit(s, exit) && exit in dom
    requires Matching(Pool(dom, defs, exit), results, values) && s' == WithTerm(s, exit, Return(values))
    ensures Populated(s', g, dom, defs) && Terminated(s') && Returns(s', g, exit, results)
  {
    assert Elements(s.layout) == g.succ.Keys;
    ReturnInScope(s, g, dom, defs, exit, results, values);
    EndBlockValid(s, g, exit, Return(values));
    UniqueSame(s, s', g.succ.Keys, exit, s.blocks[exit].(term := Return(values)));
    ReturnRecorded(s, s', g, exit, defs, Return(values));
    ReturnTyped(s, s', g, dom, defs, exit, results, values);
    ReturnGraph(s, s', g, exit, values);
  }

  lemma ReturnGraph(s: Code, s': Code, g: Cfg, exit: Block, values: seq<Value>)
    requires HasGraph(s, g) && AllButExit(s, exit) && s' == WithTerm(s, exit, Return(values))
    ensures HasGraph(s', g) && Terminated(s')
  {
    assert s'.blocks[exit].term.Dests() == s.blocks[exit].term.Dests();
  }

  lemma ReturnRecorded(s: Code, s': Code, g: Cfg, exit: Block, defs: Defs, t: Terminator)
    requires exit in s.blocks && s' == WithTerm(s, exit, t) && Recorded(s, g, defs)
    ensures Recorded(s', g, defs)
  {
    forall c | c in defs
      ensures c in s'.blocks && AllDefined(s'.blocks[c], defs[c])
    {
      DefinedWiden(s.blocks[c], s'.blocks[c], defs[c]);
    }
  }

  lemma ReturnTyped(s: Code, s': Code, g: Cfg, dom: Table, defs: Defs, b: Block, tys: seq<Type>, values: seq<Value>)
    requires b in g.succ && b in s.blocks && Elements(s.layout) == g.succ.Keys && dom == DominatorTable(g)
    requires Recorded(s, g, defs) && Matching(Pool(dom, defs, b), tys, values) && s' == WithTerm(s, b, Return(values))
    ensures Returns(s', g, b, tys)
  {
    ReturnRecorded(s, s', g, b, defs, Return(values));
    PoolScope(s', g, Elements(s'.layout), dom, defs, b, s'.blocks[b]);
  }

  lemma ReturnInScope(s: Code, g: Cfg, dom: Table, defs: Defs, b: Block, tys: seq<Type>, values: seq<Value>)
    requires b in g.succ && b in s.blocks && Elements(s.layout) == g.succ.Keys && dom == DominatorTable(g)
    requires Recorded(s, g, defs) && Matching(Pool(dom, defs, b), tys, values)
    ensures EndOk(Outer(s, g, Elements(s.layout), b), s.blocks[b].(term := Return(values)))
  {
    var S, d := Elements(s.layout), s.blocks[b].(term := Return(values));
    DefinedWiden(s.blocks[b], d, defs[b]);
    PoolScope(s, g, S, dom, defs, b, d);
    forall v | v in values
      ensures Usable(Outer(s, g, S, b), d, |d.insts|, v)
    {
      var i :| 0 <= i < |values| && values[i] == v;
      assert InScope(Outer(s, g, S, b), d, |d.insts|, TypedValue(v, tys[i]));
    }
  }

  /** The reachable blocks are all blocks. */
  lemma OrderCovers(g: Cfg, order: seq<Block>)
    requires g.Valid() && AllReachable(g) && IsPreorder(g, order)
    ensures Elements(order) == g.succ.Keys
  {
    forall b
      ensures b in order <==> b in g.succ
    {
      if g.Reachable(b) { ReachableInLayout(g, b); }
    }
  }

  /** Both passes. */
  method FillFunction(f: Func, order: seq<Block>, params: seq<Type>, config: seq<Type>, dom: Table,
                      ghost g: Cfg, ghost exit: Block)
    returns (defs: Defs, ghost refs: Defs, ghost last: Block, ghost logs: Logs)
    requires Wired(f.State(), exit) && HasGraph(f.State(), g) && g.Valid() && EntryFree(g) && dom == DominatorTable(g)
    requires IsPreorder(g, order) && Elements(order) == g.succ.Keys
    requires I64 in Supply(params, config) && I32 in Supply(params, config)
    modifies f`blocks, f`nextValue
    ensures SecondPass(old(f.State()), f.State(), g, defs, refs, g.succ.Keys, last, {})
    ensures g.entry in defs && Covers(defs[g.entry], Supply(params, config)) && CondsTyped(f.State())
    ensures Signed(f.blocks, g, params, refs) && Logged(defs, refs, logs) && AllOccupied(f.blocks, g.succ.Keys)
  {
    ghost var s0 := f.State();
    PreorderScheduled(s0, g, order, exit);
    var defs1, refs1;
    defs1, refs1, logs := FillBlocks(f, order, params, config, dom, g);
    CondsDefined(s0, f.State(), g, defs1, refs1);
    ghost var s1 := f.State();
    KeepsSelf(s1);
    StartSecondPass(s0, f.State(), g, exit, defs1, refs1);
    PlannedStart(s0, s1, g, defs1, refs1);
    defs, last := AddBlockParameters(f, order, dom, defs1, refs1, s0, g, exit, s1);
    CondsKept(s1, f.State());
    refs := refs1;
    CoversMore(defs1[g.entry], defs[g.entry], Supply(params, config));
    LoggedOn(defs1, defs, refs, logs);
    OccupiedOn(s0, s1, f.State(), g, defs1, defs, refs, last);
    PlannedSigned(s1.blocks, f.blocks, g, params, refs);
  }

  /** The second pass leaves no block without instructions either. */
  lemma OccupiedOn(s0: Code, s1: Code, s2: Code, g: Cfg, defs1: Defs, defs2: Defs, refs: Defs, last: Block)
    requires HasGraph(s0, g) && AllOccupied(s1.blocks, g.succ.Keys) && KeepsTypes(s1, s2)
    requires SecondPass(s0, s1, g, defs1, refs, {}, g.entry, {})
    requires SecondPass(s0, s2, g, defs2, refs, g.succ.Keys, last, {})
    ensures AllOccupied(s2.blocks, g.succ.Keys)
  {
    SecondPassFacts(s0, s1, g, defs1, refs, {}, g.entry, {});
    SecondPassFacts(s0, s2, g, defs2, refs, g.succ.Keys, last, {});
    forall b | b in g.succ.Keys
      ensures b in s2.blocks && Occupied(s2.blocks[b])
    {
      assert b in s1.layout && BlockKeeps(s1, s1.blocks[b], s2, s2.blocks[b]);
    }
  }

  lemma PlannedStart(s0: Code, s: Code, g: Cfg, defs: Defs, refs: Defs)
    requires SecondPass(s0, s, g, defs, refs, {}, g.entry, {})
    ensures Planned(s.blocks, s.blocks, g, refs, {})
  {
  }

  lemma LoggedOn(defs: Defs, defs': Defs, refs: Defs, logs: Logs)
    requires Logged(defs, refs, logs) && DefsGrow(defs, defs')
    ensures Logged(defs', refs, logs)
  {
    forall b | b in refs
      ensures b in defs' && b in logs && FromLog(defs'[b], refs[b], logs[b])
    {
      assert FromLog(defs[b], refs[b], logs[b]);
    }
  }

  /** The entry takes the parameters of the signature, and every other block those its
      predecessors and uses call for. */
  ghost predicate Signed(m: map<Block, BlockData>, g: Cfg, params: seq<Type>, refs: Defs) {
    && EntryTyped(m, g.entry, params)
    && forall b :: b in g.succ && b != g.entry ==> b in m && ParamsPlanned(m[b].params, g, refs, b)
  }

  lemma PlannedSigned(m: map<Block, BlockData>, m': map<Block, BlockData>, g: Cfg, params: seq<Type>, refs: Defs)
    requires g.Valid() && EntryTyped(m, g.entry, params) && Planned(m, m', g, refs, g.succ.Keys)
    ensures Signed(m', g, params, refs)
  {
    forall b | b in g.succ && b != g.entry
      ensures b in m' && ParamsPlanned(m'[b].params, g, refs, b)
    {
      assert PlannedAt(m, m', g, refs, g.succ.Keys, b);
    }
    assert PlannedAt(m, m', g, refs, g.succ.Keys, g.entry);
  }

  lemma SignedKept(m: map<Block, BlockData>, m': map<Block, BlockData>, g: Cfg, params: seq<Type>, refs: Defs)
    requires Signed(m, g, params, refs) && SameParams(m, m')
    ensures Signed(m', g, params, refs)
  {
  }

  lemma CoversMore(vs: set<TypedValue>, vs': set<TypedValue>, tys: set<Type>)
    requires vs <= vs' && Covers(vs, tys)
    ensures Covers(vs', tys)
  {
    forall ty | ty in tys
      ensures Offers(vs', ty)
    {
      assert Offers(vs, ty);
    }
  }

  lemma SecondPassPopulated(s0: Code, s: Code, g: Cfg, exit: Block, dom: Table, defs: Defs, refs: Defs,
                            done: set<Block>, join: Block)
    requires Wired(s0, exit) && HasGraph(s0, g) && SecondPass(s0, s, g, defs, refs, done, join, {})
             && dom == DominatorTable(g)
    ensures Populated(s, g, dom, defs) && AllButExit(s, exit) && s.layout != [] && s.Graph() == g
  {
    SecondPassValid(s0, s, g, exit, defs, refs, done, join);
    SecondPassFacts(s0, s, g, defs, refs, done, join, {});
    SameGraph(s0, s, g);
    assert s.Laid();
    GraphOf(s);
  }

  /** The last block and its return. */
  method FinishFunction(f: Func, order: seq<Block>, results: seq<Type>, supply: set<Type>, dom: Table, defs: Defs,
                        ghost s0: Code, ghost g: Cfg, ghost exit: Block, ghost refs: Defs, ghost last: Block)
    requires Wired(s0, exit) && HasGraph(s0, g) && g.Valid() && UniqueExit(g, exit) && g.Reachable(exit)
    requires dom == DominatorTable(g) && IsPreorder(g, order) && Elements(s0.layout) == g.succ.Keys
    requires SecondPass(s0, f.State(), g, defs, refs, g.succ.Keys, last, {})
    requires CondsTyped(f.State())
    requires g.entry in defs && Covers(defs[g.entry], supply) && forall ty :: ty in results ==> ty in supply
    modifies f`blocks
    ensures Populated(f.State(), g, dom, defs) && CondsTyped(f.State())
    ensures SameParams(old(f.blocks), f.blocks) && MoreCode(old(f.blocks), f.blocks)
    ensures Terminated(f.State()) <==> results != []
    ensures results != [] ==> Returns(f.State(), g, exit, results)
  {
    SecondPassPopulated(s0, f.State(), g, exit, dom, defs, refs, g.succ.Keys, last);
    ghost var s := f.State();
    var lastBlock := GetLastBlock(f.State().Graph(), order, exit);
    PoolCovers(g, dom, defs, exit, supply);
    InsertReturn(f, lastBlock, results, dom, defs, g);
    CondsKept(s, f.State());
  }

  /** The generator over a flow graph `g` that is already known. */
  method GenerateOver(f: Func, g: Cfg, params: seq<Type>, config: seq<Type>, results: seq<Type>, ghost exit: Block)
    returns (dom: Table, defs: Defs, ghost refs: Defs, ghost logs: Logs)
    requires Wired(f.State(), exit) && HasGraph(f.State(), g) && Elements(f.layout) == g.succ.Keys
    requires g.Valid() && EntryFree(g) && UniqueExit(g, exit) && AllReachable(g) && g.Reachable(exit)
    requires I64 in Supply(params, config) && I32 in Supply(params, config)
    requires forall ty :: ty in results ==> ty in Supply(params, config)
    modifies f`blocks, f`nextValue
    ensures Populated(f.State(), g, dom, defs) && CondsTyped(f.State())
    ensures g.entry in defs && Covers(defs[g.entry], Supply(params, config))
    ensures Terminated(f.State()) <==> results != []
    ensures results != [] ==> Returns(f.State(), g, exit, results)
    ensures Signed(f.blocks, g, params, refs) && Logged(defs, refs, logs) && AllOccupied(f.blocks, g.succ.Keys)
  {
    ghost var s0 := f.State();
    var order := DfsOrder(g);
    OrderCovers(g, order);
    ghost var sweeps;
    dom, sweeps := ComputeDominators(g);
    ghost var last;
    defs, refs, last, logs := FillFunction(f, order, params, config, dom, g, exit);
    ghost var m := f.blocks;
    FinishFunction(f, order, results, Supply(params, config), dom, defs, s0, g, exit, refs, last);
    SignedKept(m, f.blocks, g, params, refs);
    OccupiedMore(m, f.blocks, g.succ.Keys);
  }

  lemma GeneratedFacts(s: Code, exit: Block, g: Cfg)
    requires Generated(s, exit) && g == s.Graph()
    ensures Wired(s, exit) && HasGraph(s, g) && Elements(s.layout) == g.succ.Keys
    ensures g.Valid() && EntryFree(g) && UniqueExit(g, exit) && AllReachable(g) && g.Reachable(exit)
  {
    GraphOf(s);
  }

  /** A function body over any constructed flow graph, for any instruction selection
      and any choice of operands, types and conditions. */
  method GenerateFunction(f: Func, params: seq<Type>, config: seq<Type>, results: seq<Type>, ghost exit: Block)
    returns (dom: Table, defs: Defs, ghost g: Cfg, ghost refs: Defs, ghost logs: Logs)
    requires Generated(f.State(), exit)
    requires I64 in Supply(params, config) && I32 in Supply(params, config)
    requires forall ty :: ty in results ==> ty in Supply(params, config)
    modifies f`blocks, f`nextValue
    ensures g == old(f.State().Graph()) && Populated(f.State(), g, dom, defs) && CondsTyped(f.State())
    ensures g.entry in defs && Covers(defs[g.entry], Supply(params, config))
    ensures Terminated(f.State()) <==> results != []
    ensures results != [] ==> Returns(f.State(), g, exit, results)
    ensures Signed(f.blocks, g, params, refs) && Logged(defs, refs, logs) && AllOccupied(f.blocks, g.succ.Keys)
  {
    var graph := f.State().Graph();
    GeneratedFacts(f.State(), exit, graph);
    g := graph;
    dom, defs, refs, logs := GenerateOver(f, graph, params, config, results, exit);
  }
}
