/** The generator's second pass: blocks with several predecessors get parameters,
    and each predecessor's branch the matching arguments. */
module BlockParameters {
  import opened Graphs
  import opened Dominators
  import opened Splicing
  import opened Ir
  import opened RegionBuilders
  import opened CfConstruct
  import opened Ssa
  import opened Typing
  import opened Population
  import opened BlockFilling

  /** Every block of the graph is in order, except that blocks in `left` may still
      miss the arguments for the parameters of `join`. */
  ghost predicate SecondPass(s0: Code, s: Code, g: Cfg, defs: Defs, refs: Defs, done: set<Block>,
                             join: Block, left: set<Block>) {
    && s.layout == s0.layout && s.blocks.Keys == s0.blocks.Keys && g.succ.Keys <= s0.blocks.Keys
    && defs.Keys == g.succ.Keys && refs.Keys == g.succ.Keys
    && (forall b :: b in g.succ ==> InOrder(s0, s, g, defs, refs, done, join, left, b))
    && Unique(s, g.succ.Keys)
  }

  ghost predicate InOrder(s0: Code, s: Code, g: Cfg, defs: Defs, refs: Defs, done: set<Block>,
                          join: Block, left: set<Block>, b: Block) {
    && b in s0.blocks && BlockOk(s, g, g.succ.Keys, b)
    && CallsOkBut(s, g, b, join, b in left)
    && b in defs && b in refs && AllDefined(s.blocks[b], defs[b])
    && SameBranch(s0.blocks[b].term, s.blocks[b].term)
    && (b != g.entry && b !in done ==> s.blocks[b].params == [])
    && (b != g.entry ==> RefsInherited(g, g.succ.Keys, defs, refs[b], b))
  }

  /** The branch has the same destinations. */
  ghost predicate SameBranch(t: Terminator, t': Terminator) {
    t'.Dests() == t.Dests() && (t'.Shaped() <==> t.Shaped()) && (t'.NoTerminator? <==> t.NoTerminator?) && !t'.Return?
  }

  ghost predicate CallsOkBut(s: Code, g: Cfg, b: Block, join: Block, excused: bool) {
    b in s.blocks && forall k :: 0 <= k < |s.blocks[b].term.Calls()| ==>
      (excused && s.blocks[b].term.Calls()[k].block == join) || CallOk(s, g, g.succ.Keys, b, k)
  }

  /** All the definitions of `s` are in `s'`. */
  ghost predicate AllWidened(s: Code, s': Code, g: Cfg) {
    forall c :: c in g.succ ==> c in s.blocks && c in s'.blocks && Widens(s.blocks[c], s'.blocks[c])
  }

  lemma BlockWidens(s: Code, s': Code, g: Cfg, b: Block)
    requires AllWidened(s, s', g) && b in g.succ && BlockOk(s, g, g.succ.Keys, b)
    requires s'.blocks[b].insts == s.blocks[b].insts && SameEnd(s.blocks[b].term, s'.blocks[b].term)
    ensures BlockOk(s', g, g.succ.Keys, b)
  {
    OuterWidens(s, s', g, g.succ.Keys, g.succ.Keys, b);
    InstsWiden(Outer(s, g, g.succ.Keys, b), Outer(s', g, g.succ.Keys, b), s.blocks[b], s'.blocks[b]);
    EndWidens(Outer(s, g, g.succ.Keys, b), Outer(s', g, g.succ.Keys, b), s.blocks[b], s'.blocks[b]);
  }

  lemma CallWidens(s: Code, s': Code, g: Cfg, b: Block, k: nat)
    requires AllWidened(s, s', g) && b in g.succ && k < |s.blocks[b].term.Calls()| && k < |s'.blocks[b].term.Calls()|
    requires CallOk(s, g, g.succ.Keys, b, k)
    requires var call := s.blocks[b].term.Calls()[k];
             s'.blocks[b].term.Calls()[k] == call && call.block in s'.blocks
                 && s'.blocks[call.block].params == s.blocks[call.block].params
    ensures CallOk(s', g, g.succ.Keys, b, k)
  {
    var call := s.blocks[b].term.Calls()[k];
    OuterWidens(s, s', g, g.succ.Keys, g.succ.Keys, b);
    ArgsWiden(Outer(s, g, g.succ.Keys, b), Outer(s', g, g.succ.Keys, b), s.blocks[b], s'.blocks[b],
              call.args, s.blocks[call.block].params);
  }

  /** The first pass leaves every branch without arguments and every block but the
      entry without parameters. */
  lemma FirstPassCalls(s0: Code, s: Code, g: Cfg, exit: Block, defs: Defs, refs: Defs, b: Block)
    requires Wired(s0, exit) && HasGraph(s0, g) && g.Valid() && EntryFree(g)
    requires FirstPass(s0, s, g, g.succ.Keys, defs, refs) && b in g.succ
    ensures CallsOk(s, g, g.succ.Keys, b)
  {
    assert Ready(s0, s, g, g.succ.Keys, defs, refs, b);
    var calls := s.blocks[b].term.Calls();
    forall k | 0 <= k < |calls|
      ensures CallOk(s, g, g.succ.Keys, b, k)
    {
      var c := calls[k].block;
      assert s0.blocks[b].term.NoArgs();
      assert s0.blocks[b].term.Dests()[k] == c;
      assert c in s0.blocks[b].term.Targets();
      assert g.Edge(b, c);
      assert c in g.succ && c != g.entry;
      assert Ready(s0, s, g, g.succ.Keys, defs, refs, c);
    }
  }

  lemma StartSecondPass(s0: Code, s: Code, g: Cfg, exit: Block, defs: Defs, refs: Defs)
    requires Wired(s0, exit) && HasGraph(s0, g) && g.Valid() && EntryFree(g)
    requires FirstPass(s0, s, g, g.succ.Keys, defs, refs)
    ensures SecondPass(s0, s, g, defs, refs, {}, g.entry, {})
  {
    forall b | b in g.succ
      ensures InOrder(s0, s, g, defs, refs, {}, g.entry, {}, b)
    {
      assert Ready(s0, s, g, g.succ.Keys, defs, refs, b);
      FirstPassCalls(s0, s, g, exit, defs, refs, b);
      ReadyInOrder(s0, s, g, exit, defs, refs, b);
    }
  }

  lemma ReadyInOrder(s0: Code, s: Code, g: Cfg, exit: Block, defs: Defs, refs: Defs, b: Block)
    requires Wired(s0, exit) && b in s0.layout && Ready(s0, s, g, g.succ.Keys, defs, refs, b)
             && CallsOk(s, g, g.succ.Keys, b)
    ensures InOrder(s0, s, g, defs, refs, {}, g.entry, {}, b)
  {
  }

  // ----- choosing and placing the arguments -----

  /** The branch with the given arguments for `join`. */
  function WithArgs(t: Terminator, join: Block, args: seq<Value>): Terminator {
    match t
    case Jump(d) => Jump(CallArgs(d, join, args))
    case Brif(c, a, b) => Brif(c, CallArgs(a, join, args), CallArgs(b, join, args))
    case BrTable(c, table) => BrTable(c, seq(|table|, i requires 0 <= i < |table| => CallArgs(table[i], join, args)))
    case _ => t
  }

  function CallArgs(c: BlockCall, join: Block, args: seq<Value>): BlockCall {
    if c.block == join then BlockCall(join, args) else c
  }

  lemma WithArgsCalls(t: Terminator, join: Block, args: seq<Value>)
    ensures var t' := WithArgs(t, join, args);
            && |t'.Calls()| == |t.Calls()|
            && (forall k :: 0 <= k < |t.Calls()| ==> t'.Calls()[k] == CallArgs(t.Calls()[k], join, args))
            && SameBranch(t, t') == !t.Return? && SameEnd(t, t')
  {
    var t' := WithArgs(t, join, args);
    assert t'.Dests() == t.Dests();
  }

  /** The values are pool values of the given types, in order. */
  ghost predicate Matching(pool: set<TypedValue>, tys: seq<Type>, args: seq<Value>) {
    |args| == |tys| && forall i :: 0 <= i < |tys| ==> TypedValue(args[i], tys[i]) in pool
  }

  method ChooseArgs(pool: set<TypedValue>, tys: seq<Type>) returns (args: seq<Value>)
    requires forall ty :: ty in tys ==> Offers(pool, ty)
    ensures Matching(pool, tys, args)
  {
    args := [];
    for i := 0 to |tys|
      invariant |args| == i && forall k :: 0 <= k < i ==> TypedValue(args[k], tys[k]) in pool
    {
      assert tys[i] in tys;
      var v := SelectRandomValue(pool, tys[i]);
      args := args + [v];
    }
  }

  /** The branch-table case.  The argument list is never emptied between entries,
      so it is right only because no two entries have the same target. */
  method TableWithArgs(table: seq<BlockCall>, join: Block, pool: set<TypedValue>, tys: seq<Type>, ghost k: nat)
    returns (table': seq<BlockCall>, args: seq<Value>)
    requires k < |table| && table[k].block == join
    requires forall i :: 0 <= i < |table| && table[i].block == join ==> i == k
    requires forall ty :: ty in tys ==> Offers(pool, ty)
    ensures Matching(pool, tys, args)
    ensures |table'| == |table| && forall i :: 0 <= i < |table| ==> table'[i] == CallArgs(table[i], join, args)
  {
    table', args := [], [];
    for i := 0 to |table|
      invariant |table'| == i
      invariant if i <= k then args == [] else Matching(pool, tys, args)
      invariant forall j :: 0 <= j < i ==> table'[j] == CallArgs(table[j], join, args)
    {
      if table[i].block == join {
        var more := ChooseArgs(pool, tys);
        assert [] + more == more;
        args := args + more;
        table' := table' + [BlockCall(table[i].block, args)];
      } else {
        table' := table' + [table[i]];
      }
    }
  }

  /** A well-shaped branch with matching arguments for one of its targets. */
  method BranchWithArgs(t: Terminator, join: Block, pool: set<TypedValue>, tys: seq<Type>)
    returns (t': Terminator, args: seq<Value>)
    requires t.Shaped() && join in t.Dests() && forall ty :: ty in tys ==> Offers(pool, ty)
    ensures Matching(pool, tys, args) && t' == WithArgs(t, join, args)
  {
    ghost var k :| 0 <= k < |t.Dests()| && t.Dests()[k] == join;
    match t {
      case Jump(d) =>
        args := ChooseArgs(pool, tys);
        t' := Jump(BlockCall(d.block, args));
      case Brif(c, a, b) =>
        assert t.Dests() == [a.block, b.block] && t.Dests()[0] != t.Dests()[1];
        args := ChooseArgs(pool, tys);
        if b.block == join {
          t' := Brif(c, a, BlockCall(b.block, args));
        } else {
          t' := Brif(c, BlockCall(a.block, args), b);
        }
      case BrTable(c, table) =>
        forall i | 0 <= i < |table| && table[i].block == join
          ensures i == k
        {
          assert t.Dests()[i] == t.Dests()[k];
        }
        var table';
        table', args := TableWithArgs(table, join, pool, tys, k);
        t' := BrTable(c, table');
        assert table' == WithArgs(t, join, args).table;
      case _ =>
        assert false;
        t' := t;
        args := [];
    }
  }

  // ----- step 1: the parameters -----

  function Elems(ps: seq<TypedValue>): set<TypedValue> {
    set tv | tv in ps
  }

  /** `s` with parameters for `join`, and the next fresh value `next`. */
  function WithParams(s: Code, join: Block, ps: seq<TypedValue>, next: Value): Code
    requires join in s.blocks
  {
    s.(nextValue := next, blocks := s.blocks[join := s.blocks[join].(params := s.blocks[join].params + ps)])
  }

  lemma CallTarget(s0: Code, s: Code, g: Cfg, b: Block, k: nat)
    requires HasGraph(s0, g) && b in g.succ && b in s0.blocks && b in s.blocks
    requires SameBranch(s0.blocks[b].term, s.blocks[b].term) && k < |s.blocks[b].term.Calls()|
    ensures g.Edge(b, s.blocks[b].term.Calls()[k].block)
  {
    assert s0.blocks[b].term.Dests()[k] == s.blocks[b].term.Calls()[k].block;
  }

  lemma RefsWiden(g: Cfg, defs: Defs, defs': Defs, refs: set<TypedValue>, b: Block)
    requires RefsInherited(g, g.succ.Keys, defs, refs, b)
    requires forall c :: c in defs ==> c in defs' && defs[c] <= defs'[c]
    ensures RefsInherited(g, g.succ.Keys, defs', refs, b)
  {
    forall tv | tv in refs
      ensures exists c :: c in g.succ.Keys && g.StrictlyDominates(c, b) && c in defs' && Offers(defs'[c], tv.ty)
    {
      var c :| c in g.succ.Keys && g.StrictlyDominates(c, b) && c in defs && Offers(defs[c], tv.ty);
      assert c in defs' && Offers(defs'[c], tv.ty);
    }
  }

  lemma ParamsWiden(s: Code, g: Cfg, join: Block, ps: seq<TypedValue>, next: Value)
    requires join in s.blocks && forall c :: c in g.succ ==> c in s.blocks
    ensures AllWidened(s, WithParams(s, join, ps, next), g)
  {
  }

  /** One block after the parameters of `join` have been added. */
  lemma ParamsInOrder(s0: Code, s: Code, g: Cfg, defs: Defs, refs: Defs, done: set<Block>, old_join: Block,
                      join: Block, ps: seq<TypedValue>, next: Value, b: Block)
    requires HasGraph(s0, g) && g.Valid() && join in g.succ && join in s.blocks && join in defs
    requires forall c :: c in g.succ ==> c in s.blocks
    requires InOrder(s0, s, g, defs, refs, done, old_join, {}, b) && b in g.succ
    ensures InOrder(s0, WithParams(s, join, ps, next), g, defs[join := defs[join] + Elems(ps)], refs, done + {join},
                    join, g.Preds(join), b)
  {
    var s', defs' := WithParams(s, join, ps, next), defs[join := defs[join] + Elems(ps)];
    ParamsWiden(s, g, join, ps, next);
    BlockWidens(s, s', g, b);
    forall k | 0 <= k < |s'.blocks[b].term.Calls()|
        && !(b in g.Preds(join) && s'.blocks[b].term.Calls()[k].block == join)
      ensures CallOk(s', g, g.succ.Keys, b, k)
    {
      CallTarget(s0, s, g, b, k);
      CallWidens(s, s', g, b, k);
    }
    DefinedWiden(s.blocks[b], s'.blocks[b], defs[b]);
    if b != g.entry { RefsWiden(g, defs, defs', refs[b], b); }
  }

  /** Distinct values numbered from `n` up to `next`. */
  ghost predicate FreshFrom(ps: seq<TypedValue>, n: Value, next: Value) {
    n <= next && DistinctValues(ps) && forall tv :: tv in ps ==> n <= tv.value < next
  }

  lemma AddParams(s0: Code, s: Code, s': Code, g: Cfg, defs: Defs, defs': Defs, refs: Defs, done: set<Block>,
                  old_join: Block, join: Block, ps: seq<TypedValue>, next: Value, left: set<Block>)
    requires HasGraph(s0, g) && g.Valid() && join in g.succ && join in s.blocks && join in defs && left == g.Preds(join)
    requires SecondPass(s0, s, g, defs, refs, done, old_join, {})
    requires s' == WithParams(s, join, ps, next) && defs' == defs[join := defs[join] + Elems(ps)]
    requires FreshFrom(ps, s.nextValue, next)
    ensures SecondPass(s0, s', g, defs', refs, done + {join}, join, left)
  {
    var done' := done + {join};
    UniqueParams(s, s', g.succ.Keys, join, ps);
    forall b | b in g.succ
      ensures InOrder(s0, s', g, defs', refs, done', join, left, b)
    {
      assert InOrder(s0, s, g, defs, refs, done, old_join, {}, b);
      ParamsInOrder(s0, s, g, defs, refs, done, old_join, join, ps, next, b);
    }
    ParamsKeys(s, defs, join, ps, next);
  }

  lemma ParamsKeys(s: Code, defs: Defs, join: Block, ps: seq<TypedValue>, next: Value)
    requires join in s.blocks && join in defs
    ensures WithParams(s, join, ps, next).blocks.Keys == s.blocks.Keys
    ensures defs[join := defs[join] + Elems(ps)].Keys == defs.Keys
    ensures forall c :: c in defs ==> defs[c] <= defs[join := defs[join] + Elems(ps)][c]
  {
  }

  // ----- step 2: the arguments of one predecessor -----

  /** `s` with the branch of `p` replaced. */
  function WithTerm(s: Code, p: Block, t: Terminator): Code
    requires p in s.blocks
  {
    s.(blocks := s.blocks[p := s.blocks[p].(term := t)])
  }

  lemma TermWidens(s: Code, g: Cfg, p: Block, t: Terminator)
    requires p in s.blocks && forall c :: c in g.succ ==> c in s.blocks
    ensures AllWidened(s, WithTerm(s, p, t), g)
  {
  }

  /** The arguments fit the parameters of `join`. */
  ghost predicate ArgsFit(s: Code, g: Cfg, p: Block, join: Block, args: seq<Value>) {
    p in s.blocks && join in s.blocks && ArgsOk(Outer(s, g, g.succ.Keys, p), s.blocks[p], args, s.blocks[join].params)
  }

  lemma NewArgsOk(s: Code, g: Cfg, p: Block, join: Block, args: seq<Value>, k: nat)
    requires p in g.succ && p in s.blocks && forall c :: c in g.succ ==> c in s.blocks
    requires ArgsFit(s, g, p, join, args) && k < |s.blocks[p].term.Calls()| && s.blocks[p].term.Calls()[k].block == join
    ensures var s' := WithTerm(s, p, WithArgs(s.blocks[p].term, join, args));
            k < |s'.blocks[p].term.Calls()| && CallOk(s', g, g.succ.Keys, p, k)
  {
    var s' := WithTerm(s, p, WithArgs(s.blocks[p].term, join, args));
    WithArgsCalls(s.blocks[p].term, join, args);
    TermWidens(s, g, p, WithArgs(s.blocks[p].term, join, args));
    OuterWidens(s, s', g, g.succ.Keys, g.succ.Keys, p);
    ArgsWiden(Outer(s, g, g.succ.Keys, p), Outer(s', g, g.succ.Keys, p), s.blocks[p], s'.blocks[p], args,
              s.blocks[join].params);
  }

  lemma ArgsInOrder(s0: Code, s: Code, g: Cfg, defs: Defs, refs: Defs, done: set<Block>, join: Block, left: set<Block>,
                    p: Block, args: seq<Value>, b: Block)
    requires p in g.succ && p in s.blocks && b in g.succ && forall c :: c in g.succ ==> c in s.blocks
    requires ArgsFit(s, g, p, join, args) && InOrder(s0, s, g, defs, refs, done, join, left, b)
    ensures InOrder(s0, WithTerm(s, p, WithArgs(s.blocks[p].term, join, args)), g, defs, refs, done, join, left - {p},
                    b)
  {
    var t := s.blocks[p].term;
    var s' := WithTerm(s, p, WithArgs(t, join, args));
    WithArgsCalls(t, join, args);
    TermWidens(s, g, p, WithArgs(t, join, args));
    BlockWidens(s, s', g, b);
    forall k | 0 <= k < |s'.blocks[b].term.Calls()| && !(b in left - {p} && s'.blocks[b].term.Calls()[k].block == join)
      ensures CallOk(s', g, g.succ.Keys, b, k)
    {
      if b == p && t.Calls()[k].block == join {
        NewArgsOk(s, g, p, join, args, k);
      } else {
        CallWidens(s, s', g, b, k);
      }
    }
    DefinedWiden(s.blocks[b], s'.blocks[b], defs[b]);
  }

  lemma AddArgs(s0: Code, s: Code, g: Cfg, defs: Defs, refs: Defs, done: set<Block>, join: Block, left: set<Block>,
                p: Block, args: seq<Value>)
    requires p in g.succ && SecondPass(s0, s, g, defs, refs, done, join, left) && ArgsFit(s, g, p, join, args)
    ensures SecondPass(s0, WithTerm(s, p, WithArgs(s.blocks[p].term, join, args)), g, defs, refs, done, join,
                       left - {p})
  {
    var t := WithArgs(s.blocks[p].term, join, args);
    UniqueSame(s, WithTerm(s, p, t), g.succ.Keys, p, s.blocks[p].(term := t));
    forall b | b in g.succ
      ensures InOrder(s0, WithTerm(s, p, WithArgs(s.blocks[p].term, join, args)), g, defs, refs, done, join, left - {p},
                      b)
    {
      assert InOrder(s0, s, g, defs, refs, done, join, left, b);
      ArgsInOrder(s0, s, g, defs, refs, done, join, left, p, args, b);
    }
  }

  /** Why the lookups for a join's arguments succeed: the type of a value used in the
      join is offered by a strict dominator, which dominates each predecessor too. */
  lemma JoinOffers(g: Cfg, dom: Table, defs: Defs, refs: set<TypedValue>, join: Block, p: Block, ty: Type)
    requires g.Valid() && dom == DominatorTable(g) && g.Edge(p, join)
    requires RefsInherited(g, g.succ.Keys, defs, refs, join) && Offers(refs, ty)
    ensures Offers(Pool(dom, defs, p), ty)
  {
    var tv :| tv in refs && tv.ty == ty;
    var c :| c in g.succ.Keys && g.StrictlyDominates(c, join) && c in defs && Offers(defs[c], tv.ty);
    var u :| u in defs[c] && u.ty == ty;
    DominatesPredecessor(g, c, p, join);
    assert u in Pool(dom, defs, p);
  }

  /** Chosen arguments fit the parameters they were chosen for. */
  lemma ChosenFit(s: Code, g: Cfg, dom: Table, defs: Defs, join: Block, p: Block, args: seq<Value>, tys: seq<Type>)
    requires p in g.succ && p in s.blocks && join in s.blocks && dom == DominatorTable(g)
    requires forall c :: c in defs ==> c in g.succ && c in s.blocks && AllDefined(s.blocks[c], defs[c])
    requires Matching(Pool(dom, defs, p), tys, args)
    requires |s.blocks[join].params| == |tys| && forall i :: 0 <= i < |tys| ==> s.blocks[join].params[i].ty == tys[i]
    ensures ArgsFit(s, g, p, join, args)
  {
    PoolScope(s, g, g.succ.Keys, dom, defs, p, s.blocks[p]);
  }

  // ----- step 3: using the new parameters inside the join -----

  ghost predicate Replaced(s: Code, v: Value, v': Value, ps: seq<TypedValue>) {
    v' == v || exists tv :: tv in ps && v' == tv.value && ValueType(s, v) == Some(tv.ty)
  }

  /** Each operand kept, or replaced by one of the parameters of its type in `s`. */
  ghost predicate RewrittenArgs(s: Code, args: seq<Value>, args': seq<Value>, ps: seq<TypedValue>) {
    |args'| == |args| && forall j :: 0 <= j < |args| ==> Replaced(s, args[j], args'[j], ps)
  }

  ghost predicate RewrittenInst(s: Code, i: Inst, i': Inst, ps: seq<TypedValue>) {
    i'.results == i.results && i'.op == i.op && RewrittenArgs(s, i.args, i'.args, ps)
        && (i.op.TouchesMemory() ==> i' == i)
  }

  /** The same branch, perhaps on another condition, or a return of other values. */
  ghost predicate RewrittenTerm(s: Code, t: Terminator, t': Terminator, ps: seq<TypedValue>) {
    && t'.Calls() == t.Calls() && SameBranch(t, t') == !t.Return?
    && (t'.Conditional() <==> t.Conditional())
    && (t'.Conditional() ==> Replaced(s, t.cond, t'.cond, ps))
    && (t'.Return? <==> t.Return?)
    && (t.Return? ==> RewrittenArgs(s, t.values, t'.values, ps))
  }

  ghost predicate RewrittenBlock(s: Code, d: BlockData, d': BlockData, ps: seq<TypedValue>) {
    && d'.params == d.params && |d'.insts| == |d.insts|
    && (forall i :: 0 <= i < |d.insts| ==> RewrittenInst(s, d.insts[i], d'.insts[i], ps))
    && RewrittenTerm(s, d.term, d'.term, ps)
  }

  method RewriteArgs(s: Code, args: seq<Value>, ps: seq<TypedValue>) returns (args': seq<Value>)
    ensures RewrittenArgs(s, args, args', ps)
  {
    args' := args;
    for j := 0 to |args|
      invariant RewrittenArgs(s, args, args', ps)
    {
      var ty := ValueType(s, args[j]);
      for i := 0 to |ps|
        invariant RewrittenArgs(s, args, args', ps)
      {
        var hit: bool := *;
        if hit && ty == Some(ps[i].ty) {
          assert ps[i] in ps;
          args' := args'[j := ps[i].value];
        }
      }
    }
  }

  method RewriteTerm(s: Code, t: Terminator, ps: seq<TypedValue>) returns (t': Terminator)
    ensures RewrittenTerm(s, t, t', ps)
  {
    t' := t;
    match t {
      case Brif(c, a, b) =>
        var cs := RewriteArgs(s, [c], ps);
        t' := Brif(cs[0], a, b);
        assert Replaced(s, [c][0], cs[0], ps);
      case BrTable(c, table) =>
        var cs := RewriteArgs(s, [c], ps);
        t' := BrTable(cs[0], table);
        assert Replaced(s, [c][0], cs[0], ps);
      case Return(values) =>
        var vs := RewriteArgs(s, values, ps);
        t' := Return(vs);
      case _ =>
    }
    assert t'.Dests() == t.Dests();
  }

  /** Visits the instructions after the first, and the terminator if it is not
      itself the first. */
  method RewriteOperands(s: Code, d: BlockData, ps: seq<TypedValue>) returns (d': BlockData)
    ensures RewrittenBlock(s, d, d', ps)
    ensures if d.insts == [] then d' == d else d'.insts[0] == d.insts[0]
  {
    var insts := d.insts;
    var i := 1;
    while i < |d.insts|
      invariant 1 <= i && |insts| == |d.insts|
      invariant forall k :: 0 <= k < |d.insts| ==> RewrittenInst(s, d.insts[k], insts[k], ps)
      invariant insts != [] ==> insts[0] == d.insts[0]
      invariant forall k :: i <= k < |d.insts| ==> insts[k] == d.insts[k]
    {
      if !d.insts[i].op.TouchesMemory() {
        var args := RewriteArgs(s, d.insts[i].args, ps);
        insts := insts[i := d.insts[i].(args := args)];
      }
      i := i + 1;
    }
    var t := d.term;
    if |d.insts| > 0 {
      t := RewriteTerm(s, d.term, ps);
    } else {
      assert t.Dests() == d.term.Dests();
    }
    d' := d.(insts := insts, term := t);
  }

  lemma RewrittenUsable(s: Code, outer: iset<TypedValue>, outer': iset<TypedValue>, d: BlockData, d': BlockData,
                        ps: seq<TypedValue>, n: nat, v: Value, v': Value)
    requires outer <= outer' && Widens(d, d') && n <= |d.insts| && Usable(outer, d, n, v)
    requires forall tv :: tv in ps ==> tv in d'.params || tv in outer'
    requires Replaced(s, v, v', ps)
    ensures Usable(outer', d', n, v')
  {
    if tv :| tv in ps && v' == tv.value {
      assert InScope(outer', d', n, TypedValue(v', tv.ty));
    } else {
      UsableWidens(outer, outer', d, d', n, n, v);
    }
  }

  lemma RewrittenOk(s: Code, outer: iset<TypedValue>, outer': iset<TypedValue>, d: BlockData, d': BlockData,
                    ps: seq<TypedValue>)
    requires outer <= outer' && RewrittenBlock(s, d, d', ps)
    requires forall tv :: tv in ps ==> tv in d.params || tv in outer'
    requires InstsOk(outer, d) && EndOk(outer, d)
    ensures Widens(d, d') && InstsOk(outer', d') && EndOk(outer', d')
  {
    forall j | 0 <= j < |d.insts|
      ensures d'.insts[j].results == d.insts[j].results
    {
      assert RewrittenInst(s, d.insts[j], d'.insts[j], ps);
    }
    forall i | 0 <= i < |d'.insts|
      ensures InstOk(outer', d', i)
    {
      assert InstOk(outer, d, i) && RewrittenInst(s, d.insts[i], d'.insts[i], ps);
      forall v' | v' in d'.insts[i].args
        ensures Usable(outer', d', i, v')
      {
        var j :| 0 <= j < |d'.insts[i].args| && d'.insts[i].args[j] == v';
        assert d.insts[i].args[j] in d.insts[i].args;
        RewrittenUsable(s, outer, outer', d, d', ps, i, d.insts[i].args[j], v');
      }
    }
    if d'.term.Conditional() {
      RewrittenUsable(s, outer, outer', d, d', ps, |d.insts|, d.term.cond, d'.term.cond);
    }
    if d'.term.Return? {
      forall v' | v' in d'.term.values
        ensures Usable(outer', d', |d.insts|, v')
      {
        var j :| 0 <= j < |d'.term.values| && d'.term.values[j] == v';
        assert d.term.values[j] in d.term.values;
        RewrittenUsable(s, outer, outer', d, d', ps, |d.insts|, d.term.values[j], v');
      }
    }
  }

  lemma RewriteInOrder(s0: Code, s: Code, s': Code, g: Cfg, defs: Defs, refs: Defs, done: set<Block>, join: Block,
                       d': BlockData, ps: seq<TypedValue>, b: Block)
    requires join in g.succ && b in g.succ && forall c :: c in g.succ ==> c in s.blocks
    requires s' == WithBlock(s, join, d') && RewrittenBlock(s, s.blocks[join], d', ps)
    requires forall tv :: tv in ps ==> tv in s.blocks[join].params
    requires InOrder(s0, s, g, defs, refs, done, join, {}, join) && InOrder(s0, s, g, defs, refs, done, join, {}, b)
    ensures InOrder(s0, s', g, defs, refs, done, join, {}, b)
  {
    var S := g.succ.Keys;
    RewrittenOk(s, Outer(s, g, S, join), Outer(s, g, S, join), s.blocks[join], d', ps);
    assert AllWidened(s, s', g);
    OuterWidens(s, s', g, S, S, b);
    if b == join {
      RewrittenOk(s, Outer(s, g, S, b), Outer(s', g, S, b), s.blocks[b], d', ps);
    } else {
      BlockWidens(s, s', g, b);
    }
    forall k | 0 <= k < |s'.blocks[b].term.Calls()|
      ensures CallOk(s', g, S, b, k)
    {
      CallWidens(s, s', g, b, k);
    }
    DefinedWiden(s.blocks[b], s'.blocks[b], defs[b]);
  }

  lemma RewriteJoin(s0: Code, s: Code, s': Code, g: Cfg, defs: Defs, refs: Defs, done: set<Block>, join: Block,
                    d': BlockData, ps: seq<TypedValue>)
    requires join in g.succ && join in s.blocks && SecondPass(s0, s, g, defs, refs, done, join, {})
    requires s' == WithBlock(s, join, d') && RewrittenBlock(s, s.blocks[join], d', ps)
    requires forall tv :: tv in ps ==> tv in s.blocks[join].params
    ensures SecondPass(s0, s', g, defs, refs, done, join, {})
  {
    forall b | b in g.succ
      ensures InOrder(s0, s', g, defs, refs, done, join, {}, b)
    {
      assert InOrder(s0, s, g, defs, refs, done, join, {}, b) && InOrder(s0, s, g, defs, refs, done, join, {}, join);
      RewriteInOrder(s0, s, s', g, defs, refs, done, join, d', ps, b);
    }
    assert s'.blocks.Keys == s.blocks.Keys;
    RewrittenDefs(s, s.blocks[join], d', ps);
    UniqueSame(s, s', g.succ.Keys, join, d');
  }

  lemma RewrittenDefs(s: Code, d: BlockData, d': BlockData, ps: seq<TypedValue>)
    requires RewrittenBlock(s, d, d', ps)
    ensures SameDefs(d, d')
  {
    forall i | 0 <= i < |d.insts|
      ensures d'.insts[i].results == d.insts[i].results
    {
      assert RewrittenInst(s, d.insts[i], d'.insts[i], ps);
    }
  }

  // ----- types -----

  /** Guarded replacement keeps types. */
  lemma RewrittenTypes(s: Code, s': Code, vs: seq<Value>, vs': seq<Value>, ps: seq<TypedValue>)
    requires Unique(s, Elements(s.layout)) && RewrittenArgs(s, vs, vs', ps)
    requires (forall v :: TypeKept(s, v, s', v)) && forall tv :: tv in ps ==> HasType(s', tv.value, tv.ty)
    ensures TypesKept(s, vs, s', vs')
  {
    forall j | 0 <= j < |vs|
      ensures TypeKept(s, vs[j], s', vs'[j])
    {
      ReplacedType(s, s', vs[j], vs'[j], ps);
    }
  }

  lemma ReplacedType(s: Code, s': Code, v: Value, v': Value, ps: seq<TypedValue>)
    requires Unique(s, Elements(s.layout)) && Replaced(s, v, v', ps)
    requires TypeKept(s, v, s', v) && forall tv :: tv in ps ==> HasType(s', tv.value, tv.ty)
    ensures TypeKept(s, v, s', v')
  {
    forall ty | HasType(s, v, ty)
      ensures HasType(s', v', ty)
    {
      TypeFound(s, v, ty);
    }
  }

  lemma RewriteKeeps(s: Code, s': Code, b: Block, d: BlockData, ps: seq<TypedValue>)
    requires b in s.layout && b in s.blocks && s' == WithBlock(s, b, d) && RewrittenBlock(s, s.blocks[b], d, ps)
    requires Unique(s, Elements(s.layout)) && forall tv :: tv in ps ==> HasType(s, tv.value, tv.ty)
    ensures KeepsTypes(s, s')
  {
    RewrittenDefs(s, s.blocks[b], d, ps);
    TypesWiden(s, s', b, d);
    forall tv | tv in ps
      ensures HasType(s', tv.value, tv.ty)
    {
      assert TypeKept(s, tv.value, s', tv.value);
    }
    RewriteKeepsBlock(s, s', s.blocks[b], d, ps);
  }

  lemma RewriteKeepsBlock(s: Code, s': Code, d: BlockData, d': BlockData, ps: seq<TypedValue>)
    requires RewrittenBlock(s, d, d', ps) && Unique(s, Elements(s.layout))
    requires (forall v :: TypeKept(s, v, s', v)) && forall tv :: tv in ps ==> HasType(s', tv.value, tv.ty)
    ensures BlockKeeps(s, d, s', d')
  {
    forall i | 0 <= i < |d.insts|
      ensures InstKeeps(s, d.insts[i], s', d'.insts[i])
    {
      assert RewrittenInst(s, d.insts[i], d'.insts[i], ps);
      RewrittenTypes(s, s', d.insts[i].args, d'.insts[i].args, ps);
    }
    if d'.term.Conditional() {
      ReplacedType(s, s', d.term.cond, d'.term.cond, ps);
    }
    if d.term.Return? {
      RewrittenTypes(s, s', d.term.values, d'.term.values, ps);
    }
  }

  lemma ParamsKeep(base: Code, s: Code, join: Block, ps: seq<TypedValue>, next: Value)
    requires KeepsTypes(base, s) && join in s.blocks
    ensures KeepsTypes(base, WithParams(s, join, ps, next))
  {
    var s' := WithParams(s, join, ps, next);
    BlockSwapped(s, s', join, s'.blocks[join]);
    KeepsOn(base, s, s');
  }

  lemma TermKeeps(base: Code, s: Code, p: Block, t: Terminator)
    requires KeepsTypes(base, s) && p in s.blocks && SameEnd(s.blocks[p].term, t) && !s.blocks[p].term.Return?
    ensures KeepsTypes(base, WithTerm(s, p, t))
  {
    BlockSwapped(s, WithTerm(s, p, t), p, s.blocks[p].(term := t));
    KeepsOn(base, s, WithTerm(s, p, t));
  }

  lemma JoinKeeps(base: Code, s0: Code, s: Code, g: Cfg, defs: Defs, refs: Defs, done: set<Block>, join: Block,
                  d: BlockData, ps: seq<TypedValue>)
    requires HasGraph(s0, g) && SecondPass(s0, s, g, defs, refs, done, join, {}) && KeepsTypes(base, s)
    requires join in g.succ && join in s.blocks && s.blocks[join].params == ps
             && RewrittenBlock(s, s.blocks[join], d, ps)
    ensures KeepsTypes(base, WithBlock(s, join, d))
  {
    assert Elements(s.layout) == g.succ.Keys;
    forall tv | tv in ps
      ensures HasType(s, tv.value, tv.ty)
    {
      assert Defines(s.blocks[join], tv);
    }
    RewriteKeeps(s, WithBlock(s, join, d), join, d, ps);
    KeepsOn(base, s, WithBlock(s, join, d));
  }

  // ----- the pass -----

  /** No block's parameters differ, but perhaps those of `b`. */
  ghost predicate ParamsBut(m: map<Block, BlockData>, m': map<Block, BlockData>, b: Block) {
    forall c :: c in m && c != b ==> c in m' && m'[c].params == m[c].params
  }

  ghost predicate SameParams(m: map<Block, BlockData>, m': map<Block, BlockData>) {
    forall c :: c in m ==> c in m' && m'[c].params == m[c].params
  }

  lemma SameParamsOn(m: map<Block, BlockData>, m1: map<Block, BlockData>, m2: map<Block, BlockData>)
    requires SameParams(m, m1) && SameParams(m1, m2)
    ensures SameParams(m, m2)
  {
  }

  lemma ParamsButOn(m: map<Block, BlockData>, m1: map<Block, BlockData>, m2: map<Block, BlockData>, b: Block)
    requires ParamsBut(m, m1, b) && SameParams(m1, m2)
    ensures ParamsBut(m, m2, b)
  {
  }

  lemma SecondPassFacts(s0: Code, s: Code, g: Cfg, defs: Defs, refs: Defs, done: set<Block>, join: Block,
                        left: set<Block>)
    requires SecondPass(s0, s, g, defs, refs, done, join, left)
    ensures forall c :: c in defs ==> c in g.succ && c in s.blocks && AllDefined(s.blocks[c], defs[c])
    ensures forall c :: c in g.succ ==> c in s.blocks && SameBranch(s0.blocks[c].term, s.blocks[c].term)
    ensures forall c :: c in g.succ && c != g.entry && c !in done ==> s.blocks[c].params == []
    ensures forall c :: c in g.succ && c != g.entry ==> RefsInherited(g, g.succ.Keys, defs, refs[c], c)
  {
    forall c | c in g.succ
      ensures c in s.blocks && AllDefined(s.blocks[c], defs[c]) && SameBranch(s0.blocks[c].term, s.blocks[c].term)
      ensures c != g.entry && c !in done ==> s.blocks[c].params == []
      ensures c != g.entry ==> RefsInherited(g, g.succ.Keys, defs, refs[c], c)
    {
      assert InOrder(s0, s, g, defs, refs, done, join, left, c);
    }
  }

  /** The passes leave the flow graph alone. */
  lemma SameGraph(s0: Code, s: Code, g: Cfg)
    requires HasGraph(s0, g) && s.layout == s0.layout && s.blocks.Keys == s0.blocks.Keys
    requires forall c :: c in g.succ ==>
               c in s.blocks && c in s0.blocks && SameBranch(s0.blocks[c].term, s.blocks[c].term)
    ensures s.layout != [] && s.Graph() == g
  {
    forall b | b in s.layout
      ensures g.succ[b] == s.blocks[b].term.Targets()
    {
      assert SameBranch(s0.blocks[b].term, s.blocks[b].term);
    }
    assert HasGraph(s, g);
    GraphUnique(s, g);
  }

  lemma PredecessorBranch(s0: Code, s: Code, g: Cfg, exit: Block, p: Block, join: Block)
    requires Wired(s0, exit) && HasGraph(s0, g) && g.Edge(p, join) && p in s.blocks
    requires SameBranch(s0.blocks[p].term, s.blocks[p].term)
    ensures s.blocks[p].term.Shaped() && join in s.blocks[p].term.Dests()
  {
    assert OPEN.term.Targets() == {};
    assert join in s0.blocks[p].term.Targets();
  }

  /** The arguments one predecessor passes to a join. */
  method UpdateBranch(f: Func, p: Block, join: Block, dom: Table, defs: Defs, tys: seq<Type>,
                      ghost s0: Code, ghost g: Cfg, ghost refs: Defs, ghost done: set<Block>, ghost left: set<Block>,
                      ghost base: Code)
    requires p in g.succ && join in g.succ && dom == DominatorTable(g)
    requires SecondPass(s0, f.State(), g, defs, refs, done, join, left)
    requires p in f.blocks && join in f.blocks && f.blocks[p].term.Shaped() && join in f.blocks[p].term.Dests()
    requires forall ty :: ty in tys ==> Offers(Pool(dom, defs, p), ty)
    requires |f.blocks[join].params| == |tys| && forall i :: 0 <= i < |tys| ==> f.blocks[join].params[i].ty == tys[i]
    requires KeepsTypes(base, f.State())
    modifies f`blocks
    ensures KeepsTypes(base, f.State())
    ensures SecondPass(s0, f.State(), g, defs, refs, done, join, left - {p})
    ensures SameParams(old(f.blocks), f.blocks)
  {
    ghost var s := f.State();
    SecondPassFacts(s0, s, g, defs, refs, done, join, left);
    var t;
    ghost var args;
    t, args := BranchWithArgs(f.blocks[p].term, join, Pool(dom, defs, p), tys);
    ChosenFit(s, g, dom, defs, join, p, args, tys);
    BranchKinds(f.blocks[p].term, join, args);
    TermKeeps(base, s, p, t);
    AddArgs(s0, s, g, defs, refs, done, join, left, p, args);
    f.SetBlock(p, f.blocks[p].(term := t));
  }

  /** The predecessors from `i` on. */
  ghost function Remaining(preds: seq<Block>, i: nat): set<Block>
    requires i <= |preds|
  {
    Elements(preds) - Elements(preds[..i])
  }

  lemma RemainingStep(preds: seq<Block>, i: nat)
    requires i < |preds|
    ensures Remaining(preds, i) - {preds[i]} == Remaining(preds, i + 1)
  {
    assert preds[..i + 1] == preds[..i] + [preds[i]];
  }

  /** The types and offers that the arguments for a join depend on. */
  ghost predicate Suits(params: seq<TypedValue>, dom: Table, defs: Defs, preds: seq<Block>, tys: seq<Type>) {
    && |params| == |tys| && (forall i :: 0 <= i < |tys| ==> params[i].ty == tys[i])
    && (forall p :: p in preds ==> p in dom)
    && (forall p, ty :: p in preds && ty in tys ==> Offers(Pool(dom, defs, p), ty))
  }

  method UpdateNextPredecessor(f: Func, preds: seq<Block>, i: nat, join: Block, dom: Table, defs: Defs, tys: seq<Type>,
                               ghost s0: Code, ghost g: Cfg, ghost exit: Block, ghost refs: Defs,
                               ghost done: set<Block>, ghost base: Code)
    requires Wired(s0, exit) && HasGraph(s0, g) && join in g.succ && dom == DominatorTable(g)
    requires i < |preds| && Elements(preds) == g.Preds(join)
    requires SecondPass(s0, f.State(), g, defs, refs, done, join, Remaining(preds, i))
    requires join in f.blocks && Suits(f.blocks[join].params, dom, defs, preds, tys)
    requires KeepsTypes(base, f.State())
    modifies f`blocks
    ensures KeepsTypes(base, f.State())
    ensures SecondPass(s0, f.State(), g, defs, refs, done, join, Remaining(preds, i + 1))
    ensures SameParams(old(f.blocks), f.blocks)
  {
    var p := preds[i];
    assert p in Elements(preds);
    SecondPassFacts(s0, f.State(), g, defs, refs, done, join, Remaining(preds, i));
    PredecessorBranch(s0, f.State(), g, exit, p, join);
    RemainingStep(preds, i);
    UpdateBranch(f, p, join, dom, defs, tys, s0, g, refs, done, Remaining(preds, i), base);
  }

  method UpdatePredecessors(f: Func, preds: seq<Block>, join: Block, dom: Table, defs: Defs, tys: seq<Type>,
                            ghost s0: Code, ghost g: Cfg, ghost exit: Block, ghost refs: Defs, ghost done: set<Block>,
                            ghost base: Code)
    requires Wired(s0, exit) && HasGraph(s0, g) && join in g.succ && dom == DominatorTable(g)
    requires Elements(preds) == g.Preds(join)
    requires SecondPass(s0, f.State(), g, defs, refs, done, join, Elements(preds))
    requires join in f.blocks && Suits(f.blocks[join].params, dom, defs, preds, tys)
    requires KeepsTypes(base, f.State())
    modifies f`blocks
    ensures KeepsTypes(base, f.State())
    ensures SecondPass(s0, f.State(), g, defs, refs, done, join, {})
    ensures SameParams(old(f.blocks), f.blocks)
  {
    RemainingEnds(preds);
    for i := 0 to |preds|
      invariant SecondPass(s0, f.State(), g, defs, refs, done, join, Remaining(preds, i))
      invariant SameParams(old(f.blocks), f.blocks) && KeepsTypes(base, f.State())
    {
      ghost var m := f.blocks;
      UpdateNextPredecessor(f, preds, i, join, dom, defs, tys, s0, g, exit, refs, done, base);
      SameParamsOn(old(f.blocks), m, f.blocks);
    }
  }

  lemma RemainingEnds(preds: seq<Block>)
    ensures Remaining(preds, 0) == Elements(preds) && Remaining(preds, |preds|) == {}
  {
    assert preds[..|preds|] == preds;
  }

  /** The types of the values, each once, in any order. */
  method TypeList(vs: set<TypedValue>) returns (tys: seq<Type>)
    ensures forall ty :: ty in tys <==> Offers(vs, ty)
    ensures forall i, j :: 0 <= i < j < |tys| ==> tys[i] != tys[j]
  {
    var rest := set tv | tv in vs :: tv.ty;
    tys := [];
    while rest != {}
      invariant forall ty :: ty in rest || ty in tys <==> Offers(vs, ty)
      invariant forall ty :: ty in tys ==> ty !in rest
      invariant forall i, j :: 0 <= i < j < |tys| ==> tys[i] != tys[j]
      decreases rest
    {
      var ty :| ty in rest;
      tys, rest := tys + [ty], rest - {ty};
    }
  }

  /** The block has one parameter for each type of the values reported for it. */
  ghost predicate OnePerType(ps: seq<TypedValue>, refs: Defs, join: Block) {
    && join in refs && (forall ty :: Offers(refs[join], ty) <==> exists i :: 0 <= i < |ps| && ps[i].ty == ty)
    && forall i, j :: 0 <= i < j < |ps| ==> ps[i].ty != ps[j].ty
  }

  lemma PerType(ps: seq<TypedValue>, tys: seq<Type>, refs: Defs, join: Block)
    requires join in refs && |ps| == |tys| && forall i :: 0 <= i < |tys| ==> ps[i].ty == tys[i]
    requires forall ty :: ty in tys <==> Offers(refs[join], ty)
    requires forall i, j :: 0 <= i < j < |tys| ==> tys[i] != tys[j]
    ensures OnePerType(ps, refs, join)
  {
    forall ty
      ensures Offers(refs[join], ty) <==> exists i :: 0 <= i < |ps| && ps[i].ty == ty
    {
      assert ty in tys <==> exists i :: 0 <= i < |tys| && tys[i] == ty;
    }
  }

  lemma BranchKinds(t: Terminator, join: Block, args: seq<Value>)
    ensures SameEnd(t, WithArgs(t, join, args))
  {
  }

  lemma ParamsSuit(g: Cfg, dom: Table, defs: Defs, join: Block, preds: seq<Block>, tys: seq<Type>, ps: seq<TypedValue>,
                   refs: set<TypedValue>)
    requires g.Valid() && dom == DominatorTable(g) && Elements(preds) == g.Preds(join)
    requires |ps| == |tys| && forall i :: 0 <= i < |tys| ==> ps[i].ty == tys[i]
    requires RefsInherited(g, g.succ.Keys, defs, refs, join) && forall ty :: ty in tys ==> Offers(refs, ty)
    ensures Suits(ps, dom, defs, preds, tys)
  {
    forall p | p in preds
      ensures p in dom && g.Edge(p, join)
    {
      assert p in Elements(preds);
    }
    forall p, ty | p in preds && ty in tys
      ensures Offers(Pool(dom, defs, p), ty)
    {
      JoinOffers(g, dom, defs, refs, join, p, ty);
    }
  }

  lemma JoinSuits(s0: Code, s: Code, g: Cfg, dom: Table, defs: Defs, defs': Defs, refs: Defs,
                  done: set<Block>, last: Block, join: Block, preds: seq<Block>, ps: seq<TypedValue>, tys: seq<Type>)
    requires g.Valid() && dom == DominatorTable(g) && Elements(preds) == g.Preds(join)
    requires join in g.succ && join != g.entry && join in defs && join in refs
    requires SecondPass(s0, s, g, defs, refs, done, last, {}) && defs' == defs[join := defs[join] + Elems(ps)]
    requires |ps| == |tys| && forall i :: 0 <= i < |tys| ==> ps[i].ty == tys[i]
    requires forall ty :: ty in tys ==> Offers(refs[join], ty)
    ensures Suits(ps, dom, defs', preds, tys)
  {
    SecondPassFacts(s0, s, g, defs, refs, done, last, {});
    RefsWiden(g, defs, defs', refs[join], join);
    ParamsSuit(g, dom, defs', join, preds, tys, ps, refs[join]);
  }

  lemma JoinUntouched(s0: Code, s: Code, g: Cfg, defs: Defs, refs: Defs, done: set<Block>, last: Block, join: Block)
    requires SecondPass(s0, s, g, defs, refs, done, last, {}) && join in g.succ && join != g.entry && join !in done
    ensures join in s.blocks && join in defs && join in refs && s.blocks[join].params == []
  {
    SecondPassFacts(s0, s, g, defs, refs, done, last, {});
  }

  lemma NumberedFresh(n: Value, tys: seq<Type>, next: Value)
    requires next == n + |tys|
    ensures FreshFrom(Numbered(n, tys), n, next)
  {
  }

  /** Fresh parameters of the given types. */
  method AppendJoinParams(f: Func, join: Block, tys: seq<Type>, ghost defs: Defs, ghost refs: Defs,
                          ghost s0: Code, ghost g: Cfg, ghost done: set<Block>, ghost last: Block,
                          ghost base: Code)
    returns (ps: seq<TypedValue>)
    requires HasGraph(s0, g) && g.Valid() && join in g.succ && join in defs && join in f.blocks
             && f.blocks[join].params == []
    requires SecondPass(s0, f.State(), g, defs, refs, done, last, {})
    requires KeepsTypes(base, f.State())
    modifies f`blocks, f`nextValue
    ensures KeepsTypes(base, f.State())
    ensures |ps| == |tys| && forall i :: 0 <= i < |tys| ==> ps[i].ty == tys[i]
    ensures SecondPass(s0, f.State(), g, defs[join := defs[join] + Elems(ps)], refs, done + {join}, join, g.Preds(join))
    ensures join in f.blocks && f.blocks[join].params == ps && ParamsBut(old(f.blocks), f.blocks, join)
  {
    ghost var s := f.State();
    ps := AppendParams(f, join, tys);
    NumberedFresh(s.nextValue, tys, f.nextValue);
    EmptyPlus(ps);
    assert f.State() == WithParams(s, join, ps, f.nextValue);
    ParamsKeep(base, s, join, ps, f.nextValue);
    JoinParamsOnly(s, join, ps, f.nextValue);
    AddParams(s0, s, f.State(), g, defs, defs[join := defs[join] + Elems(ps)], refs, done, last, join, ps, f.nextValue,
              g.Preds(join));
  }

  lemma JoinParamsOnly(s: Code, join: Block, ps: seq<TypedValue>, next: Value)
    requires join in s.blocks
    ensures ParamsBut(s.blocks, WithParams(s, join, ps, next).blocks, join)
  {
  }

  lemma GrowsAt(defs: Defs, b: Block, vs: set<TypedValue>)
    requires b in defs
    ensures forall c :: c in defs ==> defs[c] <= defs[b := defs[b] + vs][c]
  {
  }

  /** Fresh parameters for a join, of the types of the values it uses. */
  method AddJoinParams(f: Func, join: Block, ghost preds: seq<Block>, dom: Table, defs: Defs, refs: Defs,
                       ghost s0: Code, ghost g: Cfg, ghost done: set<Block>, ghost last: Block,
                       ghost base: Code)
    returns (defs': Defs, tys: seq<Type>, ps: seq<TypedValue>)
    requires HasGraph(s0, g) && g.Valid() && dom == DominatorTable(g)
    requires join in g.succ && join != g.entry && join !in done && Elements(preds) == g.Preds(join)
    requires SecondPass(s0, f.State(), g, defs, refs, done, last, {})
    requires KeepsTypes(base, f.State())
    modifies f`blocks, f`nextValue
    ensures KeepsTypes(base, f.State()) && OnePerType(ps, refs, join)
    ensures SecondPass(s0, f.State(), g, defs', refs, done + {join}, join, Elements(preds))
    ensures join in f.blocks && f.blocks[join].params == ps && Suits(ps, dom, defs', preds, tys)
    ensures ParamsBut(old(f.blocks), f.blocks, join)
    ensures forall c :: c in defs ==> c in defs' && defs[c] <= defs'[c]
  {
    ghost var s := f.State();
    JoinUntouched(s0, s, g, defs, refs, done, last, join);
    tys := TypeList(refs[join]);
    ps := AppendJoinParams(f, join, tys, defs, refs, s0, g, done, last, base);
    defs' := defs[join := defs[join] + Elems(ps)];
    JoinSuits(s0, s, g, dom, defs, defs', refs, done, last, join, preds, ps, tys);
    PerType(ps, tys, refs, join);
    GrowsAt(defs, join, Elems(ps));
  }

  lemma EmptyPlus(ps: seq<TypedValue>)
    ensures [] + ps == ps
  {
  }

  /** Uses of the new parameters inside the join. */
  method UseJoinParams(f: Func, join: Block, ps: seq<TypedValue>, ghost defs: Defs, ghost refs: Defs,
                       ghost s0: Code, ghost g: Cfg, ghost done: set<Block>, ghost base: Code)
    requires HasGraph(s0, g) && KeepsTypes(base, f.State())
    requires join in g.succ && join in f.blocks && f.blocks[join].params == ps
    requires SecondPass(s0, f.State(), g, defs, refs, done, join, {})
    modifies f`blocks
    ensures KeepsTypes(base, f.State()) && SameParams(old(f.blocks), f.blocks)
    ensures SecondPass(s0, f.State(), g, defs, refs, done, join, {})
  {
    ghost var s := f.State();
    var d := RewriteOperands(f.State(), f.blocks[join], ps);
    JoinKeeps(base, s0, s, g, defs, refs, done, join, d, ps);
    f.SetBlock(join, d);
    RewriteJoin(s0, s, f.State(), g, defs, refs, done, join, d, ps);
  }

  /** A join: parameters, arguments, and uses of the parameters in the block. */
  method ParameteriseJoin(f: Func, join: Block, preds: seq<Block>, dom: Table, defs: Defs, refs: Defs,
                          ghost s0: Code, ghost g: Cfg, ghost exit: Block, ghost done: set<Block>, ghost last: Block,
                          ghost base: Code)
    returns (defs': Defs)
    requires Wired(s0, exit) && HasGraph(s0, g) && g.Valid() && dom == DominatorTable(g)
    requires join in g.succ && join != g.entry && join !in done && Elements(preds) == g.Preds(join)
    requires SecondPass(s0, f.State(), g, defs, refs, done, last, {})
    requires KeepsTypes(base, f.State())
    modifies f`blocks, f`nextValue
    ensures KeepsTypes(base, f.State()) && join in f.blocks && OnePerType(f.blocks[join].params, refs, join)
    ensures ParamsBut(old(f.blocks), f.blocks, join)
    ensures SecondPass(s0, f.State(), g, defs', refs, done + {join}, join, {})
    ensures forall c :: c in defs ==> c in defs' && defs[c] <= defs'[c]
  {
    var tys, ps;
    defs', tys, ps := AddJoinParams(f, join, preds, dom, defs, refs, s0, g, done, last, base);
    ghost var m := f.blocks;
    UpdatePredecessors(f, preds, join, dom, defs', tys, s0, g, exit, refs, done + {join}, base);
    ghost var m1 := f.blocks;
    UseJoinParams(f, join, ps, defs', refs, s0, g, done + {join}, base);
    SameParamsOn(m, m1, f.blocks);
    ParamsButOn(old(f.blocks), m, f.blocks, join);
  }
}
