/** Calls to the children in the call graph, inserted into finished functions. */
module Invocations {
  import opened Graphs
  import opened Dominators
  import opened Ir
  import opened Ssa
  import opened Typing
  import opened Population
  import opened BlockFilling
  import opened BlockParameters
  import opened FunctionGenerator

  /** The blocks hold the same operations. */
  ghost predicate SameOps(m: map<Block, BlockData>, m': map<Block, BlockData>) {
    m'.Keys == m.Keys && forall c :: c in m ==> Ops(m'[c].insts) == Ops(m[c].insts)
  }

  lemma RewrittenOps(s: Code, m: map<Block, BlockData>, b: Block, d: BlockData, rs: seq<TypedValue>)
    requires b in m && RewrittenBlock(s, m[b], d, rs)
    ensures SameOps(m, m[b := d])
  {
    forall i | 0 <= i < |d.insts|
      ensures d.insts[i].op == m[b].insts[i].op
    {
      assert RewrittenInst(s, m[b].insts[i], d.insts[i], rs);
    }
    assert Ops(d.insts) == Ops(m[b].insts);
  }

  /** Only the second instruction has changed, where the terminator counts as one. */
  ghost predicate OnlySecond(d: BlockData, d': BlockData) {
    && (d'.term != d.term ==> |d.insts| == 1) && |d'.insts| == |d.insts|
    && forall i :: 0 <= i < |d.insts| && d'.insts[i] != d.insts[i] ==> i == 1
  }

  /** Replaces operands in the second instruction of a block only: the cursor starts
      on the first, and a single step follows. */
  method UseInSecond(s: Code, d: BlockData, rs: seq<TypedValue>) returns (d': BlockData)
    ensures RewrittenBlock(s, d, d', rs) && OnlySecond(d, d')
  {
    d' := d;
    assert d.term.Dests() == d'.term.Dests();
    if |d.insts| > 1 {
      if !d.insts[1].op.TouchesMemory() {
        var args := RewriteArgs(s, d.insts[1].args, rs);
        d' := d.(insts := d.insts[1 := d.insts[1].(args := args)]);
      }
    } else if |d.insts| == 1 {
      var t := RewriteTerm(s, d.term, rs);
      d' := d.(term := t);
    }
  }

  /** Operand changes in one block, to values that its dominators define. */
  lemma UsesValid(s: Code, s': Code, g: Cfg, dom: Table, defs: Defs, b: Block, d: BlockData, rs: seq<TypedValue>)
    requires Populated(s, g, dom, defs) && b in s.layout && s' == WithBlock(s, b, d)
    requires RewrittenBlock(s, s.blocks[b], d, rs)
    requires forall tv :: tv in rs ==> tv in Outer(s, g, Elements(s.layout), b)
    ensures Populated(s', g, dom, defs)
  {
    var S := Elements(s.layout);
    assert BlockOk(s, g, S, b);
    RewrittenOk(s, Outer(s, g, S, b), Outer(s, g, S, b), s.blocks[b], d, rs);
    BlockReplaced(s, s', g, b, d);
    RewrittenDefs(s, s.blocks[b], d, rs);
    UniqueSame(s, s', g.succ.Keys, b, d);
    BlockRecorded(s, s', g, dom, defs, b, d);
  }

  lemma UsesTerminated(s: Code, b: Block, d: BlockData, rs: seq<TypedValue>)
    requires Terminated(s) && b in s.layout && b in s.blocks && RewrittenBlock(s, s.blocks[b], d, rs)
    ensures Terminated(WithBlock(s, b, d))
  {
  }

  /** The graph and the recorded values do not notice the replacement of a block. */
  lemma BlockRecorded(s: Code, s': Code, g: Cfg, dom: Table, defs: Defs, b: Block, d: BlockData)
    requires Populated(s, g, dom, defs) && b in s.blocks && s'.layout == s.layout && s'.blocks == s.blocks[b := d]
    requires Widens(s.blocks[b], d) && d.term.Calls() == s.blocks[b].term.Calls()
    requires ValidSsa(s', g) && Unique(s', g.succ.Keys)
    ensures Populated(s', g, dom, defs)
  {
    BlockGraph(s, s', g, b, d);
    forall c | c in defs
      ensures c in s'.blocks && AllDefined(s'.blocks[c], defs[c])
    {
      DefinedWiden(s.blocks[c], s'.blocks[c], defs[c]);
    }
  }

  lemma BlockGraph(s: Code, s': Code, g: Cfg, b: Block, d: BlockData)
    requires HasGraph(s, g) && b in s.blocks && s'.layout == s.layout && s'.blocks == s.blocks[b := d]
    requires d.term.Calls() == s.blocks[b].term.Calls()
    ensures HasGraph(s', g)
  {
    assert d.term.Dests() == s.blocks[b].term.Dests();
  }

  /** One more instruction at the end of a block, with recorded operands. */
  lemma CallValid(s: Code, s': Code, g: Cfg, dom: Table, defs: Defs, b: Block, tys: seq<Type>, inst: Inst)
    requires Populated(s, g, dom, defs) && b in s.layout && s'.layout == s.layout
    requires s'.blocks == s.blocks[b := s.blocks[b].(insts := s.blocks[b].insts + [inst])]
    requires Matching(Pool(dom, defs, b), tys, inst.args) && s.nextValue <= s'.nextValue
    requires DistinctValues(inst.results) && forall tv :: tv in inst.results ==> s.nextValue <= tv.value < s'.nextValue
    ensures Populated(s', g, dom, defs)
  {
    var S, d, d' := Elements(s.layout), s.blocks[b], s'.blocks[b];
    assert BlockOk(s, g, S, b);
    PoolScope(s, g, S, dom, defs, b, d);
    MatchingDrawn(Pool(dom, defs, b), tys, inst.args);
    DrawnUsable(Outer(s, g, S, b), d, Pool(dom, defs, b), inst.args);
    AppendInstOk(Outer(s, g, S, b), d, inst);
    EndWidens(Outer(s, g, S, b), Outer(s, g, S, b), d, d');
    BlockReplaced(s, s', g, b, d');
    UniqueInst(s, s', g.succ.Keys, b, inst);
    BlockRecorded(s, s', g, dom, defs, b, d');
  }

  lemma MatchingDrawn(pool: set<TypedValue>, tys: seq<Type>, args: seq<Value>)
    requires Matching(pool, tys, args)
    ensures DrawnFrom(args, pool)
  {
    forall v | v in args
      ensures exists tv :: tv in pool && tv.value == v
    {
      var i :| 0 <= i < |args| && args[i] == v;
      assert TypedValue(args[i], tys[i]) in pool;
    }
  }

  /** Values that an instruction of a strict dominator defines. */
  lemma ResultsInherited(s: Code, g: Cfg, b: Block, j: nat, c: Block, rs: seq<TypedValue>)
    requires b in s.layout && b in s.blocks && j < |s.blocks[b].insts| && g.StrictlyDominates(b, c)
    requires rs == s.blocks[b].insts[j].results
    ensures Inherited(s, g, c, rs)
  {
    forall tv | tv in rs
      ensures Inherits(s, g, Elements(s.layout), c, tv)
    {
      assert Defines(s.blocks[b], tv);
    }
  }

  ghost predicate Inherited(s: Code, g: Cfg, c: Block, rs: seq<TypedValue>) {
    forall tv :: tv in rs ==> tv in Outer(s, g, Elements(s.layout), c)
  }

  /** The other blocks that `b` dominates. */
  function DominatedBlocks(dom: Table, b: Block): set<Block> {
    (set c | c in dom && b in dom[c]) - {b}
  }

  /** They are the blocks strictly dominated. */
  lemma DominatedAre(g: Cfg, b: Block, c: Block)
    requires b in g.succ && c in g.succ
    ensures c in DominatedBlocks(DominatorTable(g), b) <==> g.StrictlyDominates(b, c)
  {
  }

  /** Operands of one block that `b` dominates have become values of `rs`. */
  ghost predicate UsedAt(s: Code, s': Code, dom: Table, b: Block, rs: seq<TypedValue>, c: Block, d: BlockData) {
    && c in DominatedBlocks(dom, b) && c in s.blocks && s' == WithBlock(s, c, d)
    && RewrittenBlock(s, s.blocks[c], d, rs) && OnlySecond(s.blocks[c], d)
  }

  /** The results put to use in some strictly dominated block, if there is one. */
  method UseResults(f: Func, b: Block, rs: seq<TypedValue>, dom: Table) returns (ghost c: Block, ghost d: BlockData)
    requires dom.Keys <= f.blocks.Keys
    modifies f`blocks
    ensures if DominatedBlocks(dom, b) == {} then f.State() == old(f.State())
            else UsedAt(old(f.State()), f.State(), dom, b, rs, c, d)
  {
    var dominated := DominatedBlocks(dom, b);
    c, d := 0, BlockData([], [], NoTerminator);
    if dominated != {} {
      var at :| at in dominated;
      var used := UseInSecond(f.State(), f.blocks[at], rs);
      f.SetBlock(at, used);
      c, d := at, used;
    }
  }

  lemma ResultsBelow(s: Code, g: Cfg, dom: Table, b: Block, c: Block, rs: seq<TypedValue>)
    requires HasGraph(s, g) && dom == DominatorTable(g) && b in s.layout && b in s.blocks && s.blocks[b].insts != []
    requires rs == s.blocks[b].insts[|s.blocks[b].insts| - 1].results && c in DominatedBlocks(dom, b)
    ensures c != b && c in s.layout && c in s.blocks && Inherited(s, g, c, rs)
  {
    assert g.StrictlyDominates(b, c);
    ResultsInherited(s, g, b, |s.blocks[b].insts| - 1, c, rs);
  }

  /** Everything holds after as before, and block `b` and all operations are the
      same. */
  ghost predicate OnlyUses(s: Code, s': Code, g: Cfg, dom: Table, defs: Defs, b: Block) {
    && Populated(s', g, dom, defs) && Terminated(s') && SameOps(s.blocks, s'.blocks)
    && b in s.blocks && b in s'.blocks && s'.blocks[b] == s.blocks[b] && KeepsTypes(s, s')
    && SameParams(s.blocks, s'.blocks)
  }

  lemma UsesTyped(s: Code, s': Code, g: Cfg, dom: Table, defs: Defs, b: Block, rs: seq<TypedValue>, c: Block,
                  d: BlockData)
    requires Populated(s, g, dom, defs) && b in s.layout && b in s.blocks && s.blocks[b].insts != []
    requires rs == s.blocks[b].insts[|s.blocks[b].insts| - 1].results && c in s.layout && c in s.blocks
    requires s' == WithBlock(s, c, d) && RewrittenBlock(s, s.blocks[c], d, rs)
    ensures KeepsTypes(s, s')
  {
    assert Elements(s.layout) == g.succ.Keys;
    forall tv | tv in rs
      ensures HasType(s, tv.value, tv.ty)
    {
      assert Defines(s.blocks[b], TypedValue(tv.value, tv.ty));
    }
    RewriteKeeps(s, s', c, d, rs);
  }

  lemma UsesKept(s: Code, s': Code, g: Cfg, dom: Table, defs: Defs, b: Block, rs: seq<TypedValue>, c: Block,
                 d: BlockData)
    requires Populated(s, g, dom, defs) && Terminated(s) && b in s.layout && b in s.blocks && s.blocks[b].insts != []
    requires rs == s.blocks[b].insts[|s.blocks[b].insts| - 1].results
    requires if DominatedBlocks(dom, b) == {} then s' == s else UsedAt(s, s', dom, b, rs, c, d)
    ensures OnlyUses(s, s', g, dom, defs, b)
  {
    KeepsSelf(s);
    if DominatedBlocks(dom, b) != {} {
      ResultsBelow(s, g, dom, b, c, rs);
      UsesTyped(s, s', g, dom, defs, b, rs, c, d);
      UsesValid(s, s', g, dom, defs, c, d, rs);
      UsesTerminated(s, c, d, rs);
      RewrittenOps(s, s.blocks, c, d, rs);
    }
  }

  /** The call instruction itself, in front of the terminator. */
  method PlaceCall(f: Func, b: Block, callee: nat, args: seq<Value>, sig: (seq<Type>, seq<Type>), dom: Table,
                   defs: Defs, ghost g: Cfg)
    returns (rs: seq<TypedValue>)
    requires Populated(f.State(), g, dom, defs) && Terminated(f.State()) && b in f.layout
    requires b in dom && Matching(Pool(dom, defs, b), sig.0, args)
    modifies f`blocks, f`nextValue
    ensures Populated(f.State(), g, dom, defs) && Terminated(f.State()) && KeepsTypes(old(f.State()), f.State())
    ensures rs == Numbered(old(f.nextValue), sig.1) && b in old(f.blocks)
    ensures CallTyped(f.State(), b, |old(f.blocks)[b].insts|, callee, sig)
    ensures var d := old(f.blocks)[b];
            f.blocks == old(f.blocks)[b := d.(insts := d.insts + [Inst(Call(callee), args, rs)])]
  {
    ghost var s := f.State();
    rs := AppendInst(f, b, Call(callee), args, sig.1);
    CallTypes(s, f.State(), g, dom, defs, b, sig, callee, Inst(Call(callee), args, rs));
    CallPlaced(s, f.State(), g, dom, defs, b, sig.0, Inst(Call(callee), args, rs));
  }

  /** The new instruction has typed operands, and the others keep theirs. */
  lemma CallTypes(s: Code, s': Code, g: Cfg, dom: Table, defs: Defs, b: Block, sig: (seq<Type>, seq<Type>),
                  callee: nat, inst: Inst)
    requires Populated(s, g, dom, defs) && b in dom && b in s.layout && b in s.blocks && s'.layout == s.layout
    requires s'.blocks == s.blocks[b := s.blocks[b].(insts := s.blocks[b].insts + [inst])]
    requires Matching(Pool(dom, defs, b), sig.0, inst.args) && inst.op == Call(callee)
    requires ResultsTyped(inst.results, sig.1)
    ensures KeepsTypes(s, s') && CallTyped(s', b, |s.blocks[b].insts|, callee, sig)
  {
    BlockSwapped(s, s', b, s'.blocks[b]);
    forall i | 0 <= i < |inst.args|
      ensures HasType(s', inst.args[i], sig.0[i])
    {
      PoolTyped(s, g, dom, defs, b, TypedValue(inst.args[i], sig.0[i]));
      assert TypeKept(s, inst.args[i], s', inst.args[i]);
    }
  }

  lemma PoolTyped(s: Code, g: Cfg, dom: Table, defs: Defs, b: Block, tv: TypedValue)
    requires HasGraph(s, g) && Recorded(s, g, defs) && b in dom && tv in Pool(dom, defs, b)
    ensures HasType(s, tv.value, tv.ty)
  {
    var c :| c in dom[b] && c in defs && tv in defs[c];
    assert c in s.layout && Defines(s.blocks[c], TypedValue(tv.value, tv.ty));
  }

  lemma CallPlaced(s: Code, s': Code, g: Cfg, dom: Table, defs: Defs, b: Block, tys: seq<Type>, inst: Inst)
    requires Populated(s, g, dom, defs) && Terminated(s) && b in s.layout && s'.layout == s.layout
    requires s'.blocks == s.blocks[b := s.blocks[b].(insts := s.blocks[b].insts + [inst])]
    requires Matching(Pool(dom, defs, b), tys, inst.args) && s.nextValue <= s'.nextValue
    requires DistinctValues(inst.results) && forall tv :: tv in inst.results ==> s.nextValue <= tv.value < s'.nextValue
    ensures Populated(s', g, dom, defs) && Terminated(s')
  {
    CallValid(s, s', g, dom, defs, b, tys, inst);
  }

  /** What a call amounts to once its results are in use. */
  lemma CallDone(s: Code, called: Code, s': Code, g: Cfg, dom: Table, defs: Defs, b: Block, callee: nat,
                 sig: (seq<Type>, seq<Type>), inst: Inst)
    requires KeepsTypes(s, called) && b in s.blocks && OnlyUses(called, s', g, dom, defs, b)
    requires CallTyped(called, b, |s.blocks[b].insts|, callee, sig) && inst.op == Call(callee)
    requires called.blocks == s.blocks[b := s.blocks[b].(insts := s.blocks[b].insts + [inst])]
    ensures KeepsTypes(s, s') && CallTyped(s', b, |s.blocks[b].insts|, callee, sig)
    ensures SameParams(s.blocks, s'.blocks)
    ensures OneCallMore(s.blocks, s'.blocks, b, callee) && s'.blocks[b] == called.blocks[b]
  {
    KeepsOn(s, called, s');
    CallKept(called, s', b, |s.blocks[b].insts|, callee, sig);
    CallCounted(s.blocks, called.blocks, s'.blocks, b, inst, callee);
  }

  /** A call in block `b`, and its results put to use. */
  method CallIn(f: Func, b: Block, callee: nat, args: seq<Value>, sig: (seq<Type>, seq<Type>), dom: Table, defs: Defs,
                ghost g: Cfg)
    requires Populated(f.State(), g, dom, defs) && Terminated(f.State()) && b in f.layout
    requires b in dom && Matching(Pool(dom, defs, b), sig.0, args)
    modifies f`blocks, f`nextValue
    ensures Populated(f.State(), g, dom, defs) && Terminated(f.State()) && KeepsTypes(old(f.State()), f.State())
    ensures b in old(f.blocks) && b in f.blocks && OneCallMore(old(f.blocks), f.blocks, b, callee)
    ensures CallTyped(f.State(), b, |old(f.blocks)[b].insts|, callee, sig) && SameParams(old(f.blocks), f.blocks)
    ensures f.blocks[b].insts == old(f.blocks)[b].insts + [Inst(Call(callee), args,
                                                                Numbered(old(f.nextValue), sig.1))]
  {
    ghost var s := f.State();
    var rs := PlaceCall(f, b, callee, args, sig, dom, defs, g);
    ghost var called := f.State();
    CalledFacts(called, g, dom, defs);
    ghost var c, d := UseResults(f, b, rs, dom);
    UsesKept(called, f.State(), g, dom, defs, b, rs, c, d);
    CallDone(s, called, f.State(), g, dom, defs, b, callee, sig, Inst(Call(callee), args, rs));
  }

  /** Some block has a smaller number. */
  predicate NotLeast(dom: Table, b: Block) {
    b in dom && exists c :: c in dom && c < b
  }

  lemma LaterInOrder(dom: Table, k: nat)
    requires 1 <= k < |Ascending(dom.Keys)|
    ensures NotLeast(dom, Ascending(dom.Keys)[k])
  {
    var all := Ascending(dom.Keys);
    assert all[0] in all && all[k] in all && all[0] < all[k];
  }

  /** One call.  It goes to the end of any block but the one with the least number. */
  method InsertInvocation(f: Func, callee: nat, sig: (seq<Type>, seq<Type>), dom: Table, defs: Defs,
                          ghost g: Cfg, ghost supply: set<Type>)
    returns (b: Block)
    requires g.Valid() && Populated(f.State(), g, dom, defs) && Terminated(f.State()) && |dom.Keys| >= 2
    requires g.entry in defs && Covers(defs[g.entry], supply) && forall ty :: ty in sig.0 ==> ty in supply
    modifies f`blocks, f`nextValue
    ensures Populated(f.State(), g, dom, defs) && Terminated(f.State()) && KeepsTypes(old(f.State()), f.State())
    ensures NotLeast(dom, b) && b in old(f.blocks) && b in f.blocks
            && CallAdded(f.blocks[b], old(f.blocks)[b], callee, Pool(dom, defs, b), sig.0,
                         Numbered(old(f.nextValue), sig.1))
    ensures CallTyped(f.State(), b, |old(f.blocks)[b].insts|, callee, sig)
    ensures OneCallMore(old(f.blocks), f.blocks, b, callee) && SameParams(old(f.blocks), f.blocks)
  {
    var all := Ascending(dom.Keys);
    var k :| 1 <= k < |all|;
    b := all[k];
    LaterInOrder(dom, k);
    PoolCovers(g, dom, defs, b, supply);
    var args := ChooseArgs(Pool(dom, defs, b), sig.0);
    CallIn(f, b, callee, args, sig, dom, defs, g);
  }

  lemma CalledFacts(s: Code, g: Cfg, dom: Table, defs: Defs)
    requires Populated(s, g, dom, defs)
    ensures dom.Keys <= s.blocks.Keys
  {
  }

  /** The call is the only operation added, and nothing else has changed but
      operands. */
  ghost predicate OneCallMore(m: map<Block, BlockData>, m': map<Block, BlockData>, b: Block, callee: nat) {
    && b in m && m'.Keys == m.Keys
    && forall c :: c in m ==> Ops(m'[c].insts) == Ops(m[c].insts) + if c == b then [Call(callee)] else []
  }

  lemma CallCounted(m: map<Block, BlockData>, m1: map<Block, BlockData>, m2: map<Block, BlockData>, b: Block,
                    inst: Inst, callee: nat)
    requires b in m && b in m1 && m1 == m[b := m1[b]] && m1[b].insts == m[b].insts + [inst] && inst.op == Call(callee)
    requires SameOps(m1, m2)
    ensures OneCallMore(m, m2, b, callee)
  {
    assert m1.Keys == m.Keys;
    assert Ops(m1[b].insts) == Ops(m[b].insts) + [Call(callee)];
  }

  /** The calls to the children placed in block `c`, in order. */
  function CallsAt(placed: seq<Block>, c: Block): seq<Opcode> {
    if placed == [] then []
    else CallsAt(placed[..|placed| - 1], c) + if placed[|placed| - 1] == c then [Call(|placed| - 1)] else []
  }

  /** Each child's call is in the block where it was placed, once. */
  ghost predicate CallsMore(m: map<Block, BlockData>, m': map<Block, BlockData>, placed: seq<Block>) {
    m'.Keys == m.Keys && forall c :: c in m ==> Ops(m'[c].insts) == Ops(m[c].insts) + CallsAt(placed, c)
  }

  lemma CallsMoreStep(m: map<Block, BlockData>, m1: map<Block, BlockData>, m2: map<Block, BlockData>,
                      placed: seq<Block>, b: Block)
    requires CallsMore(m, m1, placed) && OneCallMore(m1, m2, b, |placed|)
    ensures CallsMore(m, m2, placed + [b])
  {
    var placed' := placed + [b];
    assert placed'[..|placed|] == placed;
    forall c | c in m
      ensures Ops(m2[c].insts) == Ops(m[c].insts) + CallsAt(placed', c)
    {
      assert Ops(m2[c].insts) == Ops(m1[c].insts) + if c == b then [Call(|placed|)] else [];
    }
  }

  /** `d` is `d0` with a call whose operands have the parameter types. */
  ghost predicate CallAdded(d: BlockData, d0: BlockData, callee: nat, pool: set<TypedValue>, params: seq<Type>,
                            rs: seq<TypedValue>) {
    exists args :: Matching(pool, params, args) && d.insts == d0.insts + [Inst(Call(callee), args, rs)]
  }

  /** The code after so many calls. */
  ghost predicate Inserted(s: Code, g: Cfg, dom: Table, defs: Defs, base: Code, placed: seq<Block>) {
    && Populated(s, g, dom, defs) && Terminated(s) && CallsMore(base.blocks, s.blocks, placed) && KeepsTypes(base, s)
    && SameParams(base.blocks, s.blocks) && forall b :: b in placed ==> NotLeast(dom, b)
  }

  /** The call to each child is at its site, with arguments of the child's parameter types
      and results of its result types. */
  ghost predicate CallsTyped(s: Code, children: seq<(seq<Type>, seq<Type>)>, sites: seq<Site>)
    requires |sites| <= |children|
  {
    forall i :: 0 <= i < |sites| ==> CallTyped(s, sites[i].block, sites[i].pos, i, children[i])
  }

  lemma CallsStayTyped(s: Code, s': Code, children: seq<(seq<Type>, seq<Type>)>, sites: seq<Site>, b: Block, pos: nat)
    requires |sites| < |children| && CallsTyped(s, children, sites) && KeepsTypes(s, s')
    requires CallTyped(s', b, pos, |sites|, children[|sites|])
    ensures CallsTyped(s', children, sites + [Site(b, pos)])
  {
    forall i | 0 <= i < |sites|
      ensures CallTyped(s', sites[i].block, sites[i].pos, i, children[i])
    {
      CallKept(s, s', sites[i].block, sites[i].pos, i, children[i]);
    }
  }

  lemma InsertedMore(s: Code, s': Code, g: Cfg, dom: Table, defs: Defs, base: Code, placed: seq<Block>, b: Block)
    requires Inserted(s, g, dom, defs, base, placed) && OneCallMore(s.blocks, s'.blocks, b, |placed|)
    requires Populated(s', g, dom, defs) && Terminated(s') && KeepsTypes(s, s') && SameParams(s.blocks, s'.blocks)
    requires NotLeast(dom, b)
    ensures Inserted(s', g, dom, defs, base, placed + [b])
  {
    CallsMoreStep(base.blocks, s.blocks, s'.blocks, placed, b);
    KeepsOn(base, s, s');
    SameParamsOn(base.blocks, s.blocks, s'.blocks);
  }

  /** One call for every child in the call graph. */
  method InsertInvocations(f: Func, children: seq<(seq<Type>, seq<Type>)>, dom: Table, defs: Defs,
                           ghost g: Cfg, ghost supply: set<Type>)
    returns (placed: seq<Block>, ghost sites: seq<Site>)
    requires g.Valid() && Populated(f.State(), g, dom, defs) && Terminated(f.State()) && |dom.Keys| >= 2
    requires g.entry in defs && Covers(defs[g.entry], supply)
    requires forall i, ty :: 0 <= i < |children| && ty in children[i].0 ==> ty in supply
    modifies f`blocks, f`nextValue
    ensures Populated(f.State(), g, dom, defs) && Terminated(f.State()) && KeepsTypes(old(f.State()), f.State())
    ensures |placed| == |children| && CallsMore(old(f.blocks), f.blocks, placed)
    ensures SameParams(old(f.blocks), f.blocks) && forall b :: b in placed ==> NotLeast(dom, b)
    ensures |sites| == |children| && CallsTyped(f.State(), children, sites)
  {
    placed, sites := [], [];
    ghost var base := f.State();
    NoCallsYet(base);
    for i := 0 to |children|
      invariant |placed| == i && |sites| == i && Inserted(f.State(), g, dom, defs, base, placed)
      invariant CallsTyped(f.State(), children, sites)
    {
      placed, sites := InsertNext(f, children, placed, sites, dom, defs, g, supply, base);
    }
  }

  method InsertNext(f: Func, children: seq<(seq<Type>, seq<Type>)>, placed: seq<Block>, ghost sites: seq<Site>,
                    dom: Table, defs: Defs, ghost g: Cfg, ghost supply: set<Type>, ghost base: Code)
    returns (placed': seq<Block>, ghost sites': seq<Site>)
    requires g.Valid() && |dom.Keys| >= 2 && Inserted(f.State(), g, dom, defs, base, placed)
    requires |sites| == |placed| < |children| && CallsTyped(f.State(), children, sites)
    requires g.entry in defs && Covers(defs[g.entry], supply)
    requires forall ty :: ty in children[|placed|].0 ==> ty in supply
    modifies f`blocks, f`nextValue
    ensures |placed'| == |placed| + 1 && Inserted(f.State(), g, dom, defs, base, placed')
    ensures |sites'| == |placed'| && CallsTyped(f.State(), children, sites')
  {
    ghost var before := f.State();
    var b := InsertInvocation(f, |placed|, children[|placed|], dom, defs, g, supply);
    InsertedMore(before, f.State(), g, dom, defs, base, placed, b);
    placed' := placed + [b];
    sites' := sites + [Site(b, |before.blocks[b].insts|)];
    CallsStayTyped(before, f.State(), children, sites, b, |before.blocks[b].insts|);
  }

  lemma NoCallsYet(s: Code)
    ensures CallsMore(s.blocks, s.blocks, []) && KeepsTypes(s, s)
  {
  }
}
