/** The generator's first pass: in depth-first preorder, every block of a
    constructed graph gets instructions and, where it branches on one, a
    condition, all drawn from the values of dominating blocks. */
module BlockFilling {
  import opened Graphs
  import opened Dominators
  import opened Regions
  import opened Ir
  import opened RegionBuilders
  import opened CfConstruct
  import opened Preorder
  import opened Ssa
  import opened Typing
  import opened Population

  /** Every value reported as used in `b` has a type that a strict dominator offers. */
  ghost predicate RefsInherited(g: Cfg, S: set<Block>, defs: Defs, refs: set<TypedValue>, b: Block) {
    forall tv :: tv in refs ==> exists c :: c in S && g.StrictlyDominates(c, b) && c in defs && Offers(defs[c], tv.ty)
  }

  /** What the first pass has established of a visited block. */
  ghost predicate Ready(s0: Code, s: Code, g: Cfg, S: set<Block>, defs: Defs, refs: Defs, b: Block) {
    && b in s0.blocks && BlockOk(s, g, S, b)
    && b in defs && b in refs && AllDefined(s.blocks[b], defs[b])
    && s.blocks[b].term.Calls() == s0.blocks[b].term.Calls()
    && (s.blocks[b].term.Shaped() <==> s0.blocks[b].term.Shaped())
    && (s.blocks[b].term.NoTerminator? <==> s0.blocks[b].term.NoTerminator?)
    && (b != g.entry ==> s.blocks[b].params == [] && RefsInherited(g, S, defs, refs[b], b))
  }

  /** The first pass after visiting the blocks `S`. */
  ghost predicate FirstPass(s0: Code, s: Code, g: Cfg, S: set<Block>, defs: Defs, refs: Defs) {
    && s.layout == s0.layout && s.nextBlock == s0.nextBlock && s.blocks.Keys == s0.blocks.Keys
    && defs.Keys == S && refs.Keys == S
    && (forall b :: b in S ==> Ready(s0, s, g, S, defs, refs, b))
    && (forall b :: b in s0.blocks && b !in S ==> s.blocks[b] == s0.blocks[b])
    && Unique(s, S)
  }

  /** A block's recorded dominator values are in scope in it. */
  lemma PoolScope(s: Code, g: Cfg, S: set<Block>, dom: Table, defs: Defs, b: Block, d: BlockData)
    requires b in g.succ && dom == DominatorTable(g)
    requires forall c :: c in defs && c != b ==> c in S && c in s.blocks && AllDefined(s.blocks[c], defs[c])
    requires b in defs ==> AllDefined(d, defs[b])
    ensures AllInScope(Outer(s, g, S, b), d, Pool(dom, defs, b))
  {
    forall tv | tv in Pool(dom, defs, b)
      ensures InScope(Outer(s, g, S, b), d, |d.insts|, tv)
    {
      var c :| c in dom[b] && c in defs && tv in defs[c];
      assert g.Dominates(c, b);
      if c != b {
        assert AllDefined(s.blocks[c], defs[c]);
        assert Inherits(s, g, S, b, tv);
      }
    }
  }

  /** The parameters without the condition, if there is one. */
  function WithoutFirst(params: seq<TypedValue>): seq<TypedValue> {
    if |params| != 0 then params[1..] else params
  }

  /** Replaces the condition of a branch by a pool value and drops the condition
      parameter of its block. */
  method SetCondition(f: Func, b: Block, pool: set<TypedValue>, ghost outer: iset<TypedValue>,
                      ghost kept: seq<TypedValue>)
    requires b in f.blocks && Offers(pool, I32)
    requires AllInScope(outer, Keeping(f.blocks[b], kept), pool)
    requires !f.blocks[b].term.Return?
    requires if f.blocks[b].term.Conditional() then |f.blocks[b].params| <= 1 && kept == []
             else f.blocks[b].params == kept
    modifies f`blocks
    ensures b in f.blocks && f.blocks == old(f.blocks)[b := f.blocks[b]]
    ensures f.blocks[b].params == kept && f.blocks[b].insts == old(f.blocks)[b].insts
    ensures EndOk(outer, f.blocks[b])
    ensures f.blocks[b].term.Conditional() ==> TypedValue(f.blocks[b].term.cond, I32) in pool
    ensures var t, t' := old(f.blocks)[b].term, f.blocks[b].term;
            t'.Calls() == t.Calls() && (t'.Shaped() <==> t.Shaped()) && (t'.NoTerminator? <==> t.NoTerminator?)
  {
    var d := f.blocks[b];
    match d.term {
      case Brif(_, t, e) =>
        var v := SelectRandomValue(pool, I32);
        f.blocks := f.blocks[b := d.(term := Brif(v, t, e), params := WithoutFirst(d.params))];
        SelectedUsable(outer, Keeping(d, kept), f.blocks[b], pool, v);
      case BrTable(_, table) =>
        var v := SelectRandomValue(pool, I32);
        f.blocks := f.blocks[b := d.(term := BrTable(v, table), params := WithoutFirst(d.params))];
        SelectedUsable(outer, Keeping(d, kept), f.blocks[b], pool, v);
      case _ =>
    }
  }

  lemma SelectedUsable(outer: iset<TypedValue>, d: BlockData, d': BlockData, pool: set<TypedValue>, v: Value)
    requires AllInScope(outer, d, pool) && TypedValue(v, I32) in pool
    requires d'.params == d.params && d'.insts == d.insts
    ensures Usable(outer, d', |d'.insts|, v)
  {
    ScopeWidens(outer, outer, d, d', |d.insts|, |d.insts|, TypedValue(v, I32));
  }

  /** The entry's values are offered in every block. */
  lemma PoolCovers(g: Cfg, dom: Table, defs: Defs, b: Block, tys: set<Type>)
    requires g.Valid() && b in g.succ && dom == DominatorTable(g)
    requires g.entry in defs && Covers(defs[g.entry], tys)
    ensures Covers(Pool(dom, defs, b), tys)
  {
    EntryDominatesAll(g, b);
    assert g.entry in dom[b];
    forall ty | ty in tys
      ensures Offers(Pool(dom, defs, b), ty)
    {
      assert Offers(defs[g.entry], ty);
      var tv :| tv in defs[g.entry] && tv.ty == ty;
      assert tv in Pool(dom, defs, b);
    }
  }

  /** A block of the constructed graph before it is filled. */
  ghost predicate Unfilled(d: BlockData) {
    && d.insts == [] && !d.term.Return?
    && (if d.term.Conditional() then |d.params| <= 1 else d.params == [])
  }

  /** The values come from twenty reports: every new value is recorded, and exactly the
      used ones count as used. */
  ghost predicate FromLog(vs: set<TypedValue>, rs: set<TypedValue>, log: seq<Report>) {
    |log| == 20 && NewValues(log) <= vs && rs == UsedValues(log)
  }

  /** What is recorded for every block comes from its reports. */
  ghost predicate Logged(defs: Defs, refs: Defs, logs: Logs) {
    forall b :: b in refs ==> b in defs && b in logs && FromLog(defs[b], refs[b], logs[b])
  }

  lemma LoggedMore(defs: Defs, refs: Defs, logs: Logs, b: Block, vs: set<TypedValue>, rs: set<TypedValue>,
                   log: seq<Report>)
    requires Logged(defs, refs, logs) && FromLog(vs, rs, log)
    ensures Logged(defs[b := vs], refs[b := rs], logs[b := log])
  {
  }

  /** The instructions of one block, and the values recorded for it. */
  method FillBody(f: Func, node: Block, isEntry: bool, params: seq<Type>, config: seq<Type>, dom: Table, defs: Defs,
                  ghost g: Cfg, ghost S: set<Block>)
    returns (vs: set<TypedValue>, rs: set<TypedValue>, ghost kept: seq<TypedValue>, ghost log: seq<Report>)
    requires g.Valid() && node in g.succ && dom == DominatorTable(g) && (isEntry <==> node == g.entry)
    requires node in f.blocks && Unfilled(f.blocks[node]) && node !in S && defs.Keys == S
    requires isEntry ==> f.blocks[node].params == []
    requires forall c :: c in S ==> c in f.blocks && AllDefined(f.blocks[c], defs[c])
    requires I64 in params || I64 in config
    modifies f`blocks, f`nextValue
    ensures node in f.blocks && f.blocks == old(f.blocks)[node := f.blocks[node]]
    ensures f.blocks[node].term == old(f.blocks)[node].term
    ensures InstsOk(Outer(old(f.State()), g, S, node), Keeping(f.blocks[node], kept))
    ensures AllDefined(Keeping(f.blocks[node], kept), vs)
    ensures if node == g.entry then f.blocks[node].params == kept
            else kept == [] && f.blocks[node].params == old(f.blocks)[node].params
    ensures node == g.entry ==> Covers(vs, (set ty | ty in params) + set ty | ty in config)
    ensures node != g.entry ==> TypesOffered(rs, Pool(dom, defs, node))
    ensures Ranged(Keeping(f.blocks[node], kept), node, old(f.nextValue), f.nextValue)
    ensures node == g.entry ==> EntryTyped(f.blocks, node, params)
    ensures FromLog(vs, rs, log)
  {
    ghost var s, outer := f.State(), Outer(f.State(), g, S, node);
    var first := {};
    var recorded := defs;
    assert s.blocks == s.blocks[node := s.blocks[node]];
    if isEntry {
      first := FillEntryConstants(f, node, params, config, outer);
      recorded := defs[node := first];
      kept := f.blocks[node].params;
      assert Keeping(f.blocks[node], kept) == f.blocks[node];
    } else {
      kept := [];
      EmptyRanged(Keeping(f.blocks[node], kept), node, f.nextValue);
    }
    ghost var before := f.blocks;
    var pool := Pool(dom, recorded, node);
    PoolScope(s, g, S, dom, recorded, node, Keeping(f.blocks[node], kept));
    ghost var d := Keeping(f.blocks[node], kept);
    vs, rs, log := FillInstructions(f, node, pool, outer, kept, before);
    DefinedWiden(d, Keeping(f.blocks[node], kept), first);
    ChangedTwice(s.blocks, before, f.blocks, node);
    ghost var later := vs;
    vs := first + vs;
    assert forall ty :: Offers(first, ty) ==> Offers(vs, ty);
  }

  /** A block with no instruction at all. */
  predicate Bare(d: BlockData) {
    d.insts == [] && d.term.NoTerminator?
  }

  /** A block with no instruction at all gets a no-op. */
  method InsertNop(f: Func, b: Block, ghost outer: iset<TypedValue>, ghost kept: seq<TypedValue>)
    requires b in f.blocks && InstsOk(outer, Keeping(f.blocks[b], kept))
    modifies f`blocks, f`nextValue
    ensures b in f.blocks && f.blocks == old(f.blocks)[b := f.blocks[b]]
    ensures f.blocks[b].insts == if Bare(old(f.blocks)[b]) then [Inst(Nop, [], [])] else old(f.blocks)[b].insts
    ensures f.blocks[b].term == old(f.blocks)[b].term && f.blocks[b].params == old(f.blocks)[b].params
    ensures InstsOk(outer, Keeping(f.blocks[b], kept))
            && Widens(Keeping(old(f.blocks)[b], kept), Keeping(f.blocks[b], kept))
    ensures Ranges(b, Keeping(old(f.blocks)[b], kept), old(f.nextValue), Keeping(f.blocks[b], kept), f.nextValue)
  {
    SameRanges(b, Keeping(f.blocks[b], kept), Keeping(f.blocks[b], kept), f.nextValue);
    if Bare(f.blocks[b]) {
      var r := Emit(f, b, Nop, [], [], {}, outer, kept, f.blocks);
    }
  }

  /** The types every block can draw: those of the configuration and of the
      signature's parameters. */
  function Supply(params: seq<Type>, config: seq<Type>): set<Type> {
    (set ty | ty in params) + set ty | ty in config
  }

  /** Strict dominators do not depend on the block itself. */
  lemma OuterFrame(s: Code, s': Code, g: Cfg, S: set<Block>, S': set<Block>, b: Block)
    requires S <= S' && forall c :: c in S && c in s.blocks && c != b ==> c in s'.blocks && s'.blocks[c] == s.blocks[c]
    ensures Outer(s, g, S, b) <= Outer(s', g, S', b)
  {
    OuterWidens(s, s', g, S, S', b);
  }

  /** A block visited before stays as it was. */
  lemma ReadyFrame(s0: Code, s: Code, s': Code, g: Cfg, S: set<Block>, defs: Defs, refs: Defs, defs': Defs, refs': Defs,
                   node: Block, b: Block)
    requires Ready(s0, s, g, S, defs, refs, b) && b in S && node !in S
    requires forall c :: c in S && c in s.blocks ==> c in s'.blocks && s'.blocks[c] == s.blocks[c]
    requires forall c :: c in S && c in defs ==> c in defs' && defs'[c] == defs[c]
    requires b in refs' && refs'[b] == refs[b]
    ensures Ready(s0, s', g, S + {node}, defs', refs', b)
  {
    var d := s.blocks[b];
    OuterFrame(s, s', g, S, S + {node}, b);
    InstsWiden(Outer(s, g, S, b), Outer(s', g, S + {node}, b), d, d);
    EndWidens(Outer(s, g, S, b), Outer(s', g, S + {node}, b), d, d);
    if b != g.entry {
      forall tv | tv in refs[b]
        ensures exists c :: c in S + {node} && g.StrictlyDominates(c, b) && c in defs' && Offers(defs'[c], tv.ty)
      {
        var c :| c in S && g.StrictlyDominates(c, b) && c in defs && Offers(defs[c], tv.ty);
        assert c in S + {node} && c in defs' && Offers(defs'[c], tv.ty);
      }
    }
  }

  /** What filling `node` has to establish. */
  ghost predicate NodeDone(s0: Code, s: Code, s': Code, g: Cfg, S: set<Block>, dom: Table, defs: Defs,
                           vs: set<TypedValue>, rs: set<TypedValue>, node: Block)
    requires node in s0.blocks && node in s'.blocks && node in dom
  {
    var d := s'.blocks[node];
    && InstsOk(Outer(s, g, S, node), d) && EndOk(Outer(s, g, S, node), d)
    && AllDefined(d, vs)
    && d.term.Calls() == s0.blocks[node].term.Calls()
    && (d.term.Shaped() <==> s0.blocks[node].term.Shaped())
    && (d.term.NoTerminator? <==> s0.blocks[node].term.NoTerminator?)
    && (node != g.entry ==> d.params == [] && TypesOffered(rs, Pool(dom, defs, node)))
    && Ranged(d, node, s.nextValue, s'.nextValue)
  }

  lemma NodeReady(s0: Code, s: Code, s': Code, g: Cfg, S: set<Block>, dom: Table, defs: Defs, refs: Defs,
                  vs: set<TypedValue>, rs: set<TypedValue>, node: Block)
    requires node in s0.blocks && node in s'.blocks && node in g.succ && dom == DominatorTable(g)
    requires NodeDone(s0, s, s', g, S, dom, defs, vs, rs, node)
    requires node !in S && defs.Keys == S
    requires forall c :: c in S && c in s.blocks ==> c in s'.blocks && s'.blocks[c] == s.blocks[c]
    ensures Ready(s0, s', g, S + {node}, defs[node := vs], refs[node := rs], node)
  {
    var d := s'.blocks[node];
    OuterFrame(s, s', g, S, S + {node}, node);
    InstsWiden(Outer(s, g, S, node), Outer(s', g, S + {node}, node), d, d);
    EndWidens(Outer(s, g, S, node), Outer(s', g, S + {node}, node), d, d);
    if node != g.entry {
      forall tv | tv in rs
        ensures exists c :: c in S + {node} && g.StrictlyDominates(c, node) && c in defs[node := vs]
                            && Offers(defs[node := vs][c], tv.ty)
      {
        var u :| u in Pool(dom, defs, node) && u.ty == tv.ty;
        var c :| c in dom[node] && c in defs && u in defs[c];
        assert g.Dominates(c, node);
        assert c in S + {node} && c in defs[node := vs] && Offers(defs[node := vs][c], tv.ty);
      }
    }
  }

  lemma FrameExtends(s0: Code, s: Code, s': Code, S: set<Block>, node: Block)
    requires node in s.blocks && node in s'.blocks && s'.blocks == s.blocks[node := s'.blocks[node]]
    requires s.blocks.Keys == s0.blocks.Keys && forall b :: b in s0.blocks && b !in S ==> s.blocks[b] == s0.blocks[b]
    ensures s'.blocks.Keys == s0.blocks.Keys
    ensures forall b :: b in s0.blocks && b !in S + {node} ==> s'.blocks[b] == s0.blocks[b]
    ensures forall b :: b in s.blocks && b != node ==> b in s'.blocks && s'.blocks[b] == s.blocks[b]
  {
  }

  lemma RecordsExtend(defs: Defs, defs': Defs, S: set<Block>, node: Block, vs: set<TypedValue>)
    requires defs.Keys == S && node !in S && defs' == defs[node := vs]
    ensures defs'.Keys == S + {node} && forall c :: c in S ==> c in defs' && c in defs && defs'[c] == defs[c]
  {
  }

  lemma FirstPassExtends(s0: Code, s: Code, s': Code, g: Cfg, S: set<Block>, dom: Table, defs: Defs, refs: Defs,
                         vs: set<TypedValue>, rs: set<TypedValue>, node: Block, defs': Defs, refs': Defs)
    requires FirstPass(s0, s, g, S, defs, refs) && defs' == defs[node := vs] && refs' == refs[node := rs]
    requires node in s0.blocks && node in s.blocks && node in s'.blocks && node in g.succ && dom == DominatorTable(g)
             && node !in S
    requires NodeDone(s, s, s', g, S, dom, defs, vs, rs, node)
    requires s'.layout == s.layout && s'.nextBlock == s.nextBlock && s'.blocks == s.blocks[node := s'.blocks[node]]
    ensures FirstPass(s0, s', g, S + {node}, defs', refs')
  {
    UnvisitedNode(s0, s, g, S, defs, refs, node);
    NodeDoneFrom(s0, s, s', g, S, dom, defs, vs, rs, node);
    FrameExtends(s0, s, s', S, node);
    RecordsExtend(defs, defs', S, node, vs);
    RecordsExtend(refs, refs', S, node, rs);
    NodeReady(s0, s, s', g, S, dom, defs, refs, vs, rs, node);
    UniqueJoins(s, s', S, node);
    forall b | b in S
      ensures Ready(s0, s', g, S + {node}, defs', refs', b)
    {
      assert Ready(s0, s, g, S, defs, refs, b);
      ReadyFrame(s0, s, s', g, S, defs, refs, defs', refs', node, b);
    }
  }

  /** A block that has its instructions has one at least, its branch included. */
  ghost predicate Occupied(d: BlockData) {
    d.insts != [] || !d.term.NoTerminator?
  }

  ghost predicate AllOccupied(m: map<Block, BlockData>, S: set<Block>) {
    forall b :: b in S ==> b in m && Occupied(m[b])
  }

  lemma OneMoreOccupied(m: map<Block, BlockData>, m': map<Block, BlockData>, S: set<Block>, node: Block)
    requires AllOccupied(m, S) && node in m' && m' == m[node := m'[node]] && Occupied(m'[node])
    ensures AllOccupied(m', S + {node})
  {
  }

  /** The no-op and the condition of a block whose instructions are in place. */
  method FinishNode(f: Func, b: Block, pool: set<TypedValue>, ghost vs: set<TypedValue>,
                    ghost outer: iset<TypedValue>, ghost kept: seq<TypedValue>)
    requires b in f.blocks && Offers(pool, I32) && !f.blocks[b].term.Return?
    requires InstsOk(outer, Keeping(f.blocks[b], kept))
    requires AllDefined(Keeping(f.blocks[b], kept), vs) && AllInScope(outer, Keeping(f.blocks[b], kept), pool)
    requires if f.blocks[b].term.Conditional() then |f.blocks[b].params| <= 1 && kept == []
             else f.blocks[b].params == kept
    modifies f`blocks, f`nextValue
    ensures b in f.blocks && f.blocks == old(f.blocks)[b := f.blocks[b]]
    ensures f.blocks[b].params == kept && InstsOk(outer, f.blocks[b]) && EndOk(outer, f.blocks[b])
    ensures AllDefined(f.blocks[b], vs) && Occupied(f.blocks[b])
    ensures f.blocks[b].term.Conditional() ==> TypedValue(f.blocks[b].term.cond, I32) in pool
    ensures var t, t' := old(f.blocks)[b].term, f.blocks[b].term;
            t'.Calls() == t.Calls() && (t'.Shaped() <==> t.Shaped()) && (t'.NoTerminator? <==> t.NoTerminator?)
    ensures Ranges(b, Keeping(old(f.blocks)[b], kept), old(f.nextValue), f.blocks[b], f.nextValue)
  {
    ghost var d, n := Keeping(f.blocks[b], kept), f.nextValue;
    InsertNop(f, b, outer, kept);
    ghost var d1 := Keeping(f.blocks[b], kept);
    DefinedWiden(d, d1, vs);
    AllWiden(outer, d, d1, pool);
    SetCondition(f, b, pool, outer, kept);
    InstsWiden(outer, outer, d1, f.blocks[b]);
    DefinedWiden(d1, f.blocks[b], vs);
    SameRanges(b, d1, f.blocks[b], f.nextValue);
    RangesTransitive(b, d, n, d1, f.nextValue, f.blocks[b], f.nextValue);
  }

  /** The visit of one block in the first pass, seen from the block. */
  method VisitNode(f: Func, node: Block, isEntry: bool, params: seq<Type>, config: seq<Type>, dom: Table, defs: Defs,
                   ghost g: Cfg, ghost S: set<Block>)
    returns (vs: set<TypedValue>, rs: set<TypedValue>, ghost log: seq<Report>)
    requires g.Valid() && node in g.succ && dom == DominatorTable(g) && (isEntry <==> node == g.entry)
    requires node !in S && defs.Keys == S && forall c :: c in S ==> c in f.blocks && AllDefined(f.blocks[c], defs[c])
    requires node in f.blocks && Unfilled(f.blocks[node])
    requires isEntry ==> f.blocks[node].params == [] && !f.blocks[node].term.Conditional()
    requires I64 in Supply(params, config) && I32 in Supply(params, config)
    requires !isEntry ==> g.entry in S && Covers(defs[g.entry], Supply(params, config))
    modifies f`blocks, f`nextValue
    ensures node in f.blocks && f.blocks == old(f.blocks)[node := f.blocks[node]]
    ensures NodeDone(old(f.State()), old(f.State()), f.State(), g, S, dom, defs, vs, rs, node)
    ensures isEntry ==> Covers(vs, Supply(params, config)) && EntryTyped(f.blocks, node, params)
    ensures FromLog(vs, rs, log) && Occupied(f.blocks[node])
    ensures f.blocks[node].term.Conditional() ==>
              TypedValue(f.blocks[node].term.cond, I32) in Pool(dom, defs[node := vs], node)
  {
    ghost var s, outer := f.State(), Outer(f.State(), g, S, node);
    ghost var kept;
    vs, rs, kept, log := FillBody(f, node, isEntry, params, config, dom, defs, g, S);
    ghost var filled := f.blocks;
    var defs' := defs[node := vs];
    PoolScope(s, g, S, dom, defs', node, Keeping(f.blocks[node], kept));
    PoolCovers(g, dom, defs', node, Supply(params, config));
    FinishNode(f, node, Pool(dom, defs', node), vs, outer, kept);
    ChangedTwice(s.blocks, filled, f.blocks, node);
  }

  lemma FirstPassFacts(s0: Code, s: Code, g: Cfg, S: set<Block>, defs: Defs, refs: Defs)
    requires FirstPass(s0, s, g, S, defs, refs)
    ensures defs.Keys == S && forall c :: c in S ==> c in s.blocks && AllDefined(s.blocks[c], defs[c])
  {
    forall c | c in S
      ensures c in s.blocks && AllDefined(s.blocks[c], defs[c])
    {
      assert Ready(s0, s, g, S, defs, refs, c);
    }
  }

  lemma UnvisitedNode(s0: Code, s: Code, g: Cfg, S: set<Block>, defs: Defs, refs: Defs, node: Block)
    requires FirstPass(s0, s, g, S, defs, refs) && node !in S && node in s0.blocks
    ensures node in s.blocks && s.blocks[node] == s0.blocks[node]
  {
  }

  lemma NodeDoneFrom(s0: Code, s: Code, s': Code, g: Cfg, S: set<Block>, dom: Table, defs: Defs,
                     vs: set<TypedValue>, rs: set<TypedValue>, node: Block)
    requires node in s0.blocks && node in s.blocks && node in s'.blocks && node in dom
             && s.blocks[node] == s0.blocks[node]
    requires NodeDone(s, s, s', g, S, dom, defs, vs, rs, node)
    ensures NodeDone(s0, s, s', g, S, dom, defs, vs, rs, node)
  {
  }

  /** The visit of one block in the first pass. */
  method FillNode(f: Func, node: Block, isEntry: bool, params: seq<Type>, config: seq<Type>, dom: Table, defs: Defs,
                  refs: Defs, ghost logs: Logs, ghost s0: Code, ghost g: Cfg, ghost S: set<Block>)
    returns (defs': Defs, refs': Defs, ghost logs': Logs)
    requires g.Valid() && node in g.succ && dom == DominatorTable(g) && (isEntry <==> node == g.entry)
    requires FirstPass(s0, f.State(), g, S, defs, refs) && node !in S
    requires node in s0.blocks && Unfilled(s0.blocks[node])
    requires isEntry ==> s0.blocks[node].params == [] && !s0.blocks[node].term.Conditional()
    requires I64 in Supply(params, config) && I32 in Supply(params, config)
    requires !isEntry ==> g.entry in S && Covers(defs[g.entry], Supply(params, config))
    requires !isEntry ==> EntryTyped(f.blocks, g.entry, params)
    requires CondsRecorded(f.State(), defs) && Logged(defs, refs, logs) && AllOccupied(f.blocks, S)
    modifies f`blocks, f`nextValue
    ensures CondsRecorded(f.State(), defs') && Logged(defs', refs', logs') && EntryTyped(f.blocks, g.entry, params)
    ensures AllOccupied(f.blocks, S + {node})
    ensures FirstPass(s0, f.State(), g, S + {node}, defs', refs')
    ensures g.entry in defs' && Covers(defs'[g.entry], Supply(params, config))
  {
    ghost var s := f.State();
    FirstPassFacts(s0, s, g, S, defs, refs);
    UnvisitedNode(s0, s, g, S, defs, refs, node);
    var vs, rs;
    ghost var log;
    vs, rs, log := VisitNode(f, node, isEntry, params, config, dom, defs, g, S);
    defs', refs', logs' := defs[node := vs], refs[node := rs], logs[node := log];
    LoggedMore(defs, refs, logs, node, vs, rs, log);
    EntryStays(s.blocks, f.blocks, node, g.entry, params);
    OneMoreOccupied(s.blocks, f.blocks, S, node);
    FirstPassExtends(s0, s, f.State(), g, S, dom, defs, refs, vs, rs, node, defs', refs');
    CondsExtend(s, f.State(), dom, defs, vs, node);
    EntryRecorded(g.entry, node, defs, vs, Supply(params, config));
  }

  lemma EntryStays(m: map<Block, BlockData>, m': map<Block, BlockData>, node: Block, entry: Block, params: seq<Type>)
    requires node in m' && m' == m[node := m'[node]]
    requires if node == entry then EntryTyped(m', entry, params) else EntryTyped(m, entry, params)
    ensures EntryTyped(m', entry, params)
  {
  }

  /** Every condition so far is a recorded 32-bit value. */
  ghost predicate CondsRecorded(s: Code, defs: Defs) {
    forall b :: b in defs && b in s.blocks && s.blocks[b].term.Conditional() ==>
        CondRecorded(s.blocks[b].term.cond, defs)
  }

  ghost predicate CondRecorded(v: Value, defs: Defs) {
    exists c :: c in defs && TypedValue(v, I32) in defs[c]
  }

  lemma CondsExtend(s: Code, s': Code, dom: Table, defs: Defs, vs: set<TypedValue>, node: Block)
    requires CondsRecorded(s, defs) && node !in defs && node in s'.blocks
             && s'.blocks == s.blocks[node := s'.blocks[node]]
    requires node in dom
    requires s'.blocks[node].term.Conditional() ==>
               TypedValue(s'.blocks[node].term.cond, I32) in Pool(dom, defs[node := vs], node)
    ensures CondsRecorded(s', defs[node := vs])
  {
    var defs' := defs[node := vs];
    forall b | b in defs' && b in s'.blocks && s'.blocks[b].term.Conditional()
      ensures CondRecorded(s'.blocks[b].term.cond, defs')
    {
      if b == node {
        var c :| c in dom[node] && c in defs' && TypedValue(s'.blocks[node].term.cond, I32) in defs'[c];
      } else {
        var c :| c in defs && TypedValue(s.blocks[b].term.cond, I32) in defs[c];
        assert c in defs' && TypedValue(s.blocks[b].term.cond, I32) in defs'[c];
      }
    }
  }

  lemma EntryRecorded(entry: Block, node: Block, defs: Defs, vs: set<TypedValue>, tys: set<Type>)
    requires if node == entry then Covers(vs, tys) else entry in defs && Covers(defs[entry], tys)
    ensures entry in defs[node := vs] && Covers(defs[node := vs][entry], tys)
  {
  }

  lemma ConstructedUnfilled(s: Code, exit: Block, b: Block)
    requires Wired(s, exit) && b in s.layout
    ensures Unfilled(s.blocks[b])
    ensures b == s.layout[0] ==> s.blocks[b].params == [] && !s.blocks[b].term.Conditional()
  {
  }

  lemma PrefixElements(order: seq<Block>, i: nat)
    requires i < |order| && Distinct(order)
    ensures order[i] !in Elements(order[..i]) && Elements(order[..i + 1]) == Elements(order[..i]) + {order[i]}
    ensures i > 0 ==> order[0] in Elements(order[..i]) && order[i] != order[0]
  {
    assert order[..i + 1] == order[..i] + [order[i]];
    if i > 0 { assert order[0] == order[..i][0]; }
  }

  /** A list of unfilled blocks, the entry first and no other entry in it. */
  ghost predicate Scheduled(s: Code, g: Cfg, order: seq<Block>) {
    && Distinct(order)
    && forall i :: 0 <= i < |order| ==> ScheduledAt(s, g, order, i)
  }

  ghost predicate ScheduledAt(s: Code, g: Cfg, order: seq<Block>, i: nat)
    requires i < |order|
  {
    && order[i] in g.succ && order[i] in s.blocks && Unfilled(s.blocks[order[i]])
    && (i == 0 ==> s.blocks[order[i]].params == [] && !s.blocks[order[i]].term.Conditional())
    && (i == 0 <==> order[i] == g.entry)
  }

  lemma PreorderScheduled(s: Code, g: Cfg, order: seq<Block>, exit: Block)
    requires Wired(s, exit) && HasGraph(s, g) && IsPreorder(g, order)
    ensures Scheduled(s, g, order)
  {
    forall i | 0 <= i < |order|
      ensures ScheduledAt(s, g, order, i)
    {
      assert order[i] in order;
      ReachableInLayout(g, order[i]);
      ConstructedUnfilled(s, exit, order[i]);
    }
  }

  /** One step of the first pass. */
  method FillNext(f: Func, order: seq<Block>, i: nat, params: seq<Type>, config: seq<Type>, dom: Table, defs: Defs,
                  refs: Defs, ghost logs: Logs, ghost s0: Code, ghost g: Cfg)
    returns (defs': Defs, refs': Defs, ghost logs': Logs)
    requires g.Valid() && Scheduled(s0, g, order) && i < |order| && dom == DominatorTable(g)
    requires I64 in Supply(params, config) && I32 in Supply(params, config)
    requires FirstPass(s0, f.State(), g, Elements(order[..i]), defs, refs)
    requires i > 0 ==> g.entry in defs && Covers(defs[g.entry], Supply(params, config))
    requires i > 0 ==> EntryTyped(f.blocks, g.entry, params)
    requires CondsRecorded(f.State(), defs) && Logged(defs, refs, logs) && AllOccupied(f.blocks, Elements(order[..i]))
    modifies f`blocks, f`nextValue
    ensures CondsRecorded(f.State(), defs') && Logged(defs', refs', logs') && EntryTyped(f.blocks, g.entry, params)
    ensures AllOccupied(f.blocks, Elements(order[..i + 1]))
    ensures FirstPass(s0, f.State(), g, Elements(order[..i + 1]), defs', refs')
    ensures g.entry in defs' && Covers(defs'[g.entry], Supply(params, config))
  {
    PrefixElements(order, i);
    assert ScheduledAt(s0, g, order, i) && ScheduledAt(s0, g, order, 0);
    defs', refs', logs' := FillNode(f, order[i], i == 0, params, config, dom, defs, refs, logs, s0, g,
                                    Elements(order[..i]));
  }

  lemma UniqueNone(s: Code)
    ensures Unique(s, {})
  {
    var home := (v: Value) => Site(0, 0);
    assert UniqueBy(s, {}, home);
  }

  lemma FirstPassStart(s: Code, g: Cfg)
    ensures FirstPass(s, s, g, {}, map[], map[])
  {
    UniqueNone(s);
  }

  /** What is recorded is defined, so the conditions have their type. */
  lemma CondsDefined(s0: Code, s: Code, g: Cfg, defs: Defs, refs: Defs)
    requires HasGraph(s0, g) && FirstPass(s0, s, g, g.succ.Keys, defs, refs) && CondsRecorded(s, defs)
    ensures s.Laid() && CondsTyped(s)
  {
    FirstPassFacts(s0, s, g, g.succ.Keys, defs, refs);
    forall b | b in s.layout && b in s.blocks && s.blocks[b].term.Conditional()
      ensures HasType(s, s.blocks[b].term.cond, I32)
    {
      assert b in g.succ.Keys && CondRecorded(s.blocks[b].term.cond, defs);
      var c :| c in defs && TypedValue(s.blocks[b].term.cond, I32) in defs[c];
      assert c in s.layout && Defines(s.blocks[c], TypedValue(s.blocks[b].term.cond, I32));
    }
  }

  lemma OrderEnds(order: seq<Block>)
    ensures Elements(order[..0]) == {} && order[..|order|] == order
  {
  }

  /** The first pass over a list of blocks. */
  method FillBlocks(f: Func, order: seq<Block>, params: seq<Type>, config: seq<Type>, dom: Table, ghost g: Cfg)
    returns (defs: Defs, refs: Defs, ghost logs: Logs)
    requires g.Valid() && Scheduled(f.State(), g, order) && order != [] && dom == DominatorTable(g)
    requires I64 in Supply(params, config) && I32 in Supply(params, config)
    modifies f`blocks, f`nextValue
    ensures FirstPass(old(f.State()), f.State(), g, Elements(order), defs, refs)
    ensures g.entry in defs && Covers(defs[g.entry], Supply(params, config)) && CondsRecorded(f.State(), defs)
    ensures EntryTyped(f.blocks, g.entry, params) && Logged(defs, refs, logs) && AllOccupied(f.blocks, Elements(order))
  {
    ghost var s0 := f.State();
    defs, refs, logs := map[], map[], map[];
    FirstPassStart(s0, g);
    OrderEnds(order);
    for i := 0 to |order|
      invariant FirstPass(s0, f.State(), g, Elements(order[..i]), defs, refs)
      invariant CondsRecorded(f.State(), defs) && Logged(defs, refs, logs)
      invariant AllOccupied(f.blocks, Elements(order[..i]))
      invariant i > 0 ==> g.entry in defs && Covers(defs[g.entry], Supply(params, config))
      invariant i > 0 ==> EntryTyped(f.blocks, g.entry, params)
    {
      defs, refs, logs := FillNext(f, order, i, params, config, dom, defs, refs, logs, s0, g);
    }
  }
}
