/** Filling one block: emitting instructions whose operands are drawn from the
    values recorded for the dominating blocks. */
module Population {
  import opened Graphs
  import opened Dominators
  import opened Ir
  import opened Ssa

  type Defs = map<Block, set<TypedValue>>

  /** What one call of the instruction selector reports. */
  datatype Report = Report(newValue: Option<TypedValue>, used: set<TypedValue>)

  /** The reports of each block. */
  type Logs = map<Block, seq<Report>>

  /** The values recorded for the dominators of `b`. */
  function Pool(dom: Table, defs: Defs, b: Block): set<TypedValue>
    requires b in dom
  {
    set c, tv | c in dom[b] && c in defs && tv in defs[c] :: tv
  }

  predicate Offers(pool: set<TypedValue>, ty: Type) {
    exists tv :: tv in pool && tv.ty == ty
  }

  predicate TypesOffered(refs: set<TypedValue>, pool: set<TypedValue>) {
    forall tv :: tv in refs ==> Offers(pool, tv.ty)
  }

  /** An arbitrary pool value of a type; the lookup needs the pool to offer one. */
  method SelectRandomValue(pool: set<TypedValue>, ty: Type) returns (v: Value)
    requires Offers(pool, ty)
    ensures TypedValue(v, ty) in pool
  {
    var tv :| tv in pool && tv.ty == ty;
    v := tv.value;
  }

  /** Fresh values of the given types. */
  function Numbered(base: Value, tys: seq<Type>): (r: seq<TypedValue>)
    ensures |r| == |tys| && forall i :: 0 <= i < |tys| ==> r[i] == TypedValue(base + i, tys[i])
  {
    seq(|tys|, i requires 0 <= i < |tys| => TypedValue(base + i, tys[i]))
  }

  /** The block as it will be with only the parameters `kept`. */
  function Keeping(d: BlockData, kept: seq<TypedValue>): BlockData {
    d.(params := kept)
  }

  /** Only block `b` has changed from `before`; its instructions are in scope
      without relying on any parameter but `kept`. */
  ghost predicate Filling(outer: iset<TypedValue>, kept: seq<TypedValue>,
                          before: map<Block, BlockData>, blocks: map<Block, BlockData>, b: Block) {
    && b in before && b in blocks && blocks == before[b := blocks[b]]
    && blocks[b].term == before[b].term
    && InstsOk(outer, Keeping(blocks[b], kept))
  }

  /** All the values may be used at the end of the block. */
  ghost predicate AllInScope(outer: iset<TypedValue>, d: BlockData, vs: set<TypedValue>) {
    forall tv :: tv in vs ==> InScope(outer, d, |d.insts|, tv)
  }

  lemma AllWiden(outer: iset<TypedValue>, d: BlockData, d': BlockData, vs: set<TypedValue>)
    requires Widens(d, d') && AllInScope(outer, d, vs)
    ensures AllInScope(outer, d', vs)
  {
    forall tv | tv in vs
      ensures InScope(outer, d', |d'.insts|, tv)
    {
      ScopeWidens(outer, outer, d, d', |d.insts|, |d'.insts|, tv);
    }
  }

  ghost predicate AllDefined(d: BlockData, vs: set<TypedValue>) {
    forall tv :: tv in vs ==> Defines(d, tv)
  }

  lemma DefinedWiden(d: BlockData, d': BlockData, vs: set<TypedValue>)
    requires Widens(d, d') && AllDefined(d, vs)
    ensures AllDefined(d', vs)
  {
    forall tv | tv in vs
      ensures Defines(d', tv)
    {
      ScopeWidens(iset{}, iset{}, d, d', |d.insts|, |d'.insts|, tv);
    }
  }

  predicate DrawnFrom(args: seq<Value>, vs: set<TypedValue>) {
    forall v :: v in args ==> exists tv :: tv in vs && tv.value == v
  }

  lemma DrawnUsable(outer: iset<TypedValue>, d: BlockData, vs: set<TypedValue>, args: seq<Value>)
    requires AllInScope(outer, d, vs) && DrawnFrom(args, vs)
    ensures forall v :: v in args ==> Usable(outer, d, |d.insts|, v)
  {
    forall v | v in args
      ensures Usable(outer, d, |d.insts|, v)
    {
      var tv :| tv in vs && tv.value == v;
      assert InScope(outer, d, |d.insts|, TypedValue(v, tv.ty));
    }
  }

  /** The operations of a block. */
  function Ops(insts: seq<Inst>): (r: seq<Opcode>)
    ensures |r| == |insts| && forall i :: 0 <= i < |insts| ==> r[i] == insts[i].op
  {
    seq(|insts|, i requires 0 <= i < |insts| => insts[i].op)
  }

  lemma OpsAppend(insts: seq<Inst>, inst: Inst)
    ensures Ops(insts + [inst]) == Ops(insts) + [inst.op]
  {
  }

  /** Appends one instruction to a block. */
  method AppendInst(f: Func, b: Block, op: Opcode, args: seq<Value>, tys: seq<Type>) returns (results: seq<TypedValue>)
    requires b in f.blocks
    modifies f`blocks, f`nextValue
    ensures results == Numbered(old(f.nextValue), tys) && f.nextValue == old(f.nextValue) + |tys|
    ensures var d := old(f.blocks)[b];
            f.blocks == old(f.blocks)[b := d.(insts := d.insts + [Inst(op, args, results)])]
  {
    results := Numbered(f.nextValue, tys);
    f.nextValue := f.nextValue + |tys|;
    f.blocks := f.blocks[b := f.blocks[b].(insts := f.blocks[b].insts + [Inst(op, args, results)])];
  }

  /** What appending one instruction with operands in scope achieves. */
  lemma AppendedOk(outer: iset<TypedValue>, kept: seq<TypedValue>, d: BlockData, inst: Inst, vs: set<TypedValue>)
    requires InstsOk(outer, Keeping(d, kept)) && AllInScope(outer, Keeping(d, kept), vs) && DrawnFrom(inst.args, vs)
    ensures var d' := d.(insts := d.insts + [inst]);
            InstsOk(outer, Keeping(d', kept)) && Widens(Keeping(d, kept), Keeping(d', kept))
            && AllInScope(outer, Keeping(d', kept), vs)
            && forall tv :: tv in inst.results ==> Defines(Keeping(d', kept), tv)
  {
    var k := Keeping(d, kept);
    var d' := d.(insts := d.insts + [inst]);
    assert Keeping(d', kept) == k.(insts := k.insts + [inst]);
    DrawnUsable(outer, k, vs, inst.args);
    AppendInstOk(outer, k, inst);
    AllWiden(outer, k, Keeping(d', kept), vs);
    assert d'.insts[|d.insts|] == inst;
  }

  /** Emits an instruction with operands drawn from `avail`. */
  method Emit(f: Func, b: Block, op: Opcode, args: seq<Value>, tys: seq<Type>, avail: set<TypedValue>,
              ghost outer: iset<TypedValue>, ghost kept: seq<TypedValue>, ghost before: map<Block, BlockData>)
    returns (results: seq<TypedValue>)
    requires Filling(outer, kept, before, f.blocks, b) && AllInScope(outer, Keeping(f.blocks[b], kept), avail)
    requires DrawnFrom(args, avail)
    modifies f`blocks, f`nextValue
    ensures |results| == |tys| && forall i :: 0 <= i < |tys| ==> results[i].ty == tys[i]
    ensures Filling(outer, kept, before, f.blocks, b) && f.blocks[b].params == old(f.blocks)[b].params
    ensures Widens(Keeping(old(f.blocks)[b], kept), Keeping(f.blocks[b], kept))
    ensures Ranges(b, Keeping(old(f.blocks)[b], kept), old(f.nextValue), Keeping(f.blocks[b], kept), f.nextValue)
    ensures AllInScope(outer, Keeping(f.blocks[b], kept), avail)
    ensures f.blocks[b].insts == old(f.blocks)[b].insts + [Inst(op, args, results)]
    ensures forall tv :: tv in results ==> Defines(Keeping(f.blocks[b], kept), tv)
  {
    results := AppendInst(f, b, op, args, tys);
    AppendedOk(outer, kept, old(f.blocks)[b], Inst(op, args, results), avail);
    InstRanges(b, Keeping(old(f.blocks)[b], kept), old(f.nextValue), Inst(op, args, results), f.nextValue);
  }

  /** One call of the instruction selector: any number of instructions, each with
      operands from the pool or from what this call has emitted, of which at most
      one result is recorded.  What it reports as used may be its own result, but always
      has a type of the pool. */
  method PopulateBlockInstructions(f: Func, b: Block, pool: set<TypedValue>,
                                   ghost outer: iset<TypedValue>, ghost kept: seq<TypedValue>,
                                   ghost before: map<Block, BlockData>)
    returns (newValue: Option<TypedValue>, refs: set<TypedValue>)
    requires Filling(outer, kept, before, f.blocks, b) && AllInScope(outer, Keeping(f.blocks[b], kept), pool)
    modifies f`blocks, f`nextValue
    ensures Filling(outer, kept, before, f.blocks, b) && f.blocks[b].params == old(f.blocks)[b].params
    ensures Widens(Keeping(old(f.blocks)[b], kept), Keeping(f.blocks[b], kept))
    ensures Ranges(b, Keeping(old(f.blocks)[b], kept), old(f.nextValue), Keeping(f.blocks[b], kept), f.nextValue)
    ensures TypesOffered(refs, pool)
    ensures newValue.Some? ==> Defines(Keeping(f.blocks[b], kept), newValue.value)
  {
    var local: set<TypedValue> := {};
    SameRanges(b, Keeping(f.blocks[b], kept), Keeping(f.blocks[b], kept), f.nextValue);
    var count :| 0 <= count;
    for i := 0 to count
      invariant Filling(outer, kept, before, f.blocks, b) && f.blocks[b].params == old(f.blocks)[b].params
      invariant Widens(Keeping(old(f.blocks)[b], kept), Keeping(f.blocks[b], kept))
      invariant Ranges(b, Keeping(old(f.blocks)[b], kept), old(f.nextValue), Keeping(f.blocks[b], kept), f.nextValue)
      invariant AllInScope(outer, Keeping(f.blocks[b], kept), pool)
      invariant AllDefined(Keeping(f.blocks[b], kept), local)
    {
      var args: seq<Value> := *;
      var tys: seq<Type> := *;
      var op: Opcode := *;
      if !DrawnFrom(args, pool + local) {
        args := [];
      }
      ghost var d, n := Keeping(f.blocks[b], kept), f.nextValue;
      var results := Emit(f, b, op, args, tys, pool + local, outer, kept, before);
      DefinedWiden(d, Keeping(f.blocks[b], kept), local);
      RangesTransitive(b, Keeping(old(f.blocks)[b], kept), old(f.nextValue), d, n, Keeping(f.blocks[b], kept),
                       f.nextValue);
      local := local + set tv | tv in results;
    }
    refs := *;
    refs := set tv | tv in refs && Offers(pool, tv.ty);
    newValue := *;
    if newValue.Some? && newValue.value !in local {
      newValue := None;
    }
  }

  /** Gives a block fresh parameters of the given types. */
  method AppendParams(f: Func, b: Block, tys: seq<Type>) returns (ps: seq<TypedValue>)
    requires b in f.blocks
    modifies f`blocks, f`nextValue
    ensures ps == Numbered(old(f.nextValue), tys) && f.nextValue == old(f.nextValue) + |tys|
    ensures var d := old(f.blocks)[b]; f.blocks == old(f.blocks)[b := d.(params := d.params + ps)]
  {
    ps := [];
    ghost var d, n := f.blocks[b], f.nextValue;
    assert d.params + ps == d.params;
    for i := 0 to |tys|
      invariant ps == Numbered(n, tys[..i]) && f.nextValue == n + i
      invariant f.blocks == old(f.blocks)[b := d.(params := d.params + ps)]
    {
      var tv := TypedValue(f.nextValue, tys[i]);
      f.nextValue := f.nextValue + 1;
      f.blocks := f.blocks[b := f.blocks[b].(params := f.blocks[b].params + [tv])];
      assert d.params + ps + [tv] == d.params + (ps + [tv]);
      ps := ps + [tv];
    }
    assert tys[..|tys|] == tys;
  }

  function ConstantOps(ty: Type): seq<Opcode> {
    if ty == I128 then [Const, Uextend] else [Const]
  }

  /** The operations that make a constant of each listed type but those to skip. */
  function ConstantsOps(tys: seq<Type>, skip: seq<Type>): seq<Opcode> {
    if tys == [] then []
    else
      var last := |tys| - 1;
      ConstantsOps(tys[..last], skip) + if tys[last] in skip then [] else ConstantOps(tys[last])
  }

  /** The operations for the first `i` types have been appended. */
  ghost predicate Emitted(ops: seq<Opcode>, ops': seq<Opcode>, tys: seq<Type>, i: nat, skip: seq<Type>) {
    i <= |tys| && ops' == ops + ConstantsOps(tys[..i], skip)
  }

  lemma EmittedStep(ops: seq<Opcode>, ops1: seq<Opcode>, ops2: seq<Opcode>, tys: seq<Type>, i: nat, skip: seq<Type>)
    requires i < |tys| && Emitted(ops, ops1, tys, i, skip)
    requires ops2 == ops1 + if tys[i] in skip then [] else ConstantOps(tys[i])
    ensures Emitted(ops, ops2, tys, i + 1, skip)
  {
    assert tys[..i + 1][..i] == tys[..i];
  }

  lemma EmittedNone(ops: seq<Opcode>, tys: seq<Type>, skip: seq<Type>)
    ensures Emitted(ops, ops, tys, 0, skip)
  {
  }

  /** The entry block starts with the constants and the stack slots. */
  ghost predicate EntryCode(d: BlockData, params: seq<Type>, config: seq<Type>) {
    Ops(d.insts) == ConstantsOps(config, params) + SlotOps(8)
  }

  lemma EntryOps(d0: BlockData, d1: BlockData, d2: BlockData, params: seq<Type>, config: seq<Type>)
    requires d0.insts == [] && Emitted(Ops(d0.insts), Ops(d1.insts), config, |config|, params)
    requires Stored(Ops(d1.insts), Ops(d2.insts), 8)
    ensures EntryCode(d2, params, config)
  {
    assert config[..|config|] == config;
  }

  /** The two addresses and so many stores have been appended. */
  ghost predicate Stored(ops: seq<Opcode>, ops': seq<Opcode>, stores: nat) {
    ops' == ops + SlotOps(stores)
  }

  lemma StoredNone(ops: seq<Opcode>)
    ensures Stored(ops, ops + [StackAddr(0)] + [StackAddr(1)], 0)
  {
  }

  lemma StoredMore(ops: seq<Opcode>, ops1: seq<Opcode>, stores: nat)
    requires Stored(ops, ops1, stores)
    ensures Stored(ops, ops1 + [Memory(0)], stores + 1)
  {
    assert SlotOps(stores) + [Memory(0)] == SlotOps(stores + 1);
  }

  /** The operations that fill two stack slots: their addresses and eight stores. */
  function SlotOps(stores: nat): seq<Opcode> {
    [StackAddr(0), StackAddr(1)] + seq(stores, _ => Memory(0))
  }

  /** A constant of one type; a 128-bit one takes two instructions. */
  method EmitConstant(f: Func, b: Block, ty: Type, ghost outer: iset<TypedValue>, ghost kept: seq<TypedValue>,
                      ghost before: map<Block, BlockData>)
    returns (tv: TypedValue)
    requires Filling(outer, kept, before, f.blocks, b)
    modifies f`blocks, f`nextValue
    ensures Filling(outer, kept, before, f.blocks, b) && f.blocks[b].params == old(f.blocks)[b].params
    ensures Widens(Keeping(old(f.blocks)[b], kept), Keeping(f.blocks[b], kept))
    ensures Ranges(b, Keeping(old(f.blocks)[b], kept), old(f.nextValue), Keeping(f.blocks[b], kept), f.nextValue)
    ensures tv.ty == ty && Defines(Keeping(f.blocks[b], kept), tv)
    ensures Ops(f.blocks[b].insts) == Ops(old(f.blocks)[b].insts) + ConstantOps(ty)
  {
    ghost var insts := f.blocks[b].insts;
    if ty == I128 {
      var low := Emit(f, b, Const, [], [I64], {}, outer, kept, before);
      assert low[0] in low;
      ghost var d, n := Keeping(f.blocks[b], kept), f.nextValue;
      OpsAppend(insts, Inst(Const, [], low));
      var wide := Emit(f, b, Uextend, [low[0].value], [I128], {low[0]}, outer, kept, before);
      RangesTransitive(b, Keeping(old(f.blocks)[b], kept), old(f.nextValue), d, n, Keeping(f.blocks[b], kept),
                       f.nextValue);
      OpsAppend(d.insts, Inst(Uextend, [low[0].value], wide));
      tv := wide[0];
    } else {
      var r := Emit(f, b, Const, [], [ty], {}, outer, kept, before);
      OpsAppend(insts, Inst(Const, [], r));
      tv := r[0];
    }
  }

  /** One constant for each listed type that no parameter has. */
  method EmitConstants(f: Func, b: Block, tys: seq<Type>, skip: seq<Type>,
                       ghost outer: iset<TypedValue>, ghost kept: seq<TypedValue>, ghost before: map<Block, BlockData>)
    returns (vs: set<TypedValue>)
    requires Filling(outer, kept, before, f.blocks, b)
    modifies f`blocks, f`nextValue
    ensures Filling(outer, kept, before, f.blocks, b) && f.blocks[b].params == old(f.blocks)[b].params
    ensures Widens(Keeping(old(f.blocks)[b], kept), Keeping(f.blocks[b], kept))
    ensures Ranges(b, Keeping(old(f.blocks)[b], kept), old(f.nextValue), Keeping(f.blocks[b], kept), f.nextValue)
    ensures AllDefined(Keeping(f.blocks[b], kept), vs)
    ensures forall ty :: ty in tys && ty !in skip <==> Offers(vs, ty)
    ensures Emitted(Ops(old(f.blocks)[b].insts), Ops(f.blocks[b].insts), tys, |tys|, skip)
  {
    vs := {};
    ghost var ops := Ops(f.blocks[b].insts);
    EmittedNone(ops, tys, skip);
    SameRanges(b, Keeping(f.blocks[b], kept), Keeping(f.blocks[b], kept), f.nextValue);
    for i := 0 to |tys|
      invariant Filling(outer, kept, before, f.blocks, b) && f.blocks[b].params == old(f.blocks)[b].params
      invariant Widens(Keeping(old(f.blocks)[b], kept), Keeping(f.blocks[b], kept))
      invariant Ranges(b, Keeping(old(f.blocks)[b], kept), old(f.nextValue), Keeping(f.blocks[b], kept), f.nextValue)
      invariant AllDefined(Keeping(f.blocks[b], kept), vs)
      invariant forall k :: 0 <= k < i && tys[k] !in skip ==> Offers(vs, tys[k])
      invariant forall tv :: tv in vs ==> tv.ty in tys && tv.ty !in skip
      invariant Emitted(ops, Ops(f.blocks[b].insts), tys, i, skip)
    {
      ghost var ops1 := Ops(f.blocks[b].insts);
      if tys[i] !in skip {
        ghost var d, n := Keeping(f.blocks[b], kept), f.nextValue;
        var tv := EmitConstant(f, b, tys[i], outer, kept, before);
        DefinedWiden(d, Keeping(f.blocks[b], kept), vs);
        RangesTransitive(b, Keeping(old(f.blocks)[b], kept), old(f.nextValue), d, n, Keeping(f.blocks[b], kept),
                         f.nextValue);
        ghost var was := vs;
        vs := vs + {tv};
        assert tv in vs;
        assert forall ty :: Offers(was, ty) ==> Offers(vs, ty);
      }
      EmittedStep(ops, ops1, Ops(f.blocks[b].insts), tys, i, skip);
    }
  }

  /** Initialises two stack slots with a 64-bit value. */
  method InitStackSlots(f: Func, b: Block, vs: set<TypedValue>,
                        ghost outer: iset<TypedValue>, ghost kept: seq<TypedValue>, ghost before: map<Block, BlockData>)
    requires Filling(outer, kept, before, f.blocks, b) && AllDefined(Keeping(f.blocks[b], kept), vs) && Offers(vs, I64)
    modifies f`blocks, f`nextValue
    ensures Filling(outer, kept, before, f.blocks, b) && f.blocks[b].params == old(f.blocks)[b].params
    ensures Widens(Keeping(old(f.blocks)[b], kept), Keeping(f.blocks[b], kept))
    ensures Ranges(b, Keeping(old(f.blocks)[b], kept), old(f.nextValue), Keeping(f.blocks[b], kept), f.nextValue)
    ensures Stored(Ops(old(f.blocks)[b].insts), Ops(f.blocks[b].insts), 8)
  {
    ghost var d, n := Keeping(f.blocks[b], kept), f.nextValue;
    var v := SelectRandomValue(vs, I64);
    var a0 := Emit(f, b, StackAddr(0), [], [I64], vs, outer, kept, before);
    ghost var d1, n1 := Keeping(f.blocks[b], kept), f.nextValue;
    assert a0[0] in a0;
    OpsAppend(d.insts, Inst(StackAddr(0), [], a0));
    DefinedWiden(d, d1, vs);
    var a1 := Emit(f, b, StackAddr(1), [], [I64], vs + {a0[0]}, outer, kept, before);
    assert a1[0] in a1;
    OpsAppend(d1.insts, Inst(StackAddr(1), [], a1));
    StoredNone(Ops(d.insts));
    DefinedWiden(d1, Keeping(f.blocks[b], kept), vs + {a0[0]});
    RangesTransitive(b, d, n, d1, n1, Keeping(f.blocks[b], kept), f.nextValue);
    var avail := vs + {a0[0], a1[0]};
    for i := 0 to 4
      invariant Filling(outer, kept, before, f.blocks, b) && f.blocks[b].params == old(f.blocks)[b].params
      invariant Widens(d, Keeping(f.blocks[b], kept)) && Ranges(b, d, n, Keeping(f.blocks[b], kept), f.nextValue)
      invariant AllInScope(outer, Keeping(f.blocks[b], kept), avail)
      invariant Stored(Ops(d.insts), Ops(f.blocks[b].insts), 2 * i)
    {
      StoredMore(Ops(d.insts), Ops(f.blocks[b].insts), 2 * i);
      EmitStore(f, b, v, a0[0], avail, outer, kept, before, d, n);
      StoredMore(Ops(d.insts), Ops(f.blocks[b].insts), 2 * i + 1);
      EmitStore(f, b, v, a1[0], avail, outer, kept, before, d, n);
    }
  }

  /** Stores a 64-bit value at an address. */
  method EmitStore(f: Func, b: Block, v: Value, a: TypedValue, avail: set<TypedValue>,
                   ghost outer: iset<TypedValue>, ghost kept: seq<TypedValue>, ghost before: map<Block, BlockData>,
                   ghost d: BlockData, ghost n: Value)
    requires Filling(outer, kept, before, f.blocks, b) && AllInScope(outer, Keeping(f.blocks[b], kept), avail)
    requires TypedValue(v, I64) in avail && a in avail
    requires Widens(d, Keeping(f.blocks[b], kept)) && Ranges(b, d, n, Keeping(f.blocks[b], kept), f.nextValue)
    modifies f`blocks, f`nextValue
    ensures Filling(outer, kept, before, f.blocks, b) && f.blocks[b].params == old(f.blocks)[b].params
    ensures AllInScope(outer, Keeping(f.blocks[b], kept), avail)
    ensures Widens(d, Keeping(f.blocks[b], kept)) && Ranges(b, d, n, Keeping(f.blocks[b], kept), f.nextValue)
    ensures Ops(f.blocks[b].insts) == Ops(old(f.blocks)[b].insts) + [Memory(0)]
  {
    ghost var d1, n1 := Keeping(f.blocks[b], kept), f.nextValue;
    StoreDrawn(avail, v, a);
    var r := Emit(f, b, Memory(0), [v, a.value], [], avail, outer, kept, before);
    OpsAppend(d1.insts, Inst(Memory(0), [v, a.value], r));
    RangesTransitive(b, d, n, d1, n1, Keeping(f.blocks[b], kept), f.nextValue);
  }

  lemma StoreDrawn(avail: set<TypedValue>, v: Value, a: TypedValue)
    requires TypedValue(v, I64) in avail && a in avail
    ensures DrawnFrom([v, a.value], avail)
  {
  }

  /** Whether the values offer every type in `tys`. */
  predicate Covers(vs: set<TypedValue>, tys: set<Type>) {
    forall ty :: ty in tys ==> Offers(vs, ty)
  }

  lemma EmptyRanged(d: BlockData, b: Block, n: Value)
    requires d.params == [] && d.insts == []
    ensures Ranged(d, b, n, n)
  {
    var home := (v: Value) => Site(b, 0);
    assert HomedBlock(d, b, home);
  }

  /** The parameters of the entry block. */
  method AppendEntryParams(f: Func, b: Block, params: seq<Type>) returns (ps: seq<TypedValue>)
    requires b in f.blocks && f.blocks[b].params == [] && f.blocks[b].insts == []
    modifies f`blocks, f`nextValue
    ensures |ps| == |params| && forall i :: 0 <= i < |ps| ==> ps[i].ty == params[i]
    ensures f.blocks == old(f.blocks)[b := old(f.blocks)[b].(params := ps)]
    ensures Ranged(f.blocks[b], b, old(f.nextValue), f.nextValue)
  {
    ghost var d, n := f.blocks[b], f.nextValue;
    ps := AppendParams(f, b, params);
    ParamsRanged(d, b, n, ps, f.nextValue);
  }

  lemma ParamsRanged(d: BlockData, b: Block, n: Value, ps: seq<TypedValue>, n': Value)
    requires d.params == [] && d.insts == []
    requires n' == n + |ps| && forall i :: 0 <= i < |ps| ==> ps[i].value == n + i
    ensures d.(params := d.params + ps) == d.(params := ps) && Ranged(d.(params := ps), b, n, n')
  {
    EmptyRanged(d, b, n);
    ParamRanges(b, d, n, ps, n');
    assert d.params + ps == ps;
  }

  lemma CoversBoth(ps: seq<TypedValue>, consts: set<TypedValue>, vs: set<TypedValue>, params: seq<Type>,
                   config: seq<Type>)
    requires |ps| == |params| && forall i :: 0 <= i < |ps| ==> ps[i].ty == params[i]
    requires vs == (set tv | tv in ps) + consts && forall ty :: ty in config && ty !in params ==> Offers(consts, ty)
    ensures Covers(vs, (set ty | ty in params) + set ty | ty in config)
  {
    forall ty | ty in params || ty in config
      ensures Offers(vs, ty)
    {
      if ty in params {
        var i :| 0 <= i < |params| && params[i] == ty;
        assert ps[i] in vs;
      } else {
        assert Offers(consts, ty);
      }
    }
  }

  lemma ChangedTwice(m: map<Block, BlockData>, m1: map<Block, BlockData>, m2: map<Block, BlockData>, b: Block)
    requires b in m1 && m1 == m[b := m1[b]] && b in m2 && m2 == m1[b := m2[b]]
    ensures m2 == m[b := m2[b]]
  {
  }

  /** The parameters of the block are those of the signature, in order. */
  ghost predicate EntryTyped(m: map<Block, BlockData>, b: Block, params: seq<Type>) {
    && b in m && |m[b].params| == |params|
    && forall i :: 0 <= i < |params| ==> m[b].params[i].ty == params[i]
  }

  /** The entry block: parameters, one constant for every other configured type,
      and the stack slots. */
  method FillEntryConstants(f: Func, b: Block, params: seq<Type>, config: seq<Type>, ghost outer: iset<TypedValue>)
    returns (vs: set<TypedValue>)
    requires b in f.blocks && f.blocks[b].params == [] && f.blocks[b].insts == []
    requires I64 in params || I64 in config
    modifies f`blocks, f`nextValue
    ensures b in f.blocks && f.blocks == old(f.blocks)[b := f.blocks[b]] && f.blocks[b].term == old(f.blocks)[b].term
    ensures InstsOk(outer, f.blocks[b]) && AllDefined(f.blocks[b], vs)
    ensures Covers(vs, (set ty | ty in params) + set ty | ty in config)
    ensures Ranged(f.blocks[b], b, old(f.nextValue), f.nextValue) && EntryTyped(f.blocks, b, params)
    ensures EntryCode(f.blocks[b], params, config)
  {
    var ps := AppendEntryParams(f, b, params);
    ghost var before, kept, n1 := f.blocks, ps, f.nextValue;
    assert Keeping(f.blocks[b], kept) == f.blocks[b];
    var consts := EmitConstants(f, b, config, params, outer, kept, before);
    vs := (set tv | tv in ps) + consts;
    CoversBoth(ps, consts, vs, params, config);
    ghost var d, n := Keeping(f.blocks[b], kept), f.nextValue;
    assert Offers(vs, I64);
    InitStackSlots(f, b, vs, outer, kept, before);
    EntryOps(before[b], d, f.blocks[b], params, config);
    ChangedTwice(old(f.blocks), before, f.blocks, b);
    DefinedWiden(d, Keeping(f.blocks[b], kept), vs);
    RangesTransitive(b, before[b], n1, d, n, Keeping(f.blocks[b], kept), f.nextValue);
    assert Keeping(f.blocks[b], kept) == f.blocks[b];
  }

  /** The values recorded for a block: one from each report that has one. */
  function NewValues(log: seq<Report>): set<TypedValue> {
    set i | 0 <= i < |log| && log[i].newValue.Some? :: log[i].newValue.value
  }

  /** The values reported as used. */
  function UsedValues(log: seq<Report>): set<TypedValue> {
    set i, tv | 0 <= i < |log| && tv in log[i].used :: tv
  }

  lemma LogGrows(log: seq<Report>, r: Report)
    ensures UsedValues(log + [r]) == UsedValues(log) + r.used
    ensures NewValues(log + [r]) == NewValues(log) + if r.newValue.Some? then {r.newValue.value} else {}
  {
    var log' := log + [r];
    forall i | 0 <= i < |log|
      ensures log'[i] == log[i]
    {
    }
    assert log'[|log|] == r;
  }

  /** The twenty calls of the instruction selector for one block. */
  method FillInstructions(f: Func, b: Block, pool: set<TypedValue>,
                          ghost outer: iset<TypedValue>, ghost kept: seq<TypedValue>,
                          ghost before: map<Block, BlockData>)
    returns (vs: set<TypedValue>, refs: set<TypedValue>, ghost log: seq<Report>)
    requires Filling(outer, kept, before, f.blocks, b) && AllInScope(outer, Keeping(f.blocks[b], kept), pool)
    modifies f`blocks, f`nextValue
    ensures Filling(outer, kept, before, f.blocks, b) && f.blocks[b].params == old(f.blocks)[b].params
    ensures Widens(Keeping(old(f.blocks)[b], kept), Keeping(f.blocks[b], kept))
    ensures Ranges(b, Keeping(old(f.blocks)[b], kept), old(f.nextValue), Keeping(f.blocks[b], kept), f.nextValue)
    ensures AllDefined(Keeping(f.blocks[b], kept), vs) && TypesOffered(refs, pool)
    ensures |log| == 20 && vs == NewValues(log) && refs == UsedValues(log)
  {
    vs, refs, log := {}, {}, [];
    SameRanges(b, Keeping(f.blocks[b], kept), Keeping(f.blocks[b], kept), f.nextValue);
    for i := 0 to 20
      invariant Filling(outer, kept, before, f.blocks, b) && f.blocks[b].params == old(f.blocks)[b].params
      invariant Widens(Keeping(old(f.blocks)[b], kept), Keeping(f.blocks[b], kept))
      invariant Ranges(b, Keeping(old(f.blocks)[b], kept), old(f.nextValue), Keeping(f.blocks[b], kept), f.nextValue)
      invariant AllInScope(outer, Keeping(f.blocks[b], kept), pool)
      invariant AllDefined(Keeping(f.blocks[b], kept), vs) && TypesOffered(refs, pool)
      invariant |log| == i && vs == NewValues(log) && refs == UsedValues(log)
    {
      ghost var d, n := Keeping(f.blocks[b], kept), f.nextValue;
      var newValue, used := PopulateBlockInstructions(f, b, pool, outer, kept, before);
      RangesTransitive(b, Keeping(old(f.blocks)[b], kept), old(f.nextValue), d, n, Keeping(f.blocks[b], kept),
                       f.nextValue);
      AllWiden(outer, d, Keeping(f.blocks[b], kept), pool);
      DefinedWiden(d, Keeping(f.blocks[b], kept), vs);
      LogGrows(log, Report(newValue, used));
      log := log + [Report(newValue, used)];
      refs := refs + used;
      if newValue.Some? {
        vs := vs + {newValue.value};
      }
    }
  }
}
