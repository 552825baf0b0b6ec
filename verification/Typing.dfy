/** The types of values: looked up in the definitions of a function, and kept by
    everything that changes operands after the fact. */
module Typing {
  import opened Graphs
  import opened Ir
  import opened Ssa

  /** `v` is defined somewhere with type `ty`. */
  ghost predicate HasType(s: Code, v: Value, ty: Type) {
    exists b :: b in s.layout && b in s.blocks && Defines(s.blocks[b], TypedValue(v, ty))
  }

  // ----- looking up a type -----

  function TypeAmong(tvs: seq<TypedValue>, v: Value): (r: Option<Type>)
    ensures r.Some? ==> TypedValue(v, r.value) in tvs
    ensures r.None? ==> forall tv :: tv in tvs ==> tv.value != v
  {
    if tvs == [] then None else if tvs[0].value == v then Some(tvs[0].ty) else TypeAmong(tvs[1..], v)
  }

  function TypeOfResult(insts: seq<Inst>, v: Value): (r: Option<Type>)
    ensures r.Some? ==> exists j :: 0 <= j < |insts| && TypedValue(v, r.value) in insts[j].results
    ensures r.None? ==> forall j, tv :: 0 <= j < |insts| && tv in insts[j].results ==> tv.value != v
  {
    if insts == [] then None
    else
      var last := |insts| - 1;
      var r := TypeAmong(insts[last].results, v);
      if r.Some? then r else TypeOfResult(insts[..last], v)
  }

  function TypeIn(d: BlockData, v: Value): (r: Option<Type>)
    ensures r.Some? ==> Defines(d, TypedValue(v, r.value))
    ensures r.None? ==> forall ty :: !Defines(d, TypedValue(v, ty))
  {
    var r := TypeAmong(d.params, v);
    if r.Some? then r else TypeOfResult(d.insts, v)
  }

  function TypeInBlocks(s: Code, blocks: seq<Block>, v: Value): (r: Option<Type>)
    ensures r.Some? ==> exists b :: b in blocks && b in s.blocks && Defines(s.blocks[b], TypedValue(v, r.value))
    ensures r.None? ==> forall b, ty :: b in blocks && b in s.blocks ==> !Defines(s.blocks[b], TypedValue(v, ty))
  {
    if blocks == [] then None
    else
      var r := if blocks[0] in s.blocks then TypeIn(s.blocks[blocks[0]], v) else None;
      if r.Some? then r else TypeInBlocks(s, blocks[1..], v)
  }

  /** The type of a value, if it is defined. */
  function ValueType(s: Code, v: Value): (r: Option<Type>)
    ensures r.Some? ==> HasType(s, v, r.value)
    ensures r.None? ==> forall ty :: !HasType(s, v, ty)
  {
    TypeInBlocks(s, s.layout, v)
  }

  /** A value defined once in a block has one type there. */
  lemma OneTypeIn(d: BlockData, b: Block, home: Value -> Site, v: Value, ty: Type, ty': Type)
    requires HomedBlock(d, b, home) && Defines(d, TypedValue(v, ty)) && Defines(d, TypedValue(v, ty'))
    ensures ty == ty'
  {
    if home(v).pos == 0 {
      assert TypedValue(v, ty) in d.params && TypedValue(v, ty') in d.params;
    } else {
      assert DistinctValues(d.insts[home(v).pos - 1].results);
    }
  }

  /** The lookup finds the type of any value that is defined once. */
  lemma TypeFound(s: Code, v: Value, ty: Type)
    requires Unique(s, Elements(s.layout)) && HasType(s, v, ty)
    ensures ValueType(s, v) == Some(ty)
  {
    var home: Value -> Site :| UniqueBy(s, Elements(s.layout), home);
    var ty' := ValueType(s, v).value;
    var b := DefiningBlock(s, home, v, ty);
    var c := DefiningBlock(s, home, v, ty');
    OneTypeIn(s.blocks[b], b, home, v, ty, ty');
  }

  lemma DefiningBlock(s: Code, home: Value -> Site, v: Value, ty: Type) returns (b: Block)
    requires UniqueBy(s, Elements(s.layout), home) && HasType(s, v, ty)
    ensures b == home(v).block && b in s.blocks && HomedBlock(s.blocks[b], b, home)
            && Defines(s.blocks[b], TypedValue(v, ty))
  {
    b :| b in s.layout && b in s.blocks && Defines(s.blocks[b], TypedValue(v, ty));
    assert b in Elements(s.layout);
  }

  // ----- keeping types -----

  /** Whatever type `v` has in `s`, `v'` has in `s'`. */
  ghost predicate TypeKept(s: Code, v: Value, s': Code, v': Value) {
    forall ty :: HasType(s, v, ty) ==> HasType(s', v', ty)
  }

  ghost predicate TypesKept(s: Code, vs: seq<Value>, s': Code, vs': seq<Value>) {
    |vs'| == |vs| && forall j :: 0 <= j < |vs| ==> TypeKept(s, vs[j], s', vs'[j])
  }

  /** Results are the same, and operands, the condition and returned values have the types
      they had.  A block may gain instructions and a return. */
  ghost predicate BlockKeeps(s: Code, d: BlockData, s': Code, d': BlockData) {
    && |d.insts| <= |d'.insts|
    && (forall i :: 0 <= i < |d.insts| ==> InstKeeps(s, d.insts[i], s', d'.insts[i]))
    && (d'.term.Conditional() ==> d.term.Conditional() && TypeKept(s, d.term.cond, s', d'.term.cond))
    && (d.term.Return? ==> d'.term.Return? && TypesKept(s, d.term.values, s', d'.term.values))
  }

  ghost predicate InstKeeps(s: Code, i: Inst, s': Code, i': Inst) {
    i'.op == i.op && i'.results == i.results && TypesKept(s, i.args, s', i'.args)
  }

  ghost predicate KeepsTypes(s: Code, s': Code) {
    && s'.layout == s.layout
    && (forall v :: TypeKept(s, v, s', v))
    && (forall b :: b in s.layout && b in s.blocks ==> b in s'.blocks && BlockKeeps(s, s.blocks[b], s', s'.blocks[b]))
  }

  lemma KeepsSelf(s: Code)
    ensures KeepsTypes(s, s)
  {
  }

  lemma BlockKeepsOn(s: Code, d: BlockData, s1: Code, d1: BlockData, s2: Code, d2: BlockData)
    requires BlockKeeps(s, d, s1, d1) && BlockKeeps(s1, d1, s2, d2)
    ensures BlockKeeps(s, d, s2, d2)
  {
    forall i | 0 <= i < |d.insts|
      ensures InstKeeps(s, d.insts[i], s2, d2.insts[i])
    {
      assert InstKeeps(s, d.insts[i], s1, d1.insts[i]) && InstKeeps(s1, d1.insts[i], s2, d2.insts[i]);
    }
  }

  lemma KeepsOn(s: Code, s1: Code, s2: Code)
    requires KeepsTypes(s, s1) && KeepsTypes(s1, s2)
    ensures KeepsTypes(s, s2)
  {
    forall v
      ensures TypeKept(s, v, s2, v)
    {
      assert TypeKept(s, v, s1, v) && TypeKept(s1, v, s2, v);
    }
    forall b | b in s.layout && b in s.blocks
      ensures b in s2.blocks && BlockKeeps(s, s.blocks[b], s2, s2.blocks[b])
    {
      BlockKeepsOn(s, s.blocks[b], s1, s1.blocks[b], s2, s2.blocks[b]);
    }
  }

  /** Definitions that stay where they are. */
  lemma TypesWiden(s: Code, s': Code, b: Block, d: BlockData)
    requires b in s.blocks && s'.layout == s.layout && s'.blocks == s.blocks[b := d] && Widens(s.blocks[b], d)
    ensures forall v :: TypeKept(s, v, s', v)
  {
    forall v, ty | HasType(s, v, ty)
      ensures HasType(s', v, ty)
    {
      var c :| c in s.layout && c in s.blocks && Defines(s.blocks[c], TypedValue(v, ty));
      if c == b {
        var none: iset<TypedValue> := iset{};
        ScopeWidens(none, none, s.blocks[b], d, |s.blocks[b].insts|, |d.insts|, TypedValue(v, ty));
      }
      assert c in s'.blocks && Defines(s'.blocks[c], TypedValue(v, ty));
    }
  }

  /** One block replaced by one with the same operands, and perhaps more. */
  lemma BlockSwapped(s: Code, s': Code, b: Block, d: BlockData)
    requires b in s.blocks && s'.layout == s.layout && s'.blocks == s.blocks[b := d] && Widens(s.blocks[b], d)
    requires forall i :: 0 <= i < |s.blocks[b].insts| ==>
               d.insts[i].op == s.blocks[b].insts[i].op && d.insts[i].args == s.blocks[b].insts[i].args
    requires d.term.Conditional() ==> s.blocks[b].term.Conditional() && d.term.cond == s.blocks[b].term.cond
    requires s.blocks[b].term.Return? ==> d.term == s.blocks[b].term
    ensures KeepsTypes(s, s')
  {
    TypesWiden(s, s', b, d);
  }

  // ----- conditions and returned values -----

  /** Every condition is a 32-bit value. */
  ghost predicate CondsTyped(s: Code) {
    forall b :: b in s.layout && b in s.blocks && s.blocks[b].term.Conditional() ==>
        HasType(s, s.blocks[b].term.cond, I32)
  }

  ghost predicate AllTyped(s: Code, vs: seq<Value>, tys: seq<Type>) {
    |vs| == |tys| && forall i :: 0 <= i < |vs| ==> HasType(s, vs[i], tys[i])
  }

  /** The block returns values of the given types. */
  ghost predicate ReturnsTyped(s: Code, b: Block, tys: seq<Type>) {
    b in s.layout && b in s.blocks && s.blocks[b].term.Return? && AllTyped(s, s.blocks[b].term.values, tys)
  }

  /** The values have the given types, in order. */
  predicate ResultsTyped(rs: seq<TypedValue>, tys: seq<Type>) {
    |rs| == |tys| && forall i :: 0 <= i < |rs| ==> rs[i].ty == tys[i]
  }

  /** The instruction calls a callee of signature `sig` with values of its parameter types,
      and has results of its result types. */
  ghost predicate CallTyped(s: Code, b: Block, pos: nat, callee: nat, sig: (seq<Type>, seq<Type>)) {
    && b in s.layout && b in s.blocks && pos < |s.blocks[b].insts|
    && s.blocks[b].insts[pos].op == Call(callee) && AllTyped(s, s.blocks[b].insts[pos].args, sig.0)
    && ResultsTyped(s.blocks[b].insts[pos].results, sig.1)
  }

  lemma CondsKept(s: Code, s': Code)
    requires KeepsTypes(s, s') && CondsTyped(s) && s.Laid()
    ensures CondsTyped(s')
  {
    forall b | b in s'.layout && b in s'.blocks && s'.blocks[b].term.Conditional()
      ensures HasType(s', s'.blocks[b].term.cond, I32)
    {
      assert BlockKeeps(s, s.blocks[b], s', s'.blocks[b]);
    }
  }

  lemma ReturnsKept(s: Code, s': Code, b: Block, tys: seq<Type>)
    requires KeepsTypes(s, s') && ReturnsTyped(s, b, tys)
    ensures ReturnsTyped(s', b, tys)
  {
    assert BlockKeeps(s, s.blocks[b], s', s'.blocks[b]);
  }

  lemma CallKept(s: Code, s': Code, b: Block, pos: nat, callee: nat, sig: (seq<Type>, seq<Type>))
    requires KeepsTypes(s, s') && CallTyped(s, b, pos, callee, sig)
    ensures CallTyped(s', b, pos, callee, sig)
  {
    assert BlockKeeps(s, s.blocks[b], s', s'.blocks[b]);
    assert InstKeeps(s, s.blocks[b].insts[pos], s', s'.blocks[b].insts[pos]);
  }
}
