/** What it means for the values of a function to be in scope where they are used:
    each is defined earlier in the same block, or in a block that strictly
    dominates it. */
module Ssa {
  import opened Graphs
  import opened Ir

  /** A parameter of the block, or a result of one of its first `n` instructions. */
  ghost predicate DefinedBefore(d: BlockData, n: nat, tv: TypedValue) {
    tv in d.params || exists j :: 0 <= j < n && j < |d.insts| && tv in d.insts[j].results
  }

  ghost predicate Defines(d: BlockData, tv: TypedValue) {
    DefinedBefore(d, |d.insts|, tv)
  }

  /** In scope before instruction `n` of a block that inherits `outer`. */
  ghost predicate InScope(outer: iset<TypedValue>, d: BlockData, n: nat, tv: TypedValue) {
    tv in outer || DefinedBefore(d, n, tv)
  }

  ghost predicate Usable(outer: iset<TypedValue>, d: BlockData, n: nat, v: Value) {
    exists ty :: InScope(outer, d, n, TypedValue(v, ty))
  }

  /** Every operand of instruction `i` is in scope there. */
  ghost predicate InstOk(outer: iset<TypedValue>, d: BlockData, i: nat)
    requires i < |d.insts|
  {
    forall v :: v in d.insts[i].args ==> Usable(outer, d, i, v)
  }

  ghost predicate InstsOk(outer: iset<TypedValue>, d: BlockData) {
    forall i :: 0 <= i < |d.insts| ==> InstOk(outer, d, i)
  }

  /** The condition and the returned values are in scope at the end of the block. */
  ghost predicate EndOk(outer: iset<TypedValue>, d: BlockData) {
    && (d.term.Conditional() ==> Usable(outer, d, |d.insts|, d.term.cond))
    && (d.term.Return? ==> forall v :: v in d.term.values ==> Usable(outer, d, |d.insts|, v))
  }

  /** The branch arguments agree with the target's parameters in number and, one by
      one, in type, and are in scope at the end of the block. */
  ghost predicate ArgsOk(outer: iset<TypedValue>, d: BlockData, args: seq<Value>, params: seq<TypedValue>) {
    && |args| == |params|
    && forall i :: 0 <= i < |args| ==> InScope(outer, d, |d.insts|, TypedValue(args[i], params[i].ty))
  }

  /** Defined in a block of `S` that strictly dominates `b`. */
  ghost predicate Inherits(s: Code, g: Cfg, S: set<Block>, b: Block, tv: TypedValue) {
    exists c :: c in S && c in s.blocks && g.StrictlyDominates(c, b) && Defines(s.blocks[c], tv)
  }

  ghost function Outer(s: Code, g: Cfg, S: set<Block>, b: Block): iset<TypedValue> {
    iset tv | Inherits(s, g, S, b, tv)
  }

  /** All uses in block `b` but its branch arguments are in scope. */
  ghost predicate BlockOk(s: Code, g: Cfg, S: set<Block>, b: Block) {
    b in s.blocks && InstsOk(Outer(s, g, S, b), s.blocks[b]) && EndOk(Outer(s, g, S, b), s.blocks[b])
  }

  /** Every branch of block `b` passes fitting arguments. */
  ghost predicate CallsOk(s: Code, g: Cfg, S: set<Block>, b: Block) {
    b in s.blocks && forall k :: 0 <= k < |s.blocks[b].term.Calls()| ==> CallOk(s, g, S, b, k)
  }

  ghost predicate CallOk(s: Code, g: Cfg, S: set<Block>, b: Block, k: nat)
    requires b in s.blocks && k < |s.blocks[b].term.Calls()|
  {
    var call := s.blocks[b].term.Calls()[k];
    call.block in s.blocks && ArgsOk(Outer(s, g, S, b), s.blocks[b], call.args, s.blocks[call.block].params)
  }

  /** Valid SSA: every operand, condition, returned value and branch argument is
      defined earlier in its block or in a strictly dominating block, and branch
      arguments match the parameters of their targets. */
  ghost predicate ValidSsa(s: Code, g: Cfg) {
    forall b :: b in s.layout ==> BlockOk(s, g, Elements(s.layout), b) && CallsOk(s, g, Elements(s.layout), b)
  }

  /** Valid SSA as far as the code can run. */
  ghost predicate LiveSsa(s: Code, g: Cfg) {
    forall b :: b in s.layout && g.Reachable(b) ==>
      BlockOk(s, g, Elements(s.layout), b) && CallsOk(s, g, Elements(s.layout), b)
  }

  // ----- scopes only widen -----

  /** `d'` has all the definitions of `d`, in the same places. */
  ghost predicate Widens(d: BlockData, d': BlockData) {
    && (forall tv :: tv in d.params ==> tv in d'.params)
    && |d.insts| <= |d'.insts|
    && (forall j :: 0 <= j < |d.insts| ==> d'.insts[j].results == d.insts[j].results)
  }

  lemma ScopeWidens(outer: iset<TypedValue>, outer': iset<TypedValue>, d: BlockData, d': BlockData, n: nat, m: nat,
                    tv: TypedValue)
    requires outer <= outer' && Widens(d, d') && n <= m && n <= |d.insts| && InScope(outer, d, n, tv)
    ensures InScope(outer', d', m, tv)
  {
    if tv !in outer && tv !in d.params {
      var j :| 0 <= j < n && j < |d.insts| && tv in d.insts[j].results;
      assert tv in d'.insts[j].results;
    }
  }

  lemma UsableWidens(outer: iset<TypedValue>, outer': iset<TypedValue>, d: BlockData, d': BlockData, n: nat, m: nat,
                     v: Value)
    requires outer <= outer' && Widens(d, d') && n <= m && n <= |d.insts| && Usable(outer, d, n, v)
    ensures Usable(outer', d', m, v)
  {
    var ty :| InScope(outer, d, n, TypedValue(v, ty));
    ScopeWidens(outer, outer', d, d', n, m, TypedValue(v, ty));
  }

  lemma InstWidens(outer: iset<TypedValue>, outer': iset<TypedValue>, d: BlockData, d': BlockData, i: nat)
    requires outer <= outer' && Widens(d, d') && i < |d.insts| && d'.insts[i].args == d.insts[i].args
    requires InstOk(outer, d, i)
    ensures InstOk(outer', d', i)
  {
    forall v | v in d'.insts[i].args
      ensures Usable(outer', d', i, v)
    {
      UsableWidens(outer, outer', d, d', i, i, v);
    }
  }

  /** Appending an instruction whose operands are in scope. */
  lemma AppendInstOk(outer: iset<TypedValue>, d: BlockData, inst: Inst)
    requires InstsOk(outer, d)
    requires forall v :: v in inst.args ==> Usable(outer, d, |d.insts|, v)
    ensures InstsOk(outer, d.(insts := d.insts + [inst]))
    ensures Widens(d, d.(insts := d.insts + [inst]))
  {
    var d' := d.(insts := d.insts + [inst]);
    forall i | 0 <= i < |d'.insts|
      ensures InstOk(outer, d', i)
    {
      if i < |d.insts| {
        assert InstOk(outer, d, i);
        InstWidens(outer, outer, d, d', i);
      } else {
        forall v | v in inst.args
          ensures Usable(outer, d', i, v)
        {
          UsableWidens(outer, outer, d, d', i, i, v);
        }
      }
    }
  }

  lemma OuterWidens(s: Code, s': Code, g: Cfg, S: set<Block>, S': set<Block>, b: Block)
    requires S <= S'
    requires forall c :: c in S && c in s.blocks && c != b ==> c in s'.blocks && Widens(s.blocks[c], s'.blocks[c])
    ensures Outer(s, g, S, b) <= Outer(s', g, S', b)
  {
    forall tv | Inherits(s, g, S, b, tv)
      ensures Inherits(s', g, S', b, tv)
    {
      var c :| c in S && c in s.blocks && g.StrictlyDominates(c, b) && Defines(s.blocks[c], tv);
      var none: iset<TypedValue> := iset{};
      ScopeWidens(none, none, s.blocks[c], s'.blocks[c], |s.blocks[c].insts|, |s'.blocks[c].insts|, tv);
    }
  }

  lemma InstsWiden(outer: iset<TypedValue>, outer': iset<TypedValue>, d: BlockData, d': BlockData)
    requires outer <= outer' && Widens(d, d') && d.insts == d'.insts && InstsOk(outer, d)
    ensures InstsOk(outer', d')
  {
    forall i | 0 <= i < |d'.insts|
      ensures InstOk(outer', d', i)
    {
      assert InstOk(outer, d, i);
      InstWidens(outer, outer', d, d', i);
    }
  }

  /** The terminators use the same values apart from branch arguments. */
  ghost predicate SameEnd(t: Terminator, t': Terminator) {
    && (t'.Conditional() ==> t.Conditional() && t'.cond == t.cond)
    && (t'.Return? ==> t' == t)
  }

  lemma EndWidens(outer: iset<TypedValue>, outer': iset<TypedValue>, d: BlockData, d': BlockData)
    requires outer <= outer' && Widens(d, d') && EndOk(outer, d)
    requires SameEnd(d.term, d'.term)
    ensures EndOk(outer', d')
  {
    if d'.term.Conditional() {
      UsableWidens(outer, outer', d, d', |d.insts|, |d'.insts|, d.term.cond);
    }
    if d'.term.Return? {
      forall v | v in d.term.values
        ensures Usable(outer', d', |d'.insts|, v)
      {
        UsableWidens(outer, outer', d, d', |d.insts|, |d'.insts|, v);
      }
    }
  }

  lemma ArgsWiden(outer: iset<TypedValue>, outer': iset<TypedValue>, d: BlockData, d': BlockData,
                  args: seq<Value>, params: seq<TypedValue>)
    requires outer <= outer' && Widens(d, d') && ArgsOk(outer, d, args, params)
    ensures ArgsOk(outer', d', args, params)
  {
    forall i | 0 <= i < |args|
      ensures InScope(outer', d', |d'.insts|, TypedValue(args[i], params[i].ty))
    {
      ScopeWidens(outer, outer', d, d', |d.insts|, |d'.insts|, TypedValue(args[i], params[i].ty));
    }
  }

  // ----- single definitions -----

  /** Where a value is defined: among the parameters (position 0) or by the
      instruction at `pos - 1`. */
  datatype Site = Site(block: Block, pos: nat)

  ghost predicate HomedBlock(d: BlockData, b: Block, home: Value -> Site) {
    && DistinctValues(d.params)
    && (forall tv :: tv in d.params ==> home(tv.value) == Site(b, 0))
    && (forall i, tv :: 0 <= i < |d.insts| && tv in d.insts[i].results ==> home(tv.value) == Site(b, i + 1))
    && (forall i :: 0 <= i < |d.insts| ==> DistinctValues(d.insts[i].results))
  }

  /** Every value has one definition. */
  ghost predicate Homed(s: Code, home: Value -> Site) {
    forall b :: b in s.layout ==> b in s.blocks && HomedBlock(s.blocks[b], b, home)
  }

  /** The values that a block defines are numbered from `lo` up to `hi`. */
  ghost predicate DefsIn(d: BlockData, lo: Value, hi: Value) {
    && (forall tv :: tv in d.params ==> lo <= tv.value < hi)
    && (forall i, tv :: 0 <= i < |d.insts| && tv in d.insts[i].results ==> lo <= tv.value < hi)
  }

  /** A block that defines values of that range, each once. */
  ghost predicate Ranged(d: BlockData, b: Block, lo: Value, hi: Value) {
    lo <= hi && DefsIn(d, lo, hi) && exists home: Value -> Site :: HomedBlock(d, b, home)
  }

  /** What a change to a block does to the range of its definitions. */
  ghost predicate Ranges(b: Block, d: BlockData, n: Value, d': BlockData, n': Value) {
    n <= n' && forall lo: Value :: Ranged(d, b, lo, n) ==> Ranged(d', b, lo, n')
  }

  lemma RangesTransitive(b: Block, d: BlockData, n: Value, d': BlockData, n': Value, d'': BlockData, n'': Value)
    requires Ranges(b, d, n, d', n') && Ranges(b, d', n', d'', n'')
    ensures Ranges(b, d, n, d'', n'')
  {
    forall lo: Value | Ranged(d, b, lo, n)
      ensures Ranged(d'', b, lo, n'')
    {
      assert Ranged(d', b, lo, n');
    }
  }

  /** The same definitions in the same places. */
  ghost predicate SameDefs(d: BlockData, d': BlockData) {
    && d'.params == d.params && |d'.insts| == |d.insts|
    && forall i :: 0 <= i < |d.insts| ==> d'.insts[i].results == d.insts[i].results
  }

  lemma SameHome(d: BlockData, d': BlockData, b: Block, home: Value -> Site)
    requires SameDefs(d, d') && HomedBlock(d, b, home)
    ensures HomedBlock(d', b, home)
  {
  }

  lemma SameRanges(b: Block, d: BlockData, d': BlockData, n: Value)
    requires SameDefs(d, d')
    ensures Ranges(b, d, n, d', n)
  {
    forall lo: Value | Ranged(d, b, lo, n)
      ensures Ranged(d', b, lo, n)
    {
      var home: Value -> Site :| HomedBlock(d, b, home);
      SameHome(d, d', b, home);
    }
  }

  /** One more instruction with fresh results. */
  lemma InstRanges(b: Block, d: BlockData, n: Value, inst: Inst, n': Value)
    requires n <= n' && DistinctValues(inst.results) && forall tv :: tv in inst.results ==> n <= tv.value < n'
    ensures Ranges(b, d, n, d.(insts := d.insts + [inst]), n')
  {
    var d' := d.(insts := d.insts + [inst]);
    forall lo: Value | Ranged(d, b, lo, n)
      ensures Ranged(d', b, lo, n')
    {
      var home: Value -> Site :| HomedBlock(d, b, home);
      var home' := (v: Value) => if v >= n then Site(b, |d.insts| + 1) else home(v);
      assert HomedBlock(d', b, home');
    }
  }

  /** More parameters, all fresh. */
  lemma ParamRanges(b: Block, d: BlockData, n: Value, ps: seq<TypedValue>, n': Value)
    requires n <= n' && DistinctValues(ps) && forall tv :: tv in ps ==> n <= tv.value < n'
    ensures Ranges(b, d, n, d.(params := d.params + ps), n')
  {
    var d' := d.(params := d.params + ps);
    forall lo: Value | Ranged(d, b, lo, n)
      ensures Ranged(d', b, lo, n')
    {
      var home: Value -> Site :| HomedBlock(d, b, home);
      var home' := (v: Value) => if v >= n then Site(b, 0) else home(v);
      FreshDistinct(d.params, ps, n);
      assert HomedBlock(d', b, home');
    }
  }

  lemma FreshDistinct(a: seq<TypedValue>, ps: seq<TypedValue>, n: Value)
    requires DistinctValues(a) && DistinctValues(ps)
    requires (forall tv :: tv in a ==> tv.value < n) && forall tv :: tv in ps ==> n <= tv.value
    ensures DistinctValues(a + ps)
  {
    var c := a + ps;
    forall i, j | 0 <= i < j < |c|
      ensures c[i].value != c[j].value
    {
      if i < |a| <= j { assert c[i] in a && c[j] in ps; }
    }
  }

  /** The blocks of `S` define each value once, below the next number. */
  ghost predicate Unique(s: Code, S: set<Block>) {
    exists home: Value -> Site :: UniqueBy(s, S, home)
  }

  ghost predicate UniqueBy(s: Code, S: set<Block>, home: Value -> Site) {
    forall b :: b in S ==> b in s.blocks && HomedBlock(s.blocks[b], b, home) && DefsIn(s.blocks[b], 0, s.nextValue)
  }

  /** A block whose definitions are all new joins the others. */
  lemma UniqueJoins(s: Code, s': Code, S: set<Block>, b: Block)
    requires Unique(s, S) && b !in S && s.nextValue <= s'.nextValue
    requires b in s'.blocks && Ranged(s'.blocks[b], b, s.nextValue, s'.nextValue)
    requires forall c :: c in S && c in s.blocks ==> c in s'.blocks && s'.blocks[c] == s.blocks[c]
    ensures Unique(s', S + {b})
  {
    var was: Value -> Site :| UniqueBy(s, S, was);
    var own: Value -> Site :| HomedBlock(s'.blocks[b], b, own);
    var home := (v: Value) => if v >= s.nextValue then own(v) else was(v);
    forall c | c in S + {b}
      ensures c in s'.blocks && HomedBlock(s'.blocks[c], c, home) && DefsIn(s'.blocks[c], 0, s'.nextValue)
    {
    }
    assert UniqueBy(s', S + {b}, home);
  }

  /** One more instruction with fresh results in one block. */
  lemma UniqueInst(s: Code, s': Code, S: set<Block>, b: Block, inst: Inst)
    requires Unique(s, S) && b in S && b in s.blocks && s.nextValue <= s'.nextValue
    requires s'.blocks == s.blocks[b := s.blocks[b].(insts := s.blocks[b].insts + [inst])]
    requires DistinctValues(inst.results) && forall tv :: tv in inst.results ==> s.nextValue <= tv.value < s'.nextValue
    ensures Unique(s', S)
  {
    var was: Value -> Site :| UniqueBy(s, S, was);
    var home := (v: Value) => if v >= s.nextValue then Site(b, |s.blocks[b].insts| + 1) else was(v);
    forall c | c in S
      ensures c in s'.blocks && HomedBlock(s'.blocks[c], c, home) && DefsIn(s'.blocks[c], 0, s'.nextValue)
    {
    }
    assert UniqueBy(s', S, home);
  }

  /** More parameters, all fresh, for one block. */
  lemma UniqueParams(s: Code, s': Code, S: set<Block>, b: Block, ps: seq<TypedValue>)
    requires Unique(s, S) && b in S && b in s.blocks && s.nextValue <= s'.nextValue
    requires s'.blocks == s.blocks[b := s.blocks[b].(params := s.blocks[b].params + ps)]
    requires DistinctValues(ps) && forall tv :: tv in ps ==> s.nextValue <= tv.value < s'.nextValue
    ensures Unique(s', S)
  {
    var was: Value -> Site :| UniqueBy(s, S, was);
    var home := (v: Value) => if v >= s.nextValue then Site(b, 0) else was(v);
    FreshDistinct(s.blocks[b].params, ps, s.nextValue);
    forall c | c in S
      ensures c in s'.blocks && HomedBlock(s'.blocks[c], c, home) && DefsIn(s'.blocks[c], 0, s'.nextValue)
    {
    }
    assert UniqueBy(s', S, home);
  }

  /** Other operands and branches, but the same definitions. */
  lemma UniqueSame(s: Code, s': Code, S: set<Block>, b: Block, d: BlockData)
    requires Unique(s, S) && b in s.blocks && s'.nextValue == s.nextValue && s'.blocks == s.blocks[b := d]
    requires SameDefs(s.blocks[b], d)
    ensures Unique(s', S)
  {
    var home: Value -> Site :| UniqueBy(s, S, home);
    forall c | c in S
      ensures c in s'.blocks && HomedBlock(s'.blocks[c], c, home) && DefsIn(s'.blocks[c], 0, s'.nextValue)
    {
      if c == b { SameHome(s.blocks[b], d, b, home); }
    }
    assert UniqueBy(s', S, home);
  }
}
