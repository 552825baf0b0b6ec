/** The reducer's `MergeBlocks` mutator: a cursor over the layout, an alias table,
    and instructions moved from one block to another. */
module MergeBlocks {
  import opened Graphs
  import opened Ir
  import opened Ssa
  import opened Execution
  import opened Merging
  import opened MergeSimulation
  import opened MergeInvariants

  // ----- aliases -----

  /** Reading `dest` means reading `original`. */
  datatype Alias = Alias(dest: TypedValue, original: Value)

  /** A function with its alias table, oldest entry first. */
  datatype Aliased = Aliased(code: Code, log: seq<Alias>)

  /** The value that finally stands for `v`. */
  function Resolve(log: seq<Alias>, v: Value): Value {
    if log == [] then v else
      var e := log[|log| - 1];
      Subst([e.dest], [e.original], Resolve(log[..|log| - 1], v))
  }

  function SubstCode(ps: seq<TypedValue>, args: seq<Value>, s: Code): Code {
    s.(blocks := map c | c in s.blocks :: SubstBlock(ps, args, s.blocks[c]))
  }

  /** The code with every operand resolved. */
  function View(s: Code, log: seq<Alias>): Code {
    if log == [] then s else
      var e := log[|log| - 1];
      SubstCode([e.dest], [e.original], View(s, log[..|log| - 1]))
  }

  /** The bare move of the instructions. */
  function Glue(s: Code, p: Block, b: Block): Code
    requires p in s.blocks && b in s.blocks
  {
    s.(layout := Without(s.layout, b),
       blocks := map c | c in s.blocks && c != b ::
         if c == p then BlockData(s.blocks[p].params, s.blocks[p].insts + s.blocks[b].insts, s.blocks[b].term)
             else s.blocks[c])
  }

  lemma ResultIsGlue(m: Merge)
    requires m.Defined()
    ensures m.Result() == SubstCode(m.Params(), m.Args(), Glue(m.s, m.p, m.b))
  {
    var r := SubstCode(m.Params(), m.Args(), Glue(m.s, m.p, m.b));
    assert m.Result().blocks.Keys == r.blocks.Keys;
  }

  lemma GlueSubst(ps: seq<TypedValue>, args: seq<Value>, s: Code, p: Block, b: Block)
    requires p in s.blocks && b in s.blocks
    ensures Glue(SubstCode(ps, args, s), p, b) == SubstCode(ps, args, Glue(s, p, b))
  {
    var x, y := Glue(SubstCode(ps, args, s), p, b), SubstCode(ps, args, Glue(s, p, b));
    assert x.blocks.Keys == y.blocks.Keys;
    assert SubstInsts(ps, args, s.blocks[p].insts + s.blocks[b].insts)
        == SubstInsts(ps, args, s.blocks[p].insts) + SubstInsts(ps, args, s.blocks[b].insts);
  }

  /** Resolving changes operands only. */
  ghost predicate SameShape(s: Code, s': Code) {
    && s'.layout == s.layout && s'.blocks.Keys == s.blocks.Keys
    && forall c :: c in s.blocks ==>
         s'.blocks[c].params == s.blocks[c].params && s'.blocks[c].term.Dests() == s.blocks[c].term.Dests()
  }

  lemma {:induction false} ViewShape(s: Code, log: seq<Alias>)
    ensures SameShape(s, View(s, log))
  {
    if log != [] {
      var n := |log| - 1;
      ViewShape(s, log[..n]);
      SubstShape([log[n].dest], [log[n].original], View(s, log[..n]));
    }
  }

  lemma SubstShape(ps: seq<TypedValue>, args: seq<Value>, s: Code)
    ensures SameShape(s, SubstCode(ps, args, s))
  {
    var s' := SubstCode(ps, args, s);
    assert s'.blocks.Keys == s.blocks.Keys;
    forall c | c in s.blocks
      ensures s'.blocks[c].term.Dests() == s.blocks[c].term.Dests()
    {
    }
  }

  lemma {:induction false} ViewGlue(s: Code, log: seq<Alias>, p: Block, b: Block)
    requires p in s.blocks && b in s.blocks
    ensures p in View(s, log).blocks && b in View(s, log).blocks
    ensures View(Glue(s, p, b), log) == Glue(View(s, log), p, b)
  {
    ViewShape(s, log);
    if log != [] {
      var n := |log| - 1;
      ViewGlue(s, log[..n], p, b);
      GlueSubst([log[n].dest], [log[n].original], View(s, log[..n]), p, b);
    }
  }

  function ResolveAll(log: seq<Alias>, vs: seq<Value>): (r: seq<Value>)
    ensures |r| == |vs| && forall i :: 0 <= i < |vs| ==> r[i] == Resolve(log, vs[i])
  {
    seq(|vs|, i requires 0 <= i < |vs| => Resolve(log, vs[i]))
  }

  lemma {:induction false} ViewArgs(s: Code, log: seq<Alias>, c: Block, k: nat)
    requires c in s.blocks && k < |s.blocks[c].term.Calls()|
    ensures c in View(s, log).blocks && k < |View(s, log).blocks[c].term.Calls()|
    ensures View(s, log).blocks[c].term.Calls()[k].args == ResolveAll(log, s.blocks[c].term.Calls()[k].args)
  {
    if log != [] {
      var n := |log| - 1;
      ViewArgs(s, log[..n], c, k);
    }
  }

  // ----- substituting one after the other -----

  lemma SubstSnoc(ps: seq<TypedValue>, args: seq<Value>, n: nat, v: Value)
    requires n < |ps| == |args| && DistinctValues(ps) && forall i :: 0 <= i < |args| ==> !Names(ps, args[i])
    ensures Subst([ps[n]], [args[n]], Subst(ps[..n], args[..n], v)) == Subst(ps[..n + 1], args[..n + 1], v)
  {
    if Names(ps[..n], v) {
      var k :| 0 <= k < n && ps[..n][k].value == v;
      SubstAt(ps[..n], args[..n], k);
      SubstAt(ps[..n + 1], args[..n + 1], k);
      assert args[k] != ps[n].value;
    } else {
      SubstOther(ps[..n], args[..n], v);
      if ps[n].value == v {
        SubstAt(ps[..n + 1], args[..n + 1], n);
      } else {
        SubstOther(ps[..n + 1], args[..n + 1], v);
      }
    }
  }

  lemma SnocBlock(ps: seq<TypedValue>, args: seq<Value>, n: nat, d: BlockData)
    requires n < |ps| == |args| && DistinctValues(ps) && forall i :: 0 <= i < |args| ==> !Names(ps, args[i])
    ensures SubstBlock([ps[n]], [args[n]], SubstBlock(ps[..n], args[..n], d))
            == SubstBlock(ps[..n + 1], args[..n + 1], d)
  {
    forall v { SubstSnoc(ps, args, n, v); }
    SnocTerm(ps, args, n, d.term);
    forall i | 0 <= i < |d.insts|
      ensures SubstInst([ps[n]], [args[n]], SubstInst(ps[..n], args[..n], d.insts[i]))
              == SubstInst(ps[..n + 1], args[..n + 1], d.insts[i])
    {
      SnocAll(ps, args, n, d.insts[i].args);
    }
  }

  lemma SnocAll(ps: seq<TypedValue>, args: seq<Value>, n: nat, vs: seq<Value>)
    requires n < |ps| == |args| && DistinctValues(ps) && forall i :: 0 <= i < |args| ==> !Names(ps, args[i])
    ensures SubstAll([ps[n]], [args[n]], SubstAll(ps[..n], args[..n], vs)) == SubstAll(ps[..n + 1], args[..n + 1], vs)
  {
    forall i | 0 <= i < |vs|
      ensures Subst([ps[n]], [args[n]], Subst(ps[..n], args[..n], vs[i])) == Subst(ps[..n + 1], args[..n + 1], vs[i])
    {
      SubstSnoc(ps, args, n, vs[i]);
    }
  }

  lemma SnocTerm(ps: seq<TypedValue>, args: seq<Value>, n: nat, t: Terminator)
    requires n < |ps| == |args| && DistinctValues(ps) && forall i :: 0 <= i < |args| ==> !Names(ps, args[i])
    ensures SubstTerm([ps[n]], [args[n]], SubstTerm(ps[..n], args[..n], t)) == SubstTerm(ps[..n + 1], args[..n + 1], t)
  {
    match t
    case NoTerminator =>
    case Jump(d) => SnocAll(ps, args, n, d.args);
    case Brif(c, a, b) =>
      SubstSnoc(ps, args, n, c);
      SnocAll(ps, args, n, a.args);
      SnocAll(ps, args, n, b.args);
    case BrTable(c, table) =>
      SubstSnoc(ps, args, n, c);
      forall i | 0 <= i < |table|
        ensures SubstCall([ps[n]], [args[n]], SubstCall(ps[..n], args[..n], table[i]))
                == SubstCall(ps[..n + 1], args[..n + 1], table[i])
      {
        SnocAll(ps, args, n, table[i].args);
      }
    case Return(vs) => SnocAll(ps, args, n, vs);
  }

  lemma SnocCode(ps: seq<TypedValue>, args: seq<Value>, n: nat, s: Code)
    requires n < |ps| == |args| && DistinctValues(ps) && forall i :: 0 <= i < |args| ==> !Names(ps, args[i])
    ensures SubstCode([ps[n]], [args[n]], SubstCode(ps[..n], args[..n], s)) == SubstCode(ps[..n + 1], args[..n + 1], s)
  {
    var s1 := SubstCode(ps[..n], args[..n], s);
    var x, y := SubstCode([ps[n]], [args[n]], s1), SubstCode(ps[..n + 1], args[..n + 1], s);
    SubstKeys(ps[..n], args[..n], s);
    SubstKeys([ps[n]], [args[n]], s1);
    SubstKeys(ps[..n + 1], args[..n + 1], s);
    forall c | c in s.blocks
      ensures x.blocks[c] == y.blocks[c]
    {
      SnocBlock(ps, args, n, s.blocks[c]);
    }
  }

  lemma SubstKeys(ps: seq<TypedValue>, args: seq<Value>, s: Code)
    ensures SubstCode(ps, args, s).blocks.Keys == s.blocks.Keys
    ensures forall c :: c in s.blocks ==> SubstCode(ps, args, s).blocks[c] == SubstBlock(ps, args, s.blocks[c])
  {
  }

  // ----- the mutator -----

  /** No observer can tell the two apart, on any machine and from any start. */
  ghost predicate SameBehaviour(s: Code, s': Code) {
    forall x: Machine, env: Env :: Refines(s, s', x, env) && Refines(s', s, x, env)
  }

  /** Parameters in the code are not aliases. */
  ghost predicate Settled(a: Aliased) {
    forall c, tv :: c in a.code.layout && c in a.code.blocks && tv in a.code.blocks[c].params ==>
        Resolve(a.log, tv.value) == tv.value
  }

  /** A function that merges apply to. */
  ghost predicate Proper(a: Aliased, g: Cfg, home: Value -> Site) {
    Sound(View(a.code, a.log), g, home) && Settled(a)
  }

  function NextBlock(layout: seq<Block>, b: Block): (r: Option<Block>)
    ensures r.Some? ==> exists i :: 0 < i < |layout| && layout[i] == r.value
  {
    if layout == [] then None
    else if layout[0] == b then if |layout| > 1 then Some(layout[1]) else None
    else
      var r := NextBlock(layout[1..], b);
      assert r.Some? ==> exists i :: 0 < i < |layout| && layout[i] == r.value by {
        if r.Some? {
          var i :| 0 < i < |layout[1..]| && layout[1..][i] == r.value;
          assert layout[i + 1] == r.value;
        }
      }
      r
  }

  /** The block after the one at position `i`. */
  lemma {:induction false} NextBlockAt(layout: seq<Block>, i: nat)
    requires Distinct(layout) && i < |layout|
    ensures NextBlock(layout, layout[i]) == if i + 1 < |layout| then Some(layout[i + 1]) else None
  {
    if i > 0 {
      assert layout[1..][i - 1] == layout[i] && layout[0] != layout[i];
      NextBlockAt(layout[1..], i - 1);
    }
  }

  /** `c` comes right after `b`. */
  ghost predicate Adjacent(layout: seq<Block>, b: Block, c: Block) {
    exists i {:trigger layout[i]} :: 0 <= i < |layout| - 1 && layout[i] == b && layout[i + 1] == c
  }

  predicate AtEnd(layout: seq<Block>, b: Block) {
    layout != [] && b == layout[|layout| - 1]
  }

  /** From the last block there is nowhere to go, from another the next one is next. */
  ghost predicate Moves(layout: seq<Block>, b: Block, next: Option<Block>) {
    b in layout ==> if AtEnd(layout, b) then next.None? else next.Some? && Adjacent(layout, b, next.value)
  }

  lemma NextMoves(layout: seq<Block>, b: Block)
    requires Distinct(layout)
    ensures Moves(layout, b, NextBlock(layout, b))
  {
    if b in layout {
      var i :| 0 <= i < |layout| && layout[i] == b;
      NextBlockAt(layout, i);
      if i + 1 < |layout| { assert layout[i + 1] == NextBlock(layout, b).value; }
    }
  }

  /** `b` has one predecessor, and that has no other target. */
  predicate CanMerge(s: Code, b: Block)
    requires s.layout != []
  {
    var preds := s.Graph().Preds(b);
    |preds| == 1 && forall p :: p in preds ==> p in s.blocks && |s.blocks[p].term.Calls()| == 1
  }

  /** The merge as seen through the alias table. */
  function TheMerge(a: Aliased, g: Cfg, p: Block, b: Block): Merge {
    Merge(View(a.code, a.log), g, p, b)
  }

  lemma SubstNone(s: Code)
    ensures SubstCode([], [], s) == s
  {
    var s' := SubstCode([], [], s);
    assert s'.blocks.Keys == s.blocks.Keys;
    forall c | c in s.blocks
      ensures s'.blocks[c] == s.blocks[c]
    {
      var d := s.blocks[c];
      forall i | 0 <= i < |d.insts|
        ensures SubstInst([], [], d.insts[i]) == d.insts[i]
      {
        assert SubstAll([], [], d.insts[i].args) == d.insts[i].args;
      }
      assert SubstInsts([], [], d.insts) == d.insts;
      SubstNoneTerm(d.term);
    }
  }

  lemma SubstNoneTerm(t: Terminator)
    ensures SubstTerm([], [], t) == t
  {
    forall c: BlockCall
      ensures SubstCall([], [], c) == c
    {
      assert SubstAll([], [], c.args) == c.args;
    }
    match t
    case BrTable(c, table) =>
      assert SubstTerm([], [], t).table == table;
    case Return(vs) =>
      assert SubstAll([], [], vs) == vs;
    case _ =>
  }

  /** What the aliases made so far amount to. */
  ghost predicate Aliasing(a: Aliased, m: Merge, i: nat, log: seq<Alias>)
    requires m.Defined() && i <= |m.Params()| == |m.Args()|
  {
    && View(a.code, log) == SubstCode(m.Params()[..i], m.Args()[..i], m.s)
    && forall v :: Resolve(log, v) == Subst(m.Params()[..i], m.Args()[..i], Resolve(a.log, v))
  }

  lemma AliasStep(a: Aliased, m: Merge, home: Value -> Site, i: nat, log: seq<Alias>, arg: Value)
    requires m.Ready(home) && m.Defined() && i < |m.Params()| == |m.Args()| && Aliasing(a, m, i, log)
    requires m.Args()[i] == Resolve(a.log, arg)
    ensures Resolve(log, arg) == m.Args()[i]
    ensures Aliasing(a, m, i + 1, log + [Alias(m.Params()[i], Resolve(log, arg))])
  {
    var ps, roots := m.Params(), m.Args();
    assert HomedBlock(m.s.blocks[m.b], m.b, home);
    forall k | 0 <= k < |roots|
      ensures !Names(ps, roots[k])
    {
      ArgNotParam(m, home, k);
    }
    assert !Names(ps[..i], roots[i]) by {
      assert forall k :: 0 <= k < i ==> ps[..i][k] == ps[k];
    }
    SubstOther(ps[..i], roots[..i], roots[i]);
    var log' := log + [Alias(ps[i], roots[i])];
    assert log'[..|log|] == log;
    SnocCode(ps, roots, i, m.s);
    forall v
      ensures Resolve(log', v) == Subst(ps[..i + 1], roots[..i + 1], Resolve(a.log, v))
    {
      SubstSnoc(ps, roots, i, Resolve(a.log, v));
    }
  }

  /** Aliases the parameters to the arguments, one by one. */
  method AliasParams(a: Aliased, p: Block, b: Block, ghost m: Merge, ghost home: Value -> Site)
    returns (log: seq<Alias>)
    requires p in a.code.blocks && b in a.code.blocks && |a.code.blocks[p].term.Calls()| == 1
    requires m == TheMerge(a, m.g, p, b) && m.Ready(home) && m.Defined() && Settled(a) && b in a.code.layout
    ensures View(a.code, log) == SubstCode(m.Params(), m.Args(), m.s)
    ensures forall v :: Resolve(log, v) == m.Sub(Resolve(a.log, v))
  {
    var ps, args := a.code.blocks[b].params, a.code.blocks[p].term.Calls()[0].args;
    ViewShape(a.code, a.log);
    ViewArgs(a.code, a.log, p, 0);
    MergeFacts(m, home);
    SubstNone(m.s);
    log := a.log;
    for i := 0 to |ps|
      invariant Aliasing(a, m, i, log)
    {
      ArgNotParam(m, home, i);
      assert ps[i] in ps;
      if ps[i].value != args[i] {
        AliasStep(a, m, home, i, log, args[i]);
        log := log + [Alias(ps[i], Resolve(log, args[i]))];
      }
    }
    AllAliased(a, m, log);
  }

  /** Moves the instructions of `b`, one at a time, to the end of `p`. */
  method MoveInsts(s: Code, p: Block, b: Block) returns (r: Code)
    requires p in s.blocks && b in s.blocks && p != b
    ensures r == Glue(s, p, b)
  {
    var from, to := s.blocks[b].insts, s.blocks[p].insts;
    while from != []
      invariant to + from == s.blocks[p].insts + s.blocks[b].insts
      decreases |from|
    {
      to, from := to + [from[0]], from[1..];
    }
    assert to == to + from;
    var blocks := s.blocks[p := BlockData(s.blocks[p].params, to, s.blocks[b].term)];
    r := s.(layout := Without(s.layout, b), blocks := blocks - {b});
    assert r.blocks.Keys == Glue(s, p, b).blocks.Keys;
  }

  lemma ViewGraph(s: Code, log: seq<Alias>, g: Cfg)
    requires HasGraph(View(s, log), g)
    ensures HasGraph(s, g) && s.Graph() == g
  {
    ViewShape(s, log);
    forall c | c in s.layout
      ensures g.succ[c] == s.blocks[c].term.Targets()
    {
      assert View(s, log).blocks[c].term.Dests() == s.blocks[c].term.Dests();
    }
    GraphUnique(s, g);
  }

  lemma GuardReady(a: Aliased, g: Cfg, home: Value -> Site, p: Block, b: Block)
    requires Proper(a, g, home) && b in a.code.layout && b != g.entry
    requires g.Preds(b) == {p} && p in a.code.blocks && |a.code.blocks[p].term.Calls()| == 1
    ensures TheMerge(a, g, p, b).Ready(home) && TheMerge(a, g, p, b).Defined() && p != b
  {
    ViewShape(a.code, a.log);
    ViewArgs(a.code, a.log, p, 0);
    assert View(a.code, a.log).blocks[p].term.Dests() == a.code.blocks[p].term.Dests();
    assert p in g.Preds(b);
    MergeFacts(TheMerge(a, g, p, b), home);
  }

  /** The new function, seen through its alias table, is the merged code. */
  lemma MergedView(a: Aliased, m: Merge, log: seq<Alias>)
    requires m == TheMerge(a, m.g, m.p, m.b) && m.Defined() && m.p in a.code.blocks && m.b in a.code.blocks
    requires View(a.code, log) == SubstCode(m.Params(), m.Args(), m.s)
    ensures View(Glue(a.code, m.p, m.b), log) == m.Result()
  {
    ViewGlue(a.code, log, m.p, m.b);
    GlueSubst(m.Params(), m.Args(), m.s, m.p, m.b);
    ResultIsGlue(m);
  }

  lemma MergedSettled(a: Aliased, s': Code, m: Merge, home: Value -> Site, log: seq<Alias>)
    requires m.Ready(home) && m.Defined() && Settled(a) && SameShape(a.code, m.s)
    requires forall v :: Resolve(log, v) == m.Sub(Resolve(a.log, v))
    requires forall c :: c in s'.layout && c in s'.blocks ==>
               c in a.code.layout && c in a.code.blocks && c != m.b && s'.blocks[c].params == a.code.blocks[c].params
    ensures Settled(Aliased(s', log))
  {
    forall c, tv | c in s'.layout && c in s'.blocks && tv in s'.blocks[c].params
      ensures Resolve(log, tv.value) == tv.value
    {
      OtherParam(m, home, c, tv);
    }
  }

  lemma AllAliased(a: Aliased, m: Merge, log: seq<Alias>)
    requires m.Defined() && |m.Params()| == |m.Args()| && Aliasing(a, m, |m.Params()|, log)
    ensures View(a.code, log) == SubstCode(m.Params(), m.Args(), m.s)
    ensures forall v :: Resolve(log, v) == m.Sub(Resolve(a.log, v))
  {
    assert m.Params()[..|m.Params()|] == m.Params() && m.Args()[..|m.Params()|] == m.Args();
  }

  lemma OtherParam(m: Merge, home: Value -> Site, c: Block, tv: TypedValue)
    requires m.Ready(home) && m.Defined() && c in m.s.layout && c in m.s.blocks && c != m.b
             && tv in m.s.blocks[c].params
    ensures m.Sub(tv.value) == tv.value
  {
    assert HomedBlock(m.s.blocks[c], c, home);
    if Names(m.Params(), tv.value) { ParamHome(m.s, home, m.b, tv.value); }
    SubstOther(m.Params(), m.Args(), tv.value);
  }

  lemma MergeBehaves(m: Merge, home: Value -> Site)
    requires m.Ready(home) && m.Defined()
    ensures SameBehaviour(m.s, m.Result())
  {
    forall x: Machine, env: Env
      ensures Refines(m.s, m.Result(), x, env) && Refines(m.Result(), m.s, x, env)
    {
      MergePreservesRuns(m, home, x, env);
    }
  }

  /** A function before and after a merge. */
  ghost predicate MergedInto(a: Aliased, a': Aliased, g: Cfg, home: Value -> Site, p: Block, b: Block) {
    && b in g.succ && TheMerge(a, g, p, b).Defined()
    && View(a'.code, a'.log) == TheMerge(a, g, p, b).Result()
    && Proper(a', Contracted(g, p, b), NewHome(TheMerge(a, g, p, b), home))
    && SameBehaviour(View(a.code, a.log), View(a'.code, a'.log))
    && p in a'.code.layout && b !in a'.code.layout
    && p != b && p in a.code.blocks && b in a.code.blocks && a'.code == Glue(a.code, p, b)
  }

  lemma GlueParams(s: Code, s': Code, p: Block, b: Block)
    requires p in s.blocks && b in s.blocks && s' == Glue(s, p, b)
    ensures forall c :: c in s'.layout && c in s'.blocks ==>
              c in s.layout && c in s.blocks && c != b && s'.blocks[c].params == s.blocks[c].params
  {
  }

  lemma MergeCorrect(a: Aliased, r: Aliased, m: Merge, home: Value -> Site)
    requires m == TheMerge(a, m.g, m.p, m.b) && m.Ready(home) && m.Defined() && Proper(a, m.g, home) && m.p != m.b
    requires m.p in a.code.blocks && m.b in a.code.blocks && r.code == Glue(a.code, m.p, m.b)
    requires View(r.code, r.log) == m.Result() && forall v :: Resolve(r.log, v) == m.Sub(Resolve(a.log, v))
    ensures MergedInto(a, r, m.g, home, m.p, m.b)
  {
    ViewShape(a.code, a.log);
    GlueParams(a.code, r.code, m.p, m.b);
    MergedSettled(a, r.code, m, home, r.log);
    MergeKeepsSound(m, home);
    MergeBehaves(m, home);
  }

  /** Merges `b` into `p`. */
  method MergeInto(a: Aliased, p: Block, b: Block, ghost g: Cfg, ghost home: Value -> Site) returns (r: Aliased)
    requires Proper(a, g, home) && b in a.code.layout && b != g.entry
    requires g.Preds(b) == {p} && p in a.code.blocks && b in a.code.blocks && |a.code.blocks[p].term.Calls()| == 1
    ensures MergedInto(a, r, g, home, p, b)
  {
    GuardReady(a, g, home, p, b);
    ghost var m := TheMerge(a, g, p, b);
    var log := AliasParams(a, p, b, m, home);
    var code := MoveInsts(a.code, p, b);
    r := Aliased(code, log);
    MergedView(a, m, log);
    MergeCorrect(a, r, m, home);
  }

  /** The one predecessor of a block, if there is one and it has no other target. */
  method OnlyPredecessor(s: Code, b: Block, ghost g: Cfg) returns (r: Option<Block>)
    requires s.layout != [] && s.Graph() == g
    ensures r.Some? <==> CanMerge(s, b)
    ensures r.Some? ==> g.Preds(b) == {r.value} && r.value in s.blocks && |s.blocks[r.value].term.Calls()| == 1
  {
    var preds := s.Graph().Preds(b);
    if |preds| != 1 {
      return None;
    }
    var p :| p in preds;
    Singleton(preds, p);
    if |s.blocks[p].term.Calls()| != 1 {
      return None;
    }
    r := Some(p);
  }

  datatype Mutation = Exhausted | Skipped | Merged(func: Aliased)

  class MergeBlocks {
    var block: Block
    var prev: Option<Block>

    constructor (a: Aliased)
      requires a.code.layout != []
      ensures block == a.code.layout[0] && prev == None
    {
      block, prev := a.code.layout[0], None;
    }

    /** Moves to the next block of the layout and merges it into its predecessor if
        that is its only one and jumps nowhere else. */
    method Mutate(a: Aliased, ghost g: Cfg, ghost home: Value -> Site) returns (r: Mutation)
      requires Proper(a, g, home)
      modifies this
      ensures Moves(a.code.layout, old(block), if r.Exhausted? then None else Some(block))
      ensures r.Exhausted? ==> block == old(block) && prev == old(prev)
      ensures !r.Exhausted? ==> block in a.code.layout
      ensures a.code.layout != [] && (r.Skipped? ==> !CanMerge(a.code, block) && prev == old(prev))
      ensures r.Merged? ==> CanMerge(a.code, block) && prev.Some? && g.Preds(block) == {prev.value}
      ensures r.Merged? ==> MergedInto(a, r.func, g, home, prev.value, block)
    {
      ViewGraph(a.code, a.log, g);
      NextMoves(a.code.layout, block);
      var next := NextBlock(a.code.layout, block);
      if next.None? {
        return Exhausted;
      }
      block := next.value;
      var p := OnlyPredecessor(a.code, block, g);
      if p.None? {
        return Skipped;
      }
      NotEntry(a.code.layout, old(block), block);
      var f := MergeInto(a, p.value, block, g, home);
      prev := p;
      r := Merged(f);
    }

    /** The merged function still crashes: go on from the predecessor. */
    method DidCrash()
      requires prev.Some?
      modifies this`block
      ensures block == prev.value
    {
      block := prev.value;
    }
  }

  lemma Singleton(s: set<Block>, p: Block)
    requires |s| == 1 && p in s
    ensures s == {p}
  {
    assert |s - {p}| == 0;
  }

  lemma NotEntry(layout: seq<Block>, b: Block, next: Block)
    requires Distinct(layout) && NextBlock(layout, b) == Some(next)
    ensures next != layout[0]
  {
  }

  // ----- the whole phase -----

  lemma RefinesTransitive(s: Code, s': Code, s'': Code, x: Machine, env: Env)
    requires Refines(s, s', x, env) && Refines(s', s'', x, env)
    ensures Refines(s, s'', x, env)
  {
    forall n: nat
      ensures Matched(s, s'', x, env, n)
    {
      assert Matched(s, s', x, env, n);
      var k: nat :| SameSoFar(Run(s, x, Start(s, env), n), Run(s', x, Start(s', env), k));
      assert Matched(s', s'', x, env, k);
      var j: nat :| SameSoFar(Run(s', x, Start(s', env), k), Run(s'', x, Start(s'', env), j));
      SameTransitive(Run(s, x, Start(s, env), n), Run(s', x, Start(s', env), k), Run(s'', x, Start(s'', env), j));
    }
  }

  lemma SameTransitive(a: State, b: State, c: State)
    requires SameSoFar(a, b) && SameSoFar(b, c)
    ensures SameSoFar(a, c)
  {
  }

  lemma BehaviourTransitive(s: Code, s': Code, s'': Code)
    requires SameBehaviour(s, s') && SameBehaviour(s', s'')
    ensures SameBehaviour(s, s'')
  {
    forall x: Machine, env: Env
      ensures Refines(s, s'', x, env) && Refines(s'', s, x, env)
    {
      assert Refines(s, s', x, env) && Refines(s', s'', x, env);
      RefinesTransitive(s, s', s'', x, env);
      RefinesTransitive(s'', s', s, x, env);
    }
  }

  lemma BehaviourReflexive(s: Code)
    requires s.layout != []
    ensures SameBehaviour(s, s)
  {
    forall x: Machine, env: Env
      ensures Refines(s, s, x, env)
    {
      forall n: nat
        ensures Matched(s, s, x, env, n)
      {
        assert SameSoFar(Run(s, x, Start(s, env), n), Run(s, x, Start(s, env), n));
      }
    }
  }

  /** The function still crashes, can still be merged, and behaves like `a0`. */
  ghost predicate InPhase(a0: Aliased, a: Aliased, crashes: Aliased -> bool, g: Cfg, home: Value -> Site) {
    crashes(a) && Proper(a, g, home) && SameBehaviour(View(a0.code, a0.log), View(a.code, a.log))
  }

  lemma KeepMerge(a0: Aliased, a: Aliased, a': Aliased, crashes: Aliased -> bool, g: Cfg, home: Value -> Site, p: Block,
                  b: Block)
    returns (g': Cfg, home': Value -> Site)
    requires InPhase(a0, a, crashes, g, home) && MergedInto(a, a', g, home, p, b) && crashes(a')
    ensures InPhase(a0, a', crashes, g', home') && p in a'.code.layout
  {
    g', home' := Contracted(g, p, b), NewHome(TheMerge(a, g, p, b), home);
    BehaviourTransitive(View(a0.code, a0.log), View(a.code, a.log), View(a'.code, a'.log));
  }
}
