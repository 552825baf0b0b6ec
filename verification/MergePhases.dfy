/** The reducer's merge phase: the course that it takes through the layout, and what it
    leaves unmerged. */
module MergePhases {
  import opened Graphs
  import opened Ir
  import opened Ssa
  import opened Execution
  import opened Merging
  import opened MergeSimulation
  import opened MergeInvariants
  import opened MergeBlocks

  // ----- the course of a phase -----

  /** One call of the mutator that was not exhausted: the function and the cursor before,
      the block that it moved to, and the merge into `pred` if there is one. */
  datatype Try = Try(func: Aliased, cursor: Block, block: Block, proposal: Option<Aliased>, pred: Block)

  /** The next block of the layout is tried, and a merge proposed exactly if it has one
      predecessor and that has no other target. */
  ghost predicate TriesNext(t: Try) {
    var s := t.func.code;
    && s.Laid() && Adjacent(s.layout, t.cursor, t.block)
    && (t.proposal.Some? <==> CanMerge(s, t.block))
    && (t.proposal.Some? ==> s.Graph().Preds(t.block) == {t.pred} && t.pred != t.block && t.pred in s.blocks
                             && t.block in s.blocks && t.proposal.value.code == Glue(s, t.pred, t.block))
  }

  ghost predicate IsTry(t: Try) {
    && TriesNext(t)
    && (t.proposal.Some? ==> IsMerge(t.proposal.value, TheMerge(t.func, t.func.code.Graph(), t.pred, t.block)))
  }

  /** Seen through its aliases, the function is the merged code. */
  ghost predicate IsMerge(a: Aliased, m: Merge) {
    m.Defined() && View(a.code, a.log) == m.Result()
  }

  predicate Accepted(crashes: Aliased -> bool, t: Try) {
    t.proposal.Some? && crashes(t.proposal.value)
  }

  /** The course of a phase from a new cursor: a merge that still crashes is kept, and
      the cursor goes on from the predecessor. */
  ghost predicate Course(crashes: Aliased -> bool, a0: Aliased, tries: seq<Try>, a: Aliased, cursor: Block)
    decreases |tries|
  {
    if tries == [] then a == a0 && a.code.layout != [] && cursor == a.code.layout[0]
    else
      var t := tries[|tries| - 1];
      && IsTry(t) && Course(crashes, a0, tries[..|tries| - 1], t.func, t.cursor)
      && a == (if Accepted(crashes, t) then t.proposal.value else t.func)
      && cursor == if Accepted(crashes, t) then t.pred else t.block
  }

  lemma CourseOn(crashes: Aliased -> bool, a0: Aliased, tries: seq<Try>, t: Try, a: Aliased, cursor: Block)
    requires Course(crashes, a0, tries, t.func, t.cursor) && IsTry(t)
    requires a == if Accepted(crashes, t) then t.proposal.value else t.func
    requires cursor == if Accepted(crashes, t) then t.pred else t.block
    ensures Course(crashes, a0, tries + [t], a, cursor)
  {
    assert (tries + [t])[..|tries|] == tries;
  }

  // ----- what a phase leaves -----

  /** The block was offered, and the merge lost the crash. */
  ghost predicate Rejected(crashes: Aliased -> bool, tries: seq<Try>, c: Block) {
    exists i :: 0 <= i < |tries| && tries[i].block == c && tries[i].proposal.Some? && !crashes(tries[i].proposal.value)
  }

  /** The merge went into a later block of the layout, and `c` is that block or one on the
      way to it. */
  ghost predicate Jumps(t: Try, c: Block) {
    var L := t.func.code.layout;
    exists i, j, k :: 0 <= i < k <= j < |L| && L[i] == t.block && L[j] == t.pred && L[k] == c
  }

  ghost predicate Skipped(crashes: Aliased -> bool, tries: seq<Try>, c: Block) {
    exists i :: 0 <= i < |tries| && Accepted(crashes, tries[i]) && Jumps(tries[i], c)
  }

  ghost predicate Excused(crashes: Aliased -> bool, tries: seq<Try>, c: Block) {
    Rejected(crashes, tries, c) || Skipped(crashes, tries, c)
  }

  /** Up to the cursor, every block that could be merged has been dealt with. */
  ghost predicate DoneTo(crashes: Aliased -> bool, tries: seq<Try>, a: Aliased, k: nat) {
    && a.code.Laid() && k < |a.code.layout|
    && forall j :: 0 < j <= k && CanMerge(a.code, a.code.layout[j]) ==> Excused(crashes, tries, a.code.layout[j])
  }

  lemma ExcusedLater(crashes: Aliased -> bool, tries: seq<Try>, t: Try, c: Block)
    requires Excused(crashes, tries, c)
    ensures Excused(crashes, tries + [t], c)
  {
    var longer := tries + [t];
    if Rejected(crashes, tries, c) {
      var i :| 0 <= i < |tries| && tries[i].block == c && tries[i].proposal.Some? && !crashes(tries[i].proposal.value);
      assert longer[i] == tries[i];
    } else {
      var i :| 0 <= i < |tries| && Accepted(crashes, tries[i]) && Jumps(tries[i], c);
      assert longer[i] == tries[i];
    }
  }

  /** Taking out the block at position `k`. */
  lemma {:induction false} WithoutAt(L: seq<Block>, k: nat)
    requires Distinct(L) && k < |L|
    ensures Without(L, L[k]) == L[..k] + L[k + 1..]
  {
    if k == 0 {
      WithoutNone(L[1..], L[0]);
    } else {
      assert L[1..][k - 1] == L[k] && L[0] != L[k];
      WithoutAt(L[1..], k - 1);
    }
  }

  lemma {:induction false} WithoutNone(L: seq<Block>, r: Block)
    requires r !in L
    ensures Without(L, r) == L
  {
    if L != [] {
      WithoutNone(L[1..], r);
    }
  }

  /** Moving the instructions contracts the graph. */
  lemma GlueGraph(s: Code, p: Block, b: Block)
    requires s.Laid() && p in s.layout && b in s.layout && p != b && b != s.layout[0]
    ensures Glue(s, p, b).Laid() && b in s.Graph().succ && Glue(s, p, b).Graph() == Contracted(s.Graph(), p, b)
  {
    WithoutLaid(s.layout, b);
    GlueAt(s, p, b);
    GraphOf(s);
    GlueHasGraph(s, s.Graph(), p, b, Glue(s, p, b));
    GraphUnique(Glue(s, p, b), Contracted(s.Graph(), p, b));
  }

  lemma GlueHasGraph(s: Code, g: Cfg, p: Block, b: Block, s': Code)
    requires HasGraph(s, g) && p in s.layout && b in s.layout && p != b && s'.Laid() && s'.layout[0] == s.layout[0]
    requires s'.layout == Without(s.layout, b) && s'.blocks.Keys == s.blocks.Keys - {b}
    requires s'.blocks[p].term == s.blocks[b].term
    requires forall c :: c in s.blocks && c != p && c != b ==> s'.blocks[c].term == s.blocks[c].term
    ensures HasGraph(s', Contracted(g, p, b))
  {
  }

  lemma GlueAt(s: Code, p: Block, b: Block)
    requires p in s.blocks && b in s.blocks && p != b
    ensures var s' := Glue(s, p, b);
            && s'.layout == Without(s.layout, b) && s'.blocks.Keys == s.blocks.Keys - {b}
            && s'.blocks[p].term == s.blocks[b].term
            && forall c :: c in s.blocks && c != p && c != b ==> s'.blocks[c].term == s.blocks[c].term
  {
  }

  lemma ContractedPreds(g: Cfg, p: Block, b: Block, c: Block)
    requires b in g.succ && p in g.succ && p != b && g.succ[p] == {b} && c != b
    ensures p !in g.Preds(c)
    ensures Contracted(g, p, b).Preds(c) == if b in g.Preds(c) then g.Preds(c) - {b} + {p} else g.Preds(c)
  {
  }

  lemma SingleTarget(t: Terminator, b: Block)
    requires |t.Calls()| == 1 && b in t.Targets()
    ensures t.Targets() == {b}
  {
    assert t.Dests()[0] == b;
  }

  /** A merge does not change whether another block can be merged. */
  lemma MergeElsewhere(s: Code, p: Block, b: Block, c: Block)
    requires s.Laid() && p in s.layout && b in s.layout && p != b && b != s.layout[0] && c != b
    requires s.Graph().Preds(b) == {p} && |s.blocks[p].term.Calls()| == 1
    ensures Glue(s, p, b).layout != [] && (CanMerge(Glue(s, p, b), c) <==> CanMerge(s, c))
  {
    var g, s' := s.Graph(), Glue(s, p, b);
    GlueGraph(s, p, b);
    assert p in g.Preds(b);
    SingleTarget(s.blocks[p].term, b);
    ContractedPreds(g, p, b, c);
    SamePredCalls(s, p, b, c);
  }

  lemma SameSize(P: set<Block>, P': set<Block>, p: Block, b: Block)
    requires p !in P && P' == if b in P then P - {b} + {p} else P
    ensures |P'| == |P|
    ensures |P| == 1 && b in P ==> P == {b} && P' == {p}
    ensures |P| == 1 && b !in P ==> P' == P && p !in P'
  {
    if |P| == 1 && b in P { Singleton(P, b); }
  }

  lemma CanMergeOne(s: Code, c: Block, x: Block)
    requires s.layout != [] && s.Graph().Preds(c) == {x}
    ensures CanMerge(s, c) <==> x in s.blocks && |s.blocks[x].term.Calls()| == 1
  {
    assert x in s.Graph().Preds(c);
  }

  lemma SamePredCalls(s: Code, p: Block, b: Block, c: Block)
    requires s.Laid() && p in s.blocks && b in s.blocks && p != b && Glue(s, p, b).layout != []
    requires p !in s.Graph().Preds(c)
    requires Glue(s, p, b).Graph().Preds(c)
          == if b in s.Graph().Preds(c) then s.Graph().Preds(c) - {b} + {p} else s.Graph().Preds(c)
    ensures CanMerge(Glue(s, p, b), c) <==> CanMerge(s, c)
  {
    var P, P' := s.Graph().Preds(c), Glue(s, p, b).Graph().Preds(c);
    GlueAt(s, p, b);
    SameSize(P, P', p, b);
    if |P| == 1 {
      var x :| x in P;
      Singleton(P, x);
      CanMergeOne(s, c, x);
      CanMergeOne(Glue(s, p, b), c, if x == b then p else x);
    }
  }

  /** One more try keeps everything up to the new cursor dealt with. */
  lemma DoneNext(crashes: Aliased -> bool, tries: seq<Try>, t: Try, k: nat)
    requires TriesNext(t) && !Accepted(crashes, t) && DoneTo(crashes, tries, t.func, k)
    requires k + 1 < |t.func.code.layout| && t.block == t.func.code.layout[k + 1]
    ensures DoneTo(crashes, tries + [t], t.func, k + 1)
  {
    var L := t.func.code.layout;
    forall j | 0 < j <= k + 1 && CanMerge(t.func.code, L[j])
      ensures Excused(crashes, tries + [t], L[j])
    {
      if j <= k {
        ExcusedLater(crashes, tries, t, L[j]);
      } else {
        assert (tries + [t])[|tries|] == t;
        assert Rejected(crashes, tries + [t], L[j]);
      }
    }
  }

  /** An accepted merge: what stands before the merged block stays, and what the cursor
      jumps over is recorded. */
  lemma DoneMerged(crashes: Aliased -> bool, tries: seq<Try>, t: Try, k: nat) returns (k': nat)
    requires TriesNext(t) && Accepted(crashes, t) && DoneTo(crashes, tries, t.func, k)
    requires k + 1 < |t.func.code.layout| && t.block == t.func.code.layout[k + 1]
    ensures DoneTo(crashes, tries + [t], t.proposal.value, k') && t.proposal.value.code.layout[k'] == t.pred
  {
    var s, p, b := t.func.code, t.pred, t.block;
    var L, L' := s.layout, Without(s.layout, b);
    assert p in s.Graph().Preds(b) && p in L;
    GlueGraph(s, p, b);
    WithoutAt(L, k + 1);
    var q :| 0 <= q < |L| && L[q] == p;
    k' := if q <= k then q else q - 1;
    TakenOut(L, k + 1, k');
    forall j | 0 < j <= k' && CanMerge(t.proposal.value.code, L'[j])
      ensures Excused(crashes, tries + [t], L'[j])
    {
      TakenOut(L, k + 1, j);
      MergedExcused(crashes, tries, t, k, q, if j <= k then j else j + 1);
    }
  }

  lemma TakenOut(L: seq<Block>, k: nat, j: nat)
    requires Distinct(L) && k < |L| && j < |L| - 1
    ensures |L[..k] + L[k + 1..]| == |L| - 1 && (L[..k] + L[k + 1..])[j] == L[if j < k then j else j + 1]
    ensures L[if j < k then j else j + 1] != L[k]
  {
  }

  /** A block up to the new cursor, by its position before the merge. */
  lemma MergedExcused(crashes: Aliased -> bool, tries: seq<Try>, t: Try, k: nat, q: nat, i: nat)
    requires TriesNext(t) && Accepted(crashes, t) && DoneTo(crashes, tries, t.func, k)
    requires k + 1 < |t.func.code.layout| && t.block == t.func.code.layout[k + 1]
    requires q < |t.func.code.layout| && t.func.code.layout[q] == t.pred
    requires 0 < i < |t.func.code.layout| && t.func.code.layout[i] != t.block && (i <= k || i <= q)
    requires t.proposal.value.code.layout != [] && CanMerge(t.proposal.value.code, t.func.code.layout[i])
    ensures Excused(crashes, tries + [t], t.func.code.layout[i])
  {
    var s, c := t.func.code, t.func.code.layout[i];
    assert t.pred in s.Graph().Preds(t.block);
    MergeElsewhere(s, t.pred, t.block, c);
    if i <= k {
      ExcusedLater(crashes, tries, t, c);
    } else {
      assert (tries + [t])[|tries|] == t && Jumps(t, c);
      assert Skipped(crashes, tries + [t], c);
    }
  }

  lemma {:induction false} CourseDone(crashes: Aliased -> bool, a0: Aliased, tries: seq<Try>, a: Aliased, cursor: Block)
    returns (k: nat)
    requires a0.code.Laid() && Course(crashes, a0, tries, a, cursor)
    ensures DoneTo(crashes, tries, a, k) && a.code.layout[k] == cursor
    decreases |tries|
  {
    if tries == [] {
      k := 0;
    } else {
      var before, t := CourseLast(crashes, a0, tries, a, cursor);
      k := CourseDone(crashes, a0, before, t.func, t.cursor);
      k := DoneStep(crashes, before, t, k);
    }
  }

  lemma CourseLast(crashes: Aliased -> bool, a0: Aliased, tries: seq<Try>, a: Aliased, cursor: Block)
    returns (before: seq<Try>, t: Try)
    requires Course(crashes, a0, tries, a, cursor) && tries != []
    ensures tries == before + [t] && TriesNext(t) && Course(crashes, a0, before, t.func, t.cursor)
    ensures a == (if Accepted(crashes, t) then t.proposal.value else t.func)
    ensures cursor == if Accepted(crashes, t) then t.pred else t.block
  {
    before, t := tries[..|tries| - 1], tries[|tries| - 1];
  }

  lemma DoneStep(crashes: Aliased -> bool, tries: seq<Try>, t: Try, k: nat) returns (k': nat)
    requires TriesNext(t) && DoneTo(crashes, tries, t.func, k) && t.func.code.layout[k] == t.cursor
    ensures var a := if Accepted(crashes, t) then t.proposal.value else t.func;
            DoneTo(crashes, tries + [t], a, k') && a.code.layout[k'] == if Accepted(crashes, t) then t.pred else t.block
  {
    NextAt(t.func.code.layout, k, t.block);
    if Accepted(crashes, t) {
      k' := DoneMerged(crashes, tries, t, k);
    } else {
      DoneNext(crashes, tries, t, k);
      k' := k + 1;
    }
  }

  lemma NextAt(L: seq<Block>, k: nat, c: Block)
    requires Distinct(L) && k < |L| && Adjacent(L, L[k], c)
    ensures k + 1 < |L| && L[k + 1] == c
  {
    var i :| 0 <= i < |L| - 1 && L[i] == L[k] && L[i + 1] == c;
    assert i == k;
  }

  /** Once the cursor is on the last block, every block that could still be merged lost
      the crash when it was tried, or was jumped over by a merge into a later block. */
  lemma LeftOver(crashes: Aliased -> bool, a0: Aliased, tries: seq<Try>, a: Aliased, cursor: Block, c: Block)
    requires a0.code.Laid() && Course(crashes, a0, tries, a, cursor)
    requires a.code.Laid() && AtEnd(a.code.layout, cursor)
    requires c in a.code.layout && c != a.code.layout[0] && CanMerge(a.code, c)
    ensures Rejected(crashes, tries, c) || Skipped(crashes, tries, c)
  {
    var k := CourseDone(crashes, a0, tries, a, cursor);
    var j :| 0 <= j < |a.code.layout| && a.code.layout[j] == c;
    assert k == |a.code.layout| - 1;
  }

  /** The phase so far. */
  ghost predicate Underway(crashes: Aliased -> bool, a0: Aliased, a: Aliased, g: Cfg, home: Value -> Site,
                           tries: seq<Try>, cursor: Block) {
    InPhase(a0, a, crashes, g, home) && Course(crashes, a0, tries, a, cursor) && cursor in a.code.layout
  }

  lemma PhaseStarts(crashes: Aliased -> bool, a: Aliased, g: Cfg, home: Value -> Site)
    requires Proper(a, g, home) && crashes(a)
    ensures a.code.Laid() && Underway(crashes, a, a, g, home, [], a.code.layout[0])
  {
    ViewGraph(a.code, a.log, g);
    ViewShape(a.code, a.log);
    BehaviourReflexive(View(a.code, a.log));
  }

  lemma PhaseEnds(crashes: Aliased -> bool, a0: Aliased, a: Aliased, g: Cfg, home: Value -> Site, tries: seq<Try>,
                     cursor: Block)
    requires Underway(crashes, a0, a, g, home, tries, cursor)
    ensures a.code.Laid() && crashes(a) && Proper(a, g, home) && Course(crashes, a0, tries, a, cursor)
    ensures SameBehaviour(View(a0.code, a0.log), View(a.code, a.log))
  {
    ViewGraph(a.code, a.log, g);
  }

  /** A proposal of the mutator, and what it amounts to if it is kept. */
  method Propose(mutator: MergeBlocks, a0: Aliased, a: Aliased, crashes: Aliased -> bool, ghost g: Cfg,
                 ghost home: Value -> Site)
    returns (r: Mutation, ghost g': Cfg, ghost home': Value -> Site, ghost t: Try)
    requires InPhase(a0, a, crashes, g, home) && mutator.block in a.code.layout
    modifies mutator
    ensures a.code.Laid() && mutator.block in a.code.layout
    ensures r.Merged? && crashes(r.func) ==>
              InPhase(a0, r.func, crashes, g', home') && mutator.prev.Some? && mutator.prev.value in r.func.code.layout
    ensures r.Exhausted? <==> AtEnd(a.code.layout, old(mutator.block))
    ensures r.Exhausted? ==> mutator.block == old(mutator.block)
    ensures !r.Exhausted? ==> IsTry(t) && t.func == a && t.cursor == old(mutator.block) && t.block == mutator.block
                              && t.proposal == (if r.Merged? then Some(r.func) else None)
                              && (r.Merged? ==> mutator.prev == Some(t.pred))
  {
    g', home' := g, home;
    ViewGraph(a.code, a.log, g);
    r := mutator.Mutate(a, g, home);
    t := TryOf(a, g, home, old(mutator.block), mutator.block, mutator.prev, r);
    if r.Merged? && crashes(r.func) {
      g', home' := KeepMerge(a0, a, r.func, crashes, g, home, mutator.prev.value, mutator.block);
    }
  }

  lemma TryOf(a: Aliased, g: Cfg, home: Value -> Site, cursor: Block, block: Block, prev: Option<Block>, r: Mutation)
    returns (t: Try)
    requires HasGraph(a.code, g) && a.code.Graph() == g && cursor in a.code.layout
    requires Moves(a.code.layout, cursor, if r.Exhausted? then None else Some(block))
    requires r.Skipped? ==> !CanMerge(a.code, block)
    requires r.Merged? ==> CanMerge(a.code, block) && prev.Some? && g.Preds(block) == {prev.value}
                           && MergedInto(a, r.func, g, home, prev.value, block)
    ensures r.Exhausted? <==> AtEnd(a.code.layout, cursor)
    ensures !r.Exhausted? ==> IsTry(t) && t.func == a && t.cursor == cursor && t.block == block
                              && t.proposal == (if r.Merged? then Some(r.func) else None)
                              && (r.Merged? ==> prev == Some(t.pred))
  {
    t := Try(a, cursor, block, if r.Merged? then Some(r.func) else None, if r.Merged? then prev.value else 0);
  }

  /** One iteration: a merge is kept if the function still crashes. */
  method MergeOnce(mutator: MergeBlocks, a0: Aliased, a: Aliased, crashes: Aliased -> bool, ghost g: Cfg,
                   ghost home: Value -> Site, ghost tries: seq<Try>)
    returns (more: bool, a': Aliased, ghost g': Cfg, ghost home': Value -> Site, ghost tries': seq<Try>)
    requires Underway(crashes, a0, a, g, home, tries, mutator.block)
    modifies mutator
    ensures Underway(crashes, a0, a', g', home', tries', mutator.block)
    ensures |tries'| == if more then |tries| + 1 else |tries|
    ensures more <==> !AtEnd(a.code.layout, old(mutator.block))
    ensures !more ==> AtEnd(a'.code.layout, mutator.block)
  {
    var r;
    ghost var t;
    r, g', home', t := Propose(mutator, a0, a, crashes, g, home);
    more := !r.Exhausted?;
    if r.Merged? && crashes(r.func) {
      a' := r.func;
      mutator.DidCrash();
    } else {
      a', g', home' := a, g, home;
    }
    tries' := tries;
    if more {
      tries' := tries + [t];
      CourseOn(crashes, a0, tries, t, a', mutator.block);
    }
  }

  /** The reducer's merge phase.  However the crash check answers, the function
      behaves as it did.  The blocks of the layout are tried one after the other, to the
      end unless the limit comes first. */
  method MergePhase(a0: Aliased, crashes: Aliased -> bool, limit: nat, ghost g0: Cfg, ghost home0: Value -> Site)
    returns (a: Aliased, cursor: Block, ghost g: Cfg, ghost home: Value -> Site, ghost tries: seq<Try>)
    requires Proper(a0, g0, home0) && crashes(a0)
    ensures crashes(a) && Proper(a, g, home)
    ensures SameBehaviour(View(a0.code, a0.log), View(a.code, a.log))
    ensures Course(crashes, a0, tries, a, cursor) && |tries| <= limit
    ensures a0.code.Laid() && (|tries| == limit || AtEnd(a.code.layout, cursor))
  {
    a, g, home, tries := a0, g0, home0, [];
    PhaseStarts(crashes, a0, g0, home0);
    var mutator := new MergeBlocks(a);
    var more, i := true, 0;
    while more && i < limit
      invariant fresh(mutator) && Underway(crashes, a0, a, g, home, tries, mutator.block)
      invariant if more then |tries| == i <= limit else |tries| <= limit && AtEnd(a.code.layout, mutator.block)
      decreases limit - i
    {
      more, a, g, home, tries := MergeOnce(mutator, a0, a, crashes, g, home, tries);
      i := i + 1;
    }
    cursor := mutator.block;
    PhaseEnds(crashes, a0, a, g, home, tries, cursor);
  }
}
