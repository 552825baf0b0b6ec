/** The control-flow constructor: redirecting the branches into and out of a
    block, and the recursion that keeps replacing a block of the newest region by
    a fresh region. */
module CfConstruct {
  import opened Graphs
  import opened Splicing
  import opened Regions
  import opened Ir
  import opened RegionBuilders

  // ----- terminators -----

  /** A branch with target `from` sent to `to` instead. */
  function Redirected(t: Terminator, from: Block, to: Block): Terminator {
    match t
    case Jump(_) => Jump(Plain(to))
    case Brif(c, a, b) =>
      if a.block == from then Brif(c, Plain(to), Plain(b.block)) else Brif(c, Plain(a.block), Plain(to))
    case BrTable(c, table) =>
      BrTable(c, seq(|table|, i requires 0 <= i < |table| =>
        if table[i].block == from then table[i].(block := to) else table[i]))
    case _ => t
  }

  lemma RedirectedDests(t: Terminator, from: Block, to: Block)
    requires t.Shaped() && t.NoArgs() && from in t.Dests()
    ensures var r := Redirected(t, from, to);
            |r.Dests()| == |t.Dests()| && r.NoArgs() &&
            forall i :: 0 <= i < |t.Dests()| ==>
              r.Dests()[i] == if t.Dests()[i] == from then to else t.Dests()[i]
  {
    if t.Brif? {
      assert t.Dests() == [t.onTrue.block, t.onFalse.block];
      assert t.Dests()[0] != t.Dests()[1];
    }
  }

  lemma RedirectSeq(d: seq<Block>, d': seq<Block>, from: Block, to: Block)
    requires Distinct(d) && from in d && to !in d
    requires |d'| == |d| && forall i :: 0 <= i < |d| ==> d'[i] == if d[i] == from then to else d[i]
    ensures Distinct(d') && Elements(d') == Redirect(Elements(d), from, to)
  {
    var k :| 0 <= k < |d| && d[k] == from;
    assert d'[k] == to;
    forall x | x in d && x != from
      ensures x in d'
    {
      var i :| 0 <= i < |d| && d[i] == x;
      assert d'[i] == x;
    }
  }

  /** Redirecting to a block that is not yet a target keeps the branch well shaped
      and changes just that target. */
  lemma RedirectedShape(t: Terminator, from: Block, to: Block)
    requires t.Shaped() && t.NoArgs() && from in t.Targets() && to !in t.Targets()
    ensures var r := Redirected(t, from, to);
            r.Shaped() && r.NoArgs() && r.Targets() == Redirect(t.Targets(), from, to)
    ensures Redirected(t, from, to).Conditional() <==> t.Conditional()
    ensures Redirected(t, from, to).Jump? <==> t.Jump?
  {
    RedirectedDests(t, from, to);
    RedirectSeq(t.Dests(), Redirected(t, from, to).Dests(), from, to);
  }

  /** The branch rebuilt from the ascending list of its targets. */
  function Rebuilt(t: Terminator): Terminator {
    RebuiltFrom(t, Ascending(t.Targets()))
  }

  function RebuiltFrom(t: Terminator, post: seq<Block>): Terminator {
    if |post| == 1 then Jump(Plain(post[0]))
    else if |post| == 2 && t.Brif? then Brif(t.cond, Plain(post[0]), Plain(post[1]))
    else if |post| >= 3 && t.BrTable? then
      BrTable(t.cond, seq(|post|, i requires 0 <= i < |post| => Plain(post[i])))
    else NoTerminator
  }

  lemma {:induction false} DistinctCount(d: seq<Block>)
    requires Distinct(d)
    ensures |Elements(d)| == |d|
  {
    if d != [] {
      DistinctCount(d[1..]);
      assert Elements(d) == {d[0]} + Elements(d[1..]);
    }
  }

  lemma TargetCount(t: Terminator)
    requires t.Shaped()
    ensures |t.Targets()| == |t.Calls()|
  {
    DistinctCount(t.Dests());
  }

  lemma AscendingDistinct(s: set<Block>)
    ensures Distinct(Ascending(s)) && Elements(Ascending(s)) == s
  {
  }

  lemma TableDests(c: Value, post: seq<Block>)
    ensures BrTable(c, seq(|post|, i requires 0 <= i < |post| => Plain(post[i]))).Dests() == post
  {
  }

  lemma RebuiltDests(t: Terminator, post: seq<Block>)
    requires t.Shaped() && |post| == |t.Calls()|
    ensures RebuiltFrom(t, post).Dests() == post && RebuiltFrom(t, post).NoArgs()
    ensures var r := RebuiltFrom(t, post);
            (r.Jump? <==> t.Jump?) && (r.Brif? <==> t.Brif?) && (r.BrTable? <==> t.BrTable?)
  {
    match t
    case Jump(_) =>
    case Brif(_, _, _) =>
    case BrTable(c, _) => TableDests(c, post);
  }

  /** Rebuilding a well-shaped branch keeps its targets and its kind. */
  lemma RebuiltShape(t: Terminator)
    requires t.Shaped()
    ensures |t.Targets()| == |t.Calls()|
    ensures var r := Rebuilt(t); r.Shaped() && r.NoArgs() && r.Targets() == t.Targets()
    ensures Rebuilt(t).Conditional() <==> t.Conditional()
    ensures Rebuilt(t).Jump? <==> t.Jump?
  {
    TargetCount(t);
    AscendingDistinct(t.Targets());
    RebuiltDests(t, Ascending(t.Targets()));
  }

  // ----- the two splice functions -----

  /** The branches of the blocks in `done` sent from `from` to `to`. */
  function PartlyRedirected(blocks: map<Block, BlockData>, done: set<Block>, from: Block,
                            to: Block): map<Block, BlockData> {
    map b | b in blocks ::
      if b in done then blocks[b].(term := Redirected(blocks[b].term, from, to)) else blocks[b]
  }

  function RedirectedBlocks(s: Code, from: Block, to: Block): map<Block, BlockData>
    requires s.layout != []
  {
    PartlyRedirected(s.blocks, s.Graph().Preds(from), from, to)
  }

  lemma RedirectStep(blocks: map<Block, BlockData>, done: set<Block>, from: Block, to: Block, pre: Block)
    requires pre in blocks && pre !in done
    ensures var d := blocks[pre].(term := Redirected(blocks[pre].term, from, to));
            PartlyRedirected(blocks, done + {pre}, from, to) == PartlyRedirected(blocks, done, from, to)[pre := d]
  {
  }

  /** Rewrites one branch; the cases in which the constructor would panic are
      shown unreachable. */
  method RedirectBranch(f: Func, pre: Block, block: Block, replaced: Block)
    requires pre in f.blocks && f.blocks[pre].term.Shaped() && replaced in f.blocks[pre].term.Dests()
    modifies f`blocks
    ensures f.blocks == old(f.blocks)[pre := old(f.blocks)[pre].(term := Redirected(old(f.blocks)[pre].term, replaced,
                                                                                    block))]
  {
    var t := f.blocks[pre].term;
    assert t.Brif? ==> t.Dests() == [t.onTrue.block, t.onFalse.block];
    match t {
      case Brif(c, a, e) =>
        if a.block == replaced {
          f.Terminate(pre, Brif(c, Plain(block), Plain(e.block)));
        } else if e.block == replaced {
          f.Terminate(pre, Brif(c, Plain(a.block), Plain(block)));
        } else {
          assert false;
        }
      case BrTable(c, table) =>
        f.Terminate(pre, BrTable(c, seq(|table|, k requires 0 <= k < |table| =>
          if table[k].block == replaced then table[k].(block := block) else table[k])));
      case Jump(_) =>
        f.Terminate(pre, Jump(Plain(block)));
      case _ =>
        assert false;
    }
  }

  /** Sends every branch into `replaced` to `block`. */
  method UpdatePredecessor(f: Func, block: Block, replaced: Block)
    requires f.State().Laid()
    requires forall b :: b in f.layout && replaced in f.blocks[b].term.Targets() ==> f.blocks[b].term.Shaped()
    modifies f`blocks
    ensures f.blocks == RedirectedBlocks(old(f.State()), replaced, block)
  {
    var preds := Ascending(f.State().Graph().Preds(replaced));
    Listed(preds, f.State().Graph().Preds(replaced));
    PredecessorShapes(f.State(), preds, replaced);
    RedirectAll(f, preds, block, replaced);
  }

  lemma Listed(preds: seq<Block>, s: set<Block>)
    requires forall b :: b in preds <==> b in s
    ensures Elements(preds) == s
  {
  }

  lemma PredecessorShapes(s: Code, preds: seq<Block>, replaced: Block)
    requires s.Laid() && Elements(preds) == s.Graph().Preds(replaced)
    requires forall b :: b in s.layout && replaced in s.blocks[b].term.Targets() ==> s.blocks[b].term.Shaped()
    ensures forall i :: 0 <= i < |preds| ==> preds[i] in s.blocks && Redirectable(s.blocks[preds[i]], replaced)
  {
    forall i | 0 <= i < |preds|
      ensures preds[i] in s.blocks && Redirectable(s.blocks[preds[i]], replaced)
    {
      assert preds[i] in Elements(preds);
    }
  }

  predicate Redirectable(d: BlockData, replaced: Block) {
    d.term.Shaped() && replaced in d.term.Dests()
  }

  /** The listed predecessors, one by one. */
  method RedirectAll(f: Func, preds: seq<Block>, block: Block, replaced: Block)
    requires StrictlyAscending(preds)
    requires forall i :: 0 <= i < |preds| ==> preds[i] in f.blocks && Redirectable(f.blocks[preds[i]], replaced)
    modifies f`blocks
    ensures f.blocks == PartlyRedirected(old(f.blocks), Elements(preds), replaced, block)
  {
    ghost var before := f.blocks;
    NoneRedirected(before, replaced, block);
    for i := 0 to |preds|
      invariant f.blocks == PartlyRedirected(before, Elements(preds[..i]), replaced, block)
    {
      OneMore(preds, i);
      RedirectNext(f, preds[i], block, replaced, before, Elements(preds[..i]));
    }
    assert preds[..|preds|] == preds;
  }

  lemma NoneRedirected(blocks: map<Block, BlockData>, from: Block, to: Block)
    ensures PartlyRedirected(blocks, Elements([]), from, to) == blocks
  {
  }

  lemma OneMore(preds: seq<Block>, i: nat)
    requires i < |preds| && StrictlyAscending(preds)
    ensures preds[i] !in Elements(preds[..i]) && Elements(preds[..i + 1]) == Elements(preds[..i]) + {preds[i]}
  {
    assert preds[..i + 1] == preds[..i] + [preds[i]];
  }

  /** One more predecessor. */
  method RedirectNext(f: Func, pre: Block, block: Block, replaced: Block, ghost before: map<Block, BlockData>,
                      ghost done: set<Block>)
    requires f.blocks == PartlyRedirected(before, done, replaced, block) && pre !in done
    requires pre in before && Redirectable(before[pre], replaced)
    modifies f`blocks
    ensures f.blocks == PartlyRedirected(before, done + {pre}, replaced, block)
  {
    RedirectStep(before, done, replaced, block, pre);
    RedirectBranch(f, pre, block, replaced);
  }

  lemma TableOf(post: seq<Block>)
    requires post != []
    ensures [Plain(post[0])] + seq(|post| - 1, i requires 0 <= i < |post| - 1 => Plain(post[i + 1]))
         == seq(|post|, i requires 0 <= i < |post| => Plain(post[i]))
  {
  }

  /** The branch `t` rebuilt from the list of its targets; the cases in which the
      constructor would panic are shown unreachable. */
  method RebuildBranch(t: Terminator) returns (r: Terminator)
    requires t.Shaped()
    ensures r == Rebuilt(t)
  {
    TargetCount(t);
    var post := Ascending(t.Targets());
    r := NoTerminator;
    if |post| == 1 {
      r := Jump(Plain(post[0]));
    } else if |post| == 2 {
      match t {
        case Brif(c, _, _) => r := Brif(c, Plain(post[0]), Plain(post[1]));
        case _ => assert false;
      }
    } else if |post| >= 3 {
      match t {
        case BrTable(c, _) =>
          r := BrTable(c, [Plain(post[0])] + seq(|post| - 1, i requires 0 <= i < |post| - 1 => Plain(post[i + 1])));
          TableOf(post);
        case _ => assert false;
      }
    }
  }

  /** Moves the branch out of `replaced` to the end of `block` and removes
      `replaced` from the layout. */
  method UpdateSuccessor(f: Func, block: Block, replaced: Block)
    requires replaced in f.blocks && block in f.blocks && block != replaced
    requires f.blocks[replaced].term.Shaped()
    modifies f`blocks, f`layout
    ensures f.layout == Without(old(f.layout), replaced)
    ensures var d := old(f.blocks)[replaced];
            f.blocks == old(f.blocks)[replaced := d.(term := NoTerminator)]
                          [block := old(f.blocks)[block].(term := Rebuilt(d.term))]
  {
    var t := f.blocks[replaced].term;
    f.Terminate(replaced, NoTerminator);
    var r := RebuildBranch(t);
    f.Terminate(block, r);
    f.layout := Without(f.layout, replaced);
  }

  // ----- one step -----

  /** The layout and the branches are in order. */
  ghost predicate Wired(s: Code, exit: Block) {
    && s.Laid() && Fresh(s)
    && exit in s.layout && s.blocks[exit] == OPEN
    && (forall b :: b in s.layout && b != exit ==> IsBranch(s.blocks[b]))
    && s.blocks[s.layout[0]].term.Jump?
  }

  /** What every state of the constructor satisfies. */
  ghost predicate Generated(s: Code, exit: Block) {
    Wired(s, exit) && EntryFree(s.Graph()) && Structured(s.Graph(), exit)
  }

  /** The state after both splice functions. */
  function Spliced(s: Code, r: Block, first: Block, last: Block): Code
    requires s.layout != [] && r in s.blocks && last in s.blocks
  {
    var B := RedirectedBlocks(s, r, first);
    s.(layout := Without(s.layout, r),
       blocks := B[r := B[r].(term := NoTerminator)][last := B[last].(term := Rebuilt(B[r].term))])
  }

  lemma GrownLayout(s: Code, s1: Code, R: Cfg, last: Block)
    requires s.Laid() && Fresh(s) && Grown(s, s1, R, last)
    ensures forall b :: b in s1.layout <==> b in s.layout || b in R.succ
    ensures forall b :: b in s.layout ==> b !in R.succ && b in s1.blocks && s1.blocks[b] == s.blocks[b]
    ensures s1.layout != [] && s1.layout[0] == s.layout[0] && s1.Laid()
  {
    var extra := s1.layout[|s.layout|..];
    assert s1.layout == s.layout + extra;
    assert Distinct(s1.layout) by {
      forall i, j | 0 <= i < j < |s1.layout|
        ensures s1.layout[i] != s1.layout[j]
      {
        if i < |s.layout| <= j {
          assert s1.layout[i] in s.layout && s1.layout[j] in extra;
        } else if i >= |s.layout| {
          assert s1.layout[i] == extra[i - |s.layout|] && s1.layout[j] == extra[j - |s.layout|];
        }
      }
    }
  }

  /** The situation between building a region and splicing it in. */
  ghost predicate Pending(s: Code, g: Cfg, s1: Code, r: Block, R: Cfg, last: Block, exit: Block) {
    && Wired(s, exit) && HasGraph(s, g) && Spliceable(g, r, R, last) && Grown(s, s1, R, last)
    && r != exit
  }

  lemma PredsAt(s: Code, r: Block, b: Block)
    requires s.layout != []
    ensures b in s.Graph().Preds(r) <==> b in s.layout && b in s.blocks && r in s.blocks[b].term.Targets()
  {
  }

  lemma RegionTargets(D: map<Block, BlockData>, R: Cfg, last: Block, b: Block)
    requires Realises(D, R, last) && R.Valid() && b in R.succ
    ensures D[b].term.Targets() <= R.succ.Keys
  {
    assert OPEN.term.Targets() == {};
  }

  lemma PendingPreds(s: Code, g: Cfg, s1: Code, r: Block, R: Cfg, last: Block, exit: Block, b: Block)
    requires Pending(s, g, s1, r, R, last, exit)
    ensures s1.layout != []
    ensures b in s1.Graph().Preds(r) <==> g.Edge(b, r)
  {
    GrownLayout(s, s1, R, last);
    PredsAt(s1, r, b);
    if b in R.succ { RegionTargets(s1.blocks, R, last, b); }
  }

  lemma RedirectedBranch(d: BlockData, from: Block, to: Block)
    requires IsBranch(d) && from in d.term.Targets() && to !in d.term.Targets()
    ensures var d' := d.(term := Redirected(d.term, from, to));
            IsBranch(d') && d'.term.Targets() == Redirect(d.term.Targets(), from, to)
                && (d.term.Jump? ==> d'.term.Jump?)
  {
    RedirectedShape(d.term, from, to);
  }

  /** What the splice leaves at each block. */
  lemma SplicedAt(s: Code, r: Block, first: Block, last: Block, b: Block)
    requires s.layout != [] && r in s.blocks && last in s.blocks && b in s.blocks
    requires r != last && b != r && r !in s.Graph().Preds(r)
    ensures var d := s.blocks[b];
            var d' := if b in s.Graph().Preds(r) then d.(term := Redirected(d.term, r, first)) else d;
            var s3 := Spliced(s, r, first, last);
            b in s3.blocks && s3.blocks[b] == if b == last then d'.(term := Rebuilt(s.blocks[r].term)) else d'
  {
  }

  lemma SurvivorBlock(s: Code, g: Cfg, s1: Code, r: Block, R: Cfg, last: Block, exit: Block, b: Block)
    requires Pending(s, g, s1, r, R, last, exit) && b in g.succ && b != r
    ensures s1.layout != [] && r in s1.blocks && last in s1.blocks
    ensures var s3 := Spliced(s1, r, R.entry, last);
            b in s3.blocks && s3.blocks[b] == if r in g.succ[b]
              then s.blocks[b].(term := Redirected(s.blocks[b].term, r, R.entry)) else s.blocks[b]
  {
    GrownLayout(s, s1, R, last);
    PendingPreds(s, g, s1, r, R, last, exit, b);
    PendingPreds(s, g, s1, r, R, last, exit, r);
    SplicedAt(s1, r, R.entry, last, b);
  }

  lemma SpliceNeeds(s: Code, g: Cfg, s1: Code, r: Block, R: Cfg, last: Block, exit: Block)
    requires Pending(s, g, s1, r, R, last, exit)
    ensures s1.layout != [] && r in s1.blocks && last in s1.blocks && r != last && r !in s1.Graph().Preds(r)
    ensures s1.blocks[r] == s.blocks[r] && IsBranch(s.blocks[r]) && s.blocks[r].term.Targets() == g.succ[r]
  {
    GrownLayout(s, s1, R, last);
    PendingPreds(s, g, s1, r, R, last, exit, r);
  }

  lemma RegionBlock(s: Code, g: Cfg, s1: Code, r: Block, R: Cfg, last: Block, exit: Block, b: Block)
    requires Pending(s, g, s1, r, R, last, exit) && b in R.succ
    ensures s1.layout != [] && r in s1.blocks && last in s1.blocks
    ensures b in Spliced(s1, r, R.entry, last).blocks && b in s1.blocks
    ensures Spliced(s1, r, R.entry, last).blocks[b]
      == if b == last then s1.blocks[b].(term := Rebuilt(s1.blocks[r].term)) else s1.blocks[b]
  {
    SpliceNeeds(s, g, s1, r, R, last, exit);
    PendingPreds(s, g, s1, r, R, last, exit, b);
    SplicedAt(s1, r, R.entry, last, b);
  }

  lemma RebuiltFits(d: BlockData)
    requires IsBranch(d)
    ensures Fits(OPEN.(term := Rebuilt(d.term)), false, d.term.Targets())
  {
    RebuiltShape(d.term);
  }

  /** The block's data fit the graph at `b`. */
  ghost predicate Fits(d: BlockData, isExit: bool, targets: set<Block>) {
    (if isExit then d == OPEN else IsBranch(d)) && d.term.Targets() == targets
  }

  lemma RealisedFits(D: map<Block, BlockData>, R: Cfg, last: Block, b: Block)
    requires Realises(D, R, last) && b in R.succ && b != last
    ensures Fits(D[b], false, R.succ[b])
  {
  }

  lemma PendingOpen(s: Code, g: Cfg, s1: Code, r: Block, R: Cfg, last: Block, exit: Block)
    requires Pending(s, g, s1, r, R, last, exit)
    ensures last in s1.blocks && s1.blocks[last] == OPEN
  {
  }

  lemma RegionBlockFits(s: Code, g: Cfg, s1: Code, r: Block, R: Cfg, last: Block, exit: Block, b: Block)
    requires Pending(s, g, s1, r, R, last, exit) && b in R.succ
    ensures s1.layout != [] && r in s1.blocks && last in s1.blocks && b in Spliced(s1, r, R.entry, last).blocks
    ensures Fits(Spliced(s1, r, R.entry, last).blocks[b], false, if b == last then g.succ[r] else R.succ[b])
  {
    RegionBlock(s, g, s1, r, R, last, exit, b);
    if b == last {
      SpliceNeeds(s, g, s1, r, R, last, exit);
      RebuiltFits(s1.blocks[r]);
      PendingOpen(s, g, s1, r, R, last, exit);
    } else {
      RealisedFits(s1.blocks, R, last, b);
    }
  }

  lemma SurvivorBlockFits(s: Code, g: Cfg, s1: Code, r: Block, R: Cfg, last: Block, exit: Block, b: Block)
    requires Pending(s, g, s1, r, R, last, exit) && b in g.succ && b != r
    ensures s1.layout != [] && r in s1.blocks && last in s1.blocks && b in Spliced(s1, r, R.entry, last).blocks
    ensures var d := Spliced(s1, r, R.entry, last).blocks[b];
            Fits(d, b == exit, Redirect(g.succ[b], r, R.entry)) && (s.blocks[b].term.Jump? ==> d.term.Jump?)
  {
    SurvivorBlock(s, g, s1, r, R, last, exit, b);
    if r in g.succ[b] {
      assert OPEN.term.Targets() == {};
      RedirectedBranch(s.blocks[b], r, R.entry);
    }
  }

  lemma SplicedBlock(s: Code, g: Cfg, s1: Code, r: Block, R: Cfg, last: Block, exit: Block, b: Block)
    requires Pending(s, g, s1, r, R, last, exit) && b in Splice(g, r, R, last).succ
    ensures s1.layout != [] && r in s1.blocks && last in s1.blocks && b in Spliced(s1, r, R.entry, last).blocks
    ensures Fits(Spliced(s1, r, R.entry, last).blocks[b], b == exit, Splice(g, r, R, last).succ[b])
  {
    if b in R.succ {
      RegionBlockFits(s, g, s1, r, R, last, exit, b);
    } else {
      SurvivorBlockFits(s, g, s1, r, R, last, exit, b);
    }
  }

  lemma SplicedLayout(s: Code, g: Cfg, s1: Code, r: Block, R: Cfg, last: Block, exit: Block)
    requires Pending(s, g, s1, r, R, last, exit)
    ensures s1.layout != [] && r in s1.blocks && last in s1.blocks
    ensures var L := Without(s1.layout, r);
            L != [] && L[0] == s.layout[0] && Distinct(L)
            && (forall b :: b in L <==> b in Splice(g, r, R, last).succ)
  {
    GrownLayout(s, s1, R, last);
    WithoutLaid(s1.layout, r);
  }

  lemma SplicedWired(s: Code, g: Cfg, s1: Code, r: Block, R: Cfg, last: Block, exit: Block)
    requires Pending(s, g, s1, r, R, last, exit)
    ensures s1.layout != [] && r in s1.blocks && last in s1.blocks
    ensures Wired(Spliced(s1, r, R.entry, last), exit)
    ensures HasGraph(Spliced(s1, r, R.entry, last), Splice(g, r, R, last))
  {
    SplicedLayout(s, g, s1, r, R, last, exit);
    var s3, g' := Spliced(s1, r, R.entry, last), Splice(g, r, R, last);
    forall b | b in g'.succ
      ensures b in s3.blocks && Fits(s3.blocks[b], b == exit, g'.succ[b])
    {
      SplicedBlock(s, g, s1, r, R, last, exit, b);
    }
    SurvivorBlockFits(s, g, s1, r, R, last, exit, g.entry);
    GrownFresh(s, s1, R, last);
    SplicedFresh(s1, r, R.entry, last);
  }

  lemma GrownFresh(s: Code, s1: Code, R: Cfg, last: Block)
    requires s.Laid() && Fresh(s) && Grown(s, s1, R, last)
    ensures Fresh(s1)
  {
    GrownLayout(s, s1, R, last);
  }

  lemma SplicedFresh(s: Code, r: Block, first: Block, last: Block)
    requires Fresh(s) && s.layout != [] && r in s.blocks && last in s.blocks
    ensures Fresh(Spliced(s, r, first, last))
  {
    SplicedKeys(s, r, first, last);
  }

  lemma SplicedKeys(s: Code, r: Block, first: Block, last: Block)
    requires s.layout != [] && r in s.blocks && last in s.blocks
    ensures Spliced(s, r, first, last).blocks.Keys == s.blocks.Keys
  {
  }

  /** Replacing a block of a generated function by a region leaves a generated
      function with the same exit, whose graph is the spliced graph. */
  lemma SplicedGenerated(s: Code, s1: Code, r: Block, R: Cfg, last: Block, exit: Block)
    requires Generated(s, exit) && Grown(s, s1, R, last) && Structured(R, last)
    requires r in s.layout && r != s.layout[0] && r != exit
    ensures s1.layout != [] && r in s1.blocks && last in s1.blocks
    ensures var s3 := Spliced(s1, r, R.entry, last);
            Generated(s3, exit) && s3.Graph() == Splice(s.Graph(), r, R, last)
  {
    var g := s.Graph();
    GraphOf(s);
    GrownLayout(s, s1, R, last);
    assert Pending(s, g, s1, r, R, last, exit);
    SplicedWired(s, g, s1, r, R, last, exit);
    GraphUnique(Spliced(s1, r, R.entry, last), Splice(g, r, R, last));
    SpliceEntryFree(g, r, R, last);
    SpliceStructured(g, exit, r, R, last);
  }

  // ----- the constructor -----

  /** `region`, with graph `R`, has just been appended to `s`. */
  ghost predicate Appends(s: Code, s': Code, region: Region, R: Cfg) {
    && (region.Sequential? ==> region.blocks != [])
    && Grown(s, s', R, region.Last()) && Structured(R, region.Last())
    && R.entry == region.First() && region.Candidates() <= R.succ.Keys
  }

  /** `region` names the ends and some blocks of the graph `R`. */
  ghost predicate Names(region: Region, R: Cfg, last: Block) {
    && (region.Sequential? ==> region.blocks != [])
    && region.First() == R.entry && region.Last() == last
    && region.Candidates() <= R.succ.Keys
  }

  lemma AppendsFrom(s: Code, s': Code, region: Region, R: Cfg, last: Block)
    requires Names(region, R, last) && Grown(s, s', R, last) && Structured(R, last)
    ensures Appends(s, s', region, R)
  {
  }

  lemma SequentialEnds(b: Block, n: nat, last: Block, region: Region)
    requires n >= 2 && last == b + n - 1 && region == Sequential(Consecutive(b, n))
    ensures Names(region, SequentialGraph(b, n), last)
  {
  }

  lemma SequentialAppends(s: Code, s': Code, b: Block, n: nat, last: Block, region: Region, R: Cfg)
    requires n >= 2 && b == s.nextBlock && s' == Chained(s, n, n) && region == Sequential(Consecutive(b, n))
    requires last == b + n - 1 && R == SequentialGraph(b, n)
    ensures Appends(s, s', region, R)
  {
    assert Names(region, R, last) by { SequentialEnds(b, n, last, region); }
    assert Grown(s, s', R, last) by { SequentialGrows(s, s', b, n, last, R); }
    assert Structured(R, last) by { SequentialStructured(b, n, last); }
    AppendsFrom(s, s', region, R, last);
  }

  /** A region of the right size is appended, with its graph and its branches. */
  ghost predicate Child(s: Code, s': Code, region: Region, R: Cfg) {
    exists c :: ChildWith(s, s', region, R, c)
  }

  ghost predicate ChildWith(s: Code, s': Code, region: Region, R: Cfg, c: Value) {
    Appends(s, s', region, R) && Draws(region, R) && CodesWith(s'.blocks, region, c)
  }

  lemma ChildFrom(s: Code, s': Code, region: Region, R: Cfg)
    requires Appends(s, s', region, R) && Draws(region, R) && Codes(s'.blocks, region)
    ensures Child(s, s', region, R)
  {
    var c :| CodesWith(s'.blocks, region, c);
    assert ChildWith(s, s', region, R, c);
  }

  lemma ChildFacts(s: Code, s': Code, region: Region, R: Cfg)
    requires Child(s, s', region, R)
    ensures Appends(s, s', region, R) && Draws(region, R) && Codes(s'.blocks, region)
  {
  }

  lemma SequentialIsChild(s: Code, s': Code, b: Block, n: nat, region: Region, R: Cfg)
    requires 2 <= n < 5 && b == s.nextBlock && s' == Chained(s, n, n) && region == Sequential(Consecutive(b, n))
    requires R == SequentialGraph(b, n)
    ensures Child(s, s', region, R)
  {
    SequentialDraws(b, n);
    SequentialCodes(s.blocks, b, n);
    SequentialAppends(s, s', b, n, b + n - 1, region, R);
    ChildFrom(s, s', region, R);
  }

  lemma IfElseIsChild(s: Code, s': Code, b: Block, c: Value, region: Region, R: Cfg)
    requires b == s.nextBlock && s' == Appended(s, 4, 1, Consecutive(b, 4), IfElseData(b, c))
    requires region == IfElse(b, b + 1, b + 2, b + 3) && R == IfElseGraph(b)
    ensures Child(s, s', region, R)
  {
    IfElseDraws(b);
    IfElseCodes(s.blocks, b, c);
    IfElseAppends(s, s', b, c, region);
    ChildFrom(s, s', region, R);
  }

  lemma WhileIsChild(s: Code, s': Code, b: Block, c: Value, region: Region, R: Cfg)
    requires b == s.nextBlock && s' == Appended(s, 3, 1, Consecutive(b, 3), WhileData(b, c))
    requires region == While(b, b + 1, b + 2) && R == WhileGraph(b)
    ensures Child(s, s', region, R)
  {
    WhileDraws(b);
    WhileCodes(s.blocks, b, c);
    WhileAppends(s, s', b, c, region);
    ChildFrom(s, s', region, R);
  }

  lemma SwitchIsChild(s: Code, s': Code, b: Block, k: nat)
    requires 6 <= k < 9 && b == s.nextBlock && SwitchBuilt(s, s', k)
    ensures Child(s, s', Fan(b, k), SwitchGraph(b, k))
  {
    SwitchDraws(b, k);
    SwitchCodes(s, s', b, k);
    SwitchAppended(s, s', b, s.nextValue, k, Fan(b, k));
    ChildFrom(s, s', Fan(b, k), SwitchGraph(b, k));
  }

  method SequentialChild(f: Func) returns (region: Region, ghost R: Cfg)
    modifies f
    ensures region.Sequential? && Child(old(f.State()), f.State(), region, R)
  {
    var n: nat :| 2 <= n < 5;
    region := BuildSequential(f, n);
    R := SequentialGraph(old(f.nextBlock), n);
    SequentialIsChild(old(f.State()), f.State(), old(f.nextBlock), n, region, R);
  }

  method IfElseChild(f: Func) returns (region: Region, ghost R: Cfg)
    modifies f
    ensures region.IfElse? && Child(old(f.State()), f.State(), region, R)
  {
    region := BuildIfElse(f);
    R := IfElseGraph(old(f.nextBlock));
    IfElseIsChild(old(f.State()), f.State(), old(f.nextBlock), old(f.nextValue), region, R);
  }

  method WhileChild(f: Func) returns (region: Region, ghost R: Cfg)
    modifies f
    ensures region.While? && Child(old(f.State()), f.State(), region, R)
  {
    region := BuildWhile(f);
    R := WhileGraph(old(f.nextBlock));
    WhileIsChild(old(f.State()), f.State(), old(f.nextBlock), old(f.nextValue), region, R);
  }

  method SwitchChild(f: Func) returns (region: Region, ghost R: Cfg)
    modifies f
    ensures region.Switch? && Child(old(f.State()), f.State(), region, R)
  {
    var k: nat :| 6 <= k < 9;
    region := BuildSwitch(f, k);
    R := SwitchGraph(old(f.nextBlock), k);
    SwitchIsChild(old(f.State()), f.State(), old(f.nextBlock), k);
  }

  lemma IfElseAppends(s: Code, s': Code, b: Block, c: Value, region: Region)
    requires b == s.nextBlock && s' == Appended(s, 4, 1, Consecutive(b, 4), IfElseData(b, c))
    requires region == IfElse(b, b + 1, b + 2, b + 3)
    ensures Appends(s, s', region, IfElseGraph(b))
  {
    assert region.First() == b && region.Last() == b + 3;
    assert region.Candidates() <= IfElseGraph(b).succ.Keys;
    IfElseGrows(s, s', b, c);
    IfElseStructured(b);
  }

  lemma WhileAppends(s: Code, s': Code, b: Block, c: Value, region: Region)
    requires b == s.nextBlock && s' == Appended(s, 3, 1, Consecutive(b, 3), WhileData(b, c))
    requires region == While(b, b + 1, b + 2)
    ensures Appends(s, s', region, WhileGraph(b))
  {
    assert region.First() == b && region.Last() == b + 2;
    assert region.Candidates() <= WhileGraph(b).succ.Keys;
    WhileGrows(s, s', b, c);
    WhileStructured(b);
  }

  lemma SwitchEnds(b: Block, k: nat, region: Region)
    requires region == Switch(b, b + 1, Consecutive(b + 3, k), b + 2)
    ensures Names(region, SwitchGraph(b, k), b + 2)
  {
    ConsecutiveMembers(b + 3, k);
  }

  lemma SwitchAppended(s: Code, s': Code, b: Block, c: Value, k: nat, region: Region)
    requires k >= 2 && b == s.nextBlock && c == s.nextValue && SwitchBuilt(s, s', k) && region == Fan(b, k)
    ensures Appends(s, s', region, SwitchGraph(b, k))
  {
    SwitchEnds(b, k, region);
    SwitchGrows(s, s', b, c, k, SwitchTable(b + 1, Consecutive(b + 3, k)), SwitchLayout(b, k));
    SwitchStructured(b, k);
    AppendsFrom(s, s', region, SwitchGraph(b, k), b + 2);
  }

  /** Builds one region of a random shape. */
  method BuildChild(f: Func) returns (region: Region, ghost R: Cfg)
    modifies f
    ensures Child(old(f.State()), f.State(), region, R)
  {
    var choice :| 0 <= choice <= 3;
    if choice == 0 {
      region, R := SequentialChild(f);
    } else if choice == 1 {
      region, R := IfElseChild(f);
    } else if choice == 2 {
      region, R := WhileChild(f);
    } else {
      region, R := SwitchChild(f);
    }
  }

  /** Blocks that a later step may replace are inside the function and are neither
      its entry nor its exit. */
  ghost predicate Replaceable(s: Code, exit: Block, bs: set<Block>) {
    s.layout != [] && forall b :: b in bs ==> b in s.layout && b != s.layout[0] && b != exit
  }

  /** Redirects the branches into and out of `replaced` around it. */
  method SpliceIn(f: Func, first: Block, last: Block, replaced: Block)
    requires f.State().Laid() && replaced in f.blocks && last in f.blocks && last != replaced
    requires forall b :: b in f.layout && replaced in f.blocks[b].term.Targets() ==> f.blocks[b].term.Shaped()
    requires replaced !in f.State().Graph().Preds(replaced) && f.blocks[replaced].term.Shaped()
    modifies f`blocks, f`layout
    ensures f.State() == Spliced(old(f.State()), replaced, first, last)
  {
    UpdatePredecessor(f, first, replaced);
    UpdateSuccessor(f, last, replaced);
  }

  lemma PendingShapes(s: Code, g: Cfg, s1: Code, r: Block, R: Cfg, last: Block, exit: Block)
    requires Pending(s, g, s1, r, R, last, exit)
    ensures forall b :: b in s1.layout && b in s1.blocks && r in s1.blocks[b].term.Targets() ==>
              s1.blocks[b].term.Shaped()
  {
    forall b | b in s1.layout && b in s1.blocks && r in s1.blocks[b].term.Targets()
      ensures s1.blocks[b].term.Shaped()
    {
      PendingShape(s, g, s1, r, R, last, exit, b);
    }
  }

  lemma PendingShape(s: Code, g: Cfg, s1: Code, r: Block, R: Cfg, last: Block, exit: Block, b: Block)
    requires Pending(s, g, s1, r, R, last, exit) && b in s1.layout && b in s1.blocks
             && r in s1.blocks[b].term.Targets()
    ensures s1.blocks[b].term.Shaped()
  {
    GrownLayout(s, s1, R, last);
    PendingPreds(s, g, s1, r, R, last, exit, b);
    PredsAt(s1, r, b);
    assert OPEN.term.Targets() == {};
  }

  lemma PendingFrom(s: Code, s1: Code, r: Block, R: Cfg, last: Block, exit: Block)
    requires Generated(s, exit) && Grown(s, s1, R, last) && Structured(R, last)
    requires Replaceable(s, exit, {r})
    ensures Pending(s, s.Graph(), s1, r, R, last, exit)
  {
    GraphOf(s);
    GrownLayout(s, s1, R, last);
    assert r in {r};
  }

  lemma SplicedCandidates(s: Code, s1: Code, r: Block, R: Cfg, last: Block, exit: Block, bs: set<Block>)
    requires s.layout != [] && Pending(s, s.Graph(), s1, r, R, last, exit) && bs <= R.succ.Keys
    ensures s1.layout != [] && r in s1.blocks && last in s1.blocks
    ensures Replaceable(Spliced(s1, r, R.entry, last), exit, bs)
  {
    SplicedLayout(s, s.Graph(), s1, r, R, last, exit);
    GrownLayout(s, s1, R, last);
  }

  /** One step: a fresh region in place of `replaced`. */
  method ReplaceBlock(f: Func, replaced: Block, ghost exit: Block) returns (region: Region, ghost R: Cfg)
    requires Generated(f.State(), exit) && Replaceable(f.State(), exit, {replaced})
    modifies f
    ensures region.Sequential? ==> region.blocks != []
    ensures Generated(f.State(), exit) && Replaceable(f.State(), exit, region.Candidates())
    ensures replaced in old(f.State().Graph()).succ
    ensures f.State().Graph() == Splice(old(f.State().Graph()), replaced, R, region.Last())
    ensures Structured(R, region.Last()) && R.entry == region.First() && Draws(region, R)
  {
    ghost var s := f.State();
    region, R := BuildChild(f);
    ghost var s1 := f.State();
    ChildFacts(s, s1, region, R);
    var first, last := region.First(), region.Last();
    assert replaced in {replaced};
    PendingFrom(s, s1, replaced, R, last, exit);
    PendingShapes(s, s.Graph(), s1, replaced, R, last, exit);
    SpliceNeeds(s, s.Graph(), s1, replaced, R, last, exit);
    GrownLayout(s, s1, R, last);
    SpliceIn(f, first, last, replaced);
    SplicedGenerated(s, s1, replaced, R, last, exit);
    SplicedCandidates(s, s1, replaced, R, last, exit, region.Candidates());
  }

  /** One replacement: the block, the region in its place and the graph of that. */
  datatype Step = Step(replaced: Block, region: Region, graph: Cfg)

  predicate Nonempty(region: Region) {
    region.Sequential? ==> region.blocks != []
  }

  /** Every replacement is of a candidate of the region before it. */
  ghost predicate Chain(parent: Region, steps: seq<Step>)
    decreases |steps|
  {
    steps != [] ==>
      && steps[0].replaced in parent.Candidates() && Draws(steps[0].region, steps[0].graph)
      && Chain(steps[0].region, steps[1..])
  }

  /** All the regions spliced in, one after the other. */
  ghost predicate GrowsTo(g: Cfg, steps: seq<Step>, g': Cfg)
    decreases |steps|
  {
    if steps == [] then g' == g
    else
      var t := steps[0];
      && t.replaced in g.succ && Nonempty(t.region)
      && GrowsTo(Splice(g, t.replaced, t.graph, t.region.Last()), steps[1..], g')
  }

  lemma ChainOn(parent: Region, t: Step, steps: seq<Step>, g: Cfg, g': Cfg)
    requires t.replaced in parent.Candidates() && Draws(t.region, t.graph) && Chain(t.region, steps)
    requires t.replaced in g.succ && Nonempty(t.region)
    requires GrowsTo(Splice(g, t.replaced, t.graph, t.region.Last()), steps, g')
    ensures Chain(parent, [t] + steps) && GrowsTo(g, [t] + steps, g')
  {
    assert ([t] + steps)[1..] == steps;
  }

  /** The recursion below the top level: each call replaces a random candidate of
      the region built by its caller. */
  method Extend(f: Func, parent: Region, depth: nat, maxDepth: nat, ghost exit: Block) returns (ghost steps: seq<Step>)
    requires Generated(f.State(), exit) && Replaceable(f.State(), exit, parent.Candidates()) && Nonempty(parent)
    modifies f
    ensures Generated(f.State(), exit)
    ensures |steps| == (if depth >= maxDepth then 1 else maxDepth - depth + 1) && Chain(parent, steps)
    ensures GrowsTo(old(f.State().Graph()), steps, f.State().Graph())
    decreases maxDepth - depth
  {
    CandidateExists(parent);
    var replaced :| replaced in parent.Candidates();
    var child, R := ReplaceBlock(f, replaced, exit);
    steps := [];
    if !(depth >= maxDepth) {
      steps := Extend(f, child, depth + 1, maxDepth, exit);
    }
    ChainOn(parent, Step(replaced, child, R), steps, old(f.State().Graph()), f.State().Graph());
    steps := [Step(replaced, child, R)] + steps;
  }

  lemma CandidateExists(r: Region)
    requires r.Sequential? ==> r.blocks != []
    ensures exists b :: b in r.Candidates()
  {
    match r
    case Sequential(bs) => assert bs[0] in r.Candidates();
    case IfElse(_, t, _, _) => assert t in r.Candidates();
    case While(h, _, _) => assert h in r.Candidates();
    case Switch(h, _, _, _) => assert h in r.Candidates();
  }

  // ----- the first region -----

  /** Entry, a placeholder and the exit in a row: the first region goes where the
      placeholder stands. */
  function Skeleton(entry: Block, mid: Block, exit: Block): Cfg {
    Cfg(entry, map[entry := {mid}, mid := {exit}, exit := {}])
  }

  lemma SkeletonStructured(entry: Block, mid: Block, exit: Block)
    requires entry != mid && mid != exit && entry != exit
    ensures Structured(Skeleton(entry, mid, exit), exit) && EntryFree(Skeleton(entry, mid, exit))
  {
    var g := Skeleton(entry, mid, exit);
    RankedIsAcyclic(g, b => if b == entry then 0 else if b == mid then 1 else 2);
    assert g.PathFromTo(entry, entry, [entry]);
    assert g.PathFromTo(entry, mid, [entry, mid]);
    assert g.PathFromTo(entry, exit, [entry, mid, exit]);
    assert g.PathFromTo(mid, exit, [mid, exit]);
    assert g.PathFromTo(exit, exit, [exit]);
  }

  /** Entry and exit joined to the two ends of the first region. */
  function Joined(s: Code, entry: Block, first: Block, last: Block, exit: Block): Code
    requires entry in s.blocks && last in s.blocks
  {
    s.(blocks := s.blocks[entry := s.blocks[entry].(term := Jump(Plain(first)))]
                         [last := s.blocks[last].(term := Jump(Plain(exit)))])
  }

  lemma JoinedBlock(s1: Code, entry: Block, R: Cfg, last: Block, exit: Block, mid: Block, b: Block)
    requires entry in s1.blocks && exit in s1.blocks && s1.blocks[entry] == OPEN && s1.blocks[exit] == OPEN
    requires Realises(s1.blocks, R, last) && entry !in R.succ && exit !in R.succ && mid !in R.succ
    requires entry != exit && mid != entry && mid != exit
    requires b == entry || b == exit || b in R.succ
    ensures b in s1.blocks && b in Splice(Skeleton(entry, mid, exit), mid, R, last).succ
    ensures Fits(Joined(s1, entry, R.entry, last, exit).blocks[b], b == exit,
                 Splice(Skeleton(entry, mid, exit), mid, R, last).succ[b])
  {
    JumpTargets(R.entry);
    JumpTargets(exit);
    assert OPEN.term.Targets() == {};
    if b in R.succ && b != last { RealisedFits(s1.blocks, R, last, b); }
  }

  lemma JoinedWired(s: Code, s1: Code, entry: Block, R: Cfg, last: Block, exit: Block, mid: Block)
    requires TwoEnds(s, entry, exit) && Grown(s, s1, R, last)
    requires mid !in R.succ && mid != entry && mid != exit
    ensures entry in s1.blocks && last in s1.blocks
    ensures var s3 := Joined(s1, entry, R.entry, last, exit);
            Wired(s3, exit) && HasGraph(s3, Splice(Skeleton(entry, mid, exit), mid, R, last))
  {
    TwoEndsGrown(s, s1, entry, R, last, exit);
    JoinedFits(s1, entry, R, last, exit, mid);
    JoinedLaid(s1, entry, R.entry, last, exit);
    FitsWired(Joined(s1, entry, R.entry, last, exit), Splice(Skeleton(entry, mid, exit), mid, R, last), exit);
  }

  lemma JoinedLaid(s1: Code, entry: Block, first: Block, last: Block, exit: Block)
    requires s1.Laid() && Fresh(s1) && s1.layout[0] == entry && entry in s1.blocks && last in s1.blocks && entry != last
    ensures var s3 := Joined(s1, entry, first, last, exit);
            s3.Laid() && Fresh(s3) && s3.layout == s1.layout && s3.blocks[entry].term.Jump?
  {
  }

  lemma JoinedFits(s1: Code, entry: Block, R: Cfg, last: Block, exit: Block, mid: Block)
    requires entry in s1.blocks && exit in s1.blocks && s1.blocks[entry] == OPEN && s1.blocks[exit] == OPEN
    requires Realises(s1.blocks, R, last) && entry !in R.succ && exit !in R.succ && mid !in R.succ
    requires entry != exit && mid != entry && mid != exit
    requires forall b :: b in s1.layout <==> b == entry || b == exit || b in R.succ
    ensures var s3, g' := Joined(s1, entry, R.entry, last, exit), Splice(Skeleton(entry, mid, exit), mid, R, last);
            (forall b :: b in s1.layout ==> b in s3.blocks && b in g'.succ && Fits(s3.blocks[b], b == exit, g'.succ[b]))
            && (forall b :: b in g'.succ ==> b in s1.layout)
  {
    forall b | b in s1.layout
      ensures b in s1.blocks && b in Splice(Skeleton(entry, mid, exit), mid, R, last).succ
      ensures Fits(Joined(s1, entry, R.entry, last, exit).blocks[b], b == exit,
                   Splice(Skeleton(entry, mid, exit), mid, R, last).succ[b])
    {
      JoinedBlock(s1, entry, R, last, exit, mid, b);
    }
  }

  lemma TwoEndsGrown(s: Code, s1: Code, entry: Block, R: Cfg, last: Block, exit: Block)
    requires TwoEnds(s, entry, exit) && Grown(s, s1, R, last)
    ensures s1.Laid() && Fresh(s1) && s1.layout[0] == entry && entry !in R.succ && exit !in R.succ
    ensures forall b :: b in s1.layout <==> b == entry || b == exit || b in R.succ
    ensures entry in s1.blocks && exit in s1.blocks && s1.blocks[entry] == OPEN && s1.blocks[exit] == OPEN
    ensures Realises(s1.blocks, R, last)
  {
    GrownLayout(s, s1, R, last);
    GrownFresh(s, s1, R, last);
    assert s.layout[0] == entry && s.layout[1] == exit;
  }

  /** Local fit at every block of the layout is all there is to being wired. */
  lemma FitsWired(s: Code, g: Cfg, exit: Block)
    requires s.Laid() && Fresh(s) && exit in s.layout && g.entry == s.layout[0]
    requires forall b :: b in s.layout ==> b in g.succ && Fits(s.blocks[b], b == exit, g.succ[b])
    requires forall b :: b in g.succ ==> b in s.layout
    requires s.blocks[s.layout[0]].term.Jump?
    ensures Wired(s, exit) && HasGraph(s, g)
  {
  }

  lemma JoinedGenerated(s: Code, s1: Code, entry: Block, R: Cfg, last: Block, exit: Block)
    requires TwoEnds(s, entry, exit) && Grown(s, s1, R, last) && Structured(R, last)
    ensures entry in s1.blocks && last in s1.blocks
    ensures Generated(Joined(s1, entry, R.entry, last, exit), exit) && last in R.succ
    ensures Joined(s1, entry, R.entry, last, exit).Graph() == Enclosed(entry, R, last, exit)
  {
    GrownLayout(s, s1, R, last);
    assert s.layout[0] == entry && s.layout[1] == exit;
    var mid := s1.nextBlock;
    var g := Skeleton(entry, mid, exit);
    SkeletonStructured(entry, mid, exit);
    JoinedWired(s, s1, entry, R, last, exit, mid);
    GraphUnique(Joined(s1, entry, R.entry, last, exit), Splice(g, mid, R, last));
    EnclosedIsSplice(entry, mid, exit, R, last);
    SpliceStructured(g, exit, mid, R, last);
    SpliceEntryFree(g, mid, R, last);
  }

  lemma JoinedCandidates(s: Code, s1: Code, entry: Block, R: Cfg, last: Block, exit: Block, bs: set<Block>)
    requires s.Laid() && Fresh(s) && Grown(s, s1, R, last) && s.layout == [entry, exit] && bs <= R.succ.Keys
    ensures entry in s1.blocks && last in s1.blocks
    ensures Replaceable(Joined(s1, entry, R.entry, last, exit), exit, bs)
  {
    GrownLayout(s, s1, R, last);
    assert s.layout[0] == entry && s.layout[1] == exit;
  }

  method InsertEnds(f: Func) returns (entry: Block, end: Block)
    requires f.State() == Code(0, 0, [], map[])
    modifies f
    ensures entry == 0 && end == 1 && f.State() == Code(2, 0, [0, 1], map[0 := OPEN, 1 := OPEN])
  {
    entry := f.MakeBlock();
    end := f.MakeBlock();
    f.InsertBlock(entry, OPEN);
    f.InsertBlock(end, OPEN);
  }

  method JoinEnds(f: Func, entry: Block, first: Block, last: Block, end: Block)
    requires entry in f.blocks && last in f.blocks && entry != last
    modifies f`blocks
    ensures f.State() == Joined(old(f.State()), entry, first, last, end)
  {
    f.Terminate(entry, Jump(Plain(first)));
    f.Terminate(last, Jump(Plain(end)));
  }

  /** The region between an entry and an exit. */
  function Enclosed(entry: Block, R: Cfg, last: Block, exit: Block): Cfg {
    Cfg(entry, R.succ[last := {exit}][entry := {R.entry}][exit := {}])
  }

  lemma EnclosedIsSplice(entry: Block, mid: Block, exit: Block, R: Cfg, last: Block)
    requires entry != exit && mid != entry && mid != exit && mid !in R.succ && entry !in R.succ && exit !in R.succ
    requires last in R.succ
    ensures Splice(Skeleton(entry, mid, exit), mid, R, last) == Enclosed(entry, R, last, exit)
  {
    var g, h := Splice(Skeleton(entry, mid, exit), mid, R, last), Enclosed(entry, R, last, exit);
    assert g.succ.Keys == h.succ.Keys;
    assert Redirect({mid}, mid, R.entry) == {R.entry} && Redirect({}, mid, R.entry) == {};
    assert g.succ == h.succ;
  }

  /** The state with just the two end blocks. */
  ghost predicate TwoEnds(s: Code, entry: Block, exit: Block) {
    && s.Laid() && Fresh(s) && s.layout == [entry, exit]
    && s.blocks[entry] == OPEN && s.blocks[exit] == OPEN && entry != exit
  }

  lemma FirstRegionJoined(s: Code, s1: Code, entry: Block, child: Region, R: Cfg, exit: Block)
    requires TwoEnds(s, entry, exit) && Appends(s, s1, child, R)
    ensures entry in s1.blocks && child.Last() in s1.blocks && entry != child.Last()
    ensures var s3 := Joined(s1, entry, child.First(), child.Last(), exit);
            && Generated(s3, exit) && Replaceable(s3, exit, child.Candidates())
            && child.Last() in R.succ && s3.Graph() == Enclosed(entry, R, child.Last(), exit)
  {
    JoinedGenerated(s, s1, entry, R, child.Last(), exit);
    JoinedCandidates(s, s1, entry, R, child.Last(), exit, child.Candidates());
    GrownLayout(s, s1, R, child.Last());
    assert s.layout[0] == entry;
  }

  /** The top-level call up to its recursion: entry, exit, and a region between. */
  method FirstRegion(f: Func) returns (child: Region, ghost exit: Block, ghost R: Cfg)
    requires f.State() == Code(0, 0, [], map[])
    modifies f
    ensures Nonempty(child) && exit == 1 && Draws(child, R)
    ensures Generated(f.State(), exit) && Replaceable(f.State(), exit, child.Candidates())
    ensures child.Last() in R.succ && f.State().Graph() == Enclosed(0, R, child.Last(), 1)
  {
    var entry, end := InsertEnds(f);
    exit := end;
    ghost var s := f.State();
    assert TwoEnds(s, entry, end);
    child, R := BuildChild(f);
    ChildFacts(s, f.State(), child, R);
    FirstRegionJoined(s, f.State(), entry, child, R, end);
    JoinEnds(f, entry, child.First(), child.Last(), end);
  }

  /** The constructor on an empty function: for every depth bound and every random
      choice, the finished function is well shaped, its graph reducible, every
      block reachable and every block able to reach the one exit.  It is the first
      region between entry and exit, with as many regions spliced in as the depth says. */
  method CfConstruct(f: Func, maxDepth: nat)
    returns (ghost exit: Block, ghost first: Region, ghost R: Cfg, ghost steps: seq<Step>)
    requires f.State() == Code(0, 0, [], map[])
    modifies f
    ensures Generated(f.State(), exit) && exit == 1
    ensures Nonempty(first) && Draws(first, R) && first.Last() in R.succ
    ensures |steps| == maxDepth && Chain(first, steps)
    ensures GrowsTo(Enclosed(0, R, first.Last(), 1), steps, f.State().Graph())
  {
    var child;
    child, exit, R := FirstRegion(f);
    first, steps := child, [];
    if 0 >= maxDepth {
      return;
    }
    steps := Extend(f, child, 1, maxDepth, exit);
  }
}
