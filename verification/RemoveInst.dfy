/** The reducer's instruction removal: a cursor that moves on before it deletes, and
    the phase that offers one instruction after the other to the crash check. */
module RemoveInst {
  import opened Graphs
  import opened Ir

  type InstId = nat

  /** A block of the layout with its instructions, terminator included. */
  datatype Row = Row(block: nat, insts: seq<InstId>)
  type Layout = seq<Row>

  /** All instructions in layout order. */
  function Flat(L: Layout): seq<InstId> {
    if L == [] then [] else L[0].insts + Flat(L[1..])
  }

  function Blocks(L: Layout): (r: seq<nat>)
    ensures |r| == |L| && forall i :: 0 <= i < |L| ==> r[i] == L[i].block
  {
    seq(|L|, i requires 0 <= i < |L| => L[i].block)
  }

  /** No block or instruction twice, and no block empty. */
  predicate Tidy(L: Layout) {
    && Distinct(Flat(L)) && Distinct(Blocks(L))
    && forall i :: 0 <= i < |L| ==> L[i].insts != []
  }

  // ----- operations of the layout -----

  /** The instruction after `x` in a block. */
  function NextIn(s: seq<InstId>, x: InstId): Option<InstId> {
    if |s| < 2 then None else if s[0] == x then Some(s[1]) else NextIn(s[1..], x)
  }

  function NextInst(L: Layout, x: InstId): Option<InstId> {
    if L == [] then None else if x in L[0].insts then NextIn(L[0].insts, x) else NextInst(L[1..], x)
  }

  function NextRow(L: Layout, b: nat): Option<Row> {
    if |L| < 2 then None else if L[0].block == b then Some(L[1]) else NextRow(L[1..], b)
  }

  function Minus(s: seq<InstId>, x: InstId): seq<InstId> {
    if s == [] then [] else if s[0] == x then Minus(s[1..], x) else [s[0]] + Minus(s[1..], x)
  }

  function RemoveFrom(L: Layout, x: InstId): Layout {
    if L == [] then [] else [Row(L[0].block, Minus(L[0].insts, x))] + RemoveFrom(L[1..], x)
  }

  function BlockInsts(L: Layout, b: nat): seq<InstId> {
    if L == [] then [] else if L[0].block == b then L[0].insts else BlockInsts(L[1..], b)
  }

  function RemoveBlock(L: Layout, b: nat): Layout {
    if L == [] then [] else if L[0].block == b then RemoveBlock(L[1..], b) else [L[0]] + RemoveBlock(L[1..], b)
  }

  // ----- places -----

  /** Instruction `x` of block `b`, with what comes before and after. */
  datatype Place = Place(above: Layout, before: seq<InstId>, b: nat, x: InstId, after: seq<InstId>, below: Layout) {
    function Whole(): Layout {
      above + [Row(b, before + [x] + after)] + below
    }

    /** The instructions before this one, and those after it. */
    function Done(): seq<InstId> {
      Flat(above) + before
    }

    function Rest(): seq<InstId> {
      after + Flat(below)
    }

    /** The layout without the instruction, and without its block if that is empty. */
    function Deleted(): Layout {
      above + (if before + after == [] then [] else [Row(b, before + after)]) + below
    }
  }

  lemma {:induction false} FlatAppend(K: Layout, L: Layout)
    ensures Flat(K + L) == Flat(K) + Flat(L)
  {
    if K == [] {
      assert K + L == L;
    } else {
      assert (K + L)[1..] == K[1..] + L;
      FlatAppend(K[1..], L);
    }
  }

  lemma FlatOne(r: Row)
    ensures Flat([r]) == r.insts
  {
    assert Flat([r][1..]) == [];
  }

  lemma FlatMiddle(above: Layout, r: Row, below: Layout)
    ensures Flat(above + [r] + below) == Flat(above) + r.insts + Flat(below)
  {
    FlatOne(r);
    FlatAppend(above, [r]);
    FlatAppend(above + [r], below);
  }

  lemma FlatPlace(p: Place)
    ensures Flat(p.Whole()) == Flat(p.above) + (p.before + [p.x] + p.after) + Flat(p.below)
    ensures Flat(p.Deleted()) == Flat(p.above) + (p.before + p.after) + Flat(p.below)
  {
    FlatMiddle(p.above, Row(p.b, p.before + [p.x] + p.after), p.below);
    if p.before + p.after == [] {
      assert p.Deleted() == p.above + p.below;
      FlatAppend(p.above, p.below);
    } else {
      FlatMiddle(p.above, Row(p.b, p.before + p.after), p.below);
    }
  }

  lemma Regroup(a: seq<nat>, b: seq<nat>, x: seq<nat>, c: seq<nat>, d: seq<nat>)
    ensures a + (b + x + c) + d == (a + b) + x + (c + d)
  {
  }

  /** Something that occurs once occurs nowhere else. */
  lemma Alone(s: seq<nat>, x: nat, t: seq<nat>)
    requires Distinct(s + [x] + t)
    ensures x !in s && x !in t
  {
    var f := s + [x] + t;
    assert f[|s|] == x;
    forall i | 0 <= i < |s| ensures s[i] != x { assert f[i] == s[i]; }
    forall i | 0 <= i < |t| ensures t[i] != x { assert f[|s| + 1 + i] == t[i]; }
  }

  /** The other parts of a tidy layout do not mention the place. */
  lemma PlaceAlone(p: Place)
    requires Tidy(p.Whole())
    ensures p.x !in p.before && p.x !in p.after && p.x !in Flat(p.above) && p.x !in Flat(p.below)
    ensures p.b !in Blocks(p.above) && p.b !in Blocks(p.below)
  {
    FlatPlace(p);
    Regroup(Flat(p.above), p.before, [p.x], p.after, Flat(p.below));
    Alone(p.Done(), p.x, p.Rest());
    assert Blocks(p.Whole()) == Blocks(p.above) + [p.b] + Blocks(p.below);
    Alone(Blocks(p.above), p.b, Blocks(p.below));
  }

  // ----- what the operations do at a place -----

  lemma {:induction false} NextInAt(s: seq<InstId>, x: InstId, t: seq<InstId>)
    requires x !in s
    ensures NextIn(s + [x] + t, x) == if t == [] then None else Some(t[0])
  {
    if s == [] {
      assert [] + [x] + t == [x] + t;
    } else {
      assert (s + [x] + t)[1..] == s[1..] + [x] + t;
      NextInAt(s[1..], x, t);
    }
  }

  lemma {:induction false} NextInstAt(above: Layout, r: Row, below: Layout, x: InstId)
    requires x !in Flat(above) && x in r.insts
    ensures NextInst(above + [r] + below, x) == NextIn(r.insts, x)
  {
    if above != [] {
      assert (above + [r] + below)[1..] == above[1..] + [r] + below;
      NextInstAt(above[1..], r, below, x);
    }
  }

  lemma BlocksTail(L: Layout, b: nat)
    requires L != [] && b !in Blocks(L)
    ensures L[0].block != b && b !in Blocks(L[1..])
  {
    assert Blocks(L) == [L[0].block] + Blocks(L[1..]);
  }

  lemma {:induction false} NextRowAt(above: Layout, r: Row, below: Layout)
    requires r.block !in Blocks(above)
    ensures NextRow(above + [r] + below, r.block) == if below == [] then None else Some(below[0])
  {
    if above != [] {
      assert (above + [r] + below)[1..] == above[1..] + [r] + below;
      BlocksTail(above, r.block);
      NextRowAt(above[1..], r, below);
    }
  }

  lemma {:induction false} MinusNothing(s: seq<InstId>, x: InstId)
    requires x !in s
    ensures Minus(s, x) == s
  {
    if s != [] {
      MinusNothing(s[1..], x);
    }
  }

  lemma {:induction false} MinusAt(s: seq<InstId>, x: InstId, t: seq<InstId>)
    requires x !in s && x !in t
    ensures Minus(s + [x] + t, x) == s + t
  {
    var f := s + [x] + t;
    if s == [] {
      assert f[1..] == t && s + t == t;
      MinusNothing(t, x);
    } else {
      assert f[1..] == s[1..] + [x] + t;
      MinusAt(s[1..], x, t);
      assert [s[0]] + (s[1..] + t) == s + t;
    }
  }

  lemma {:induction false} RemoveNothing(L: Layout, x: InstId)
    requires x !in Flat(L)
    ensures RemoveFrom(L, x) == L
  {
    if L != [] {
      MinusNothing(L[0].insts, x);
      RemoveNothing(L[1..], x);
    }
  }

  lemma {:induction false} RemoveMiddle(above: Layout, r: Row, below: Layout, x: InstId)
    requires x !in Flat(above) && x !in Flat(below)
    ensures RemoveFrom(above + [r] + below, x) == above + [Row(r.block, Minus(r.insts, x))] + below
  {
    var L := above + [r] + below;
    if above == [] {
      assert L[1..] == below;
      RemoveNothing(below, x);
    } else {
      assert L[1..] == above[1..] + [r] + below;
      MinusNothing(above[0].insts, x);
      RemoveMiddle(above[1..], r, below, x);
    }
  }

  lemma RemoveAt(p: Place)
    requires Tidy(p.Whole())
    ensures RemoveFrom(p.Whole(), p.x) == p.above + [Row(p.b, p.before + p.after)] + p.below
  {
    PlaceAlone(p);
    RemoveMiddle(p.above, Row(p.b, p.before + [p.x] + p.after), p.below, p.x);
    MinusAt(p.before, p.x, p.after);
  }

  lemma {:induction false} BlockInstsAt(above: Layout, r: Row, below: Layout)
    requires r.block !in Blocks(above)
    ensures BlockInsts(above + [r] + below, r.block) == r.insts
  {
    if above != [] {
      assert (above + [r] + below)[1..] == above[1..] + [r] + below;
      BlocksTail(above, r.block);
      BlockInstsAt(above[1..], r, below);
    }
  }

  lemma {:induction false} RemoveBlockNothing(L: Layout, b: nat)
    requires b !in Blocks(L)
    ensures RemoveBlock(L, b) == L
  {
    if L != [] {
      BlocksTail(L, b);
      RemoveBlockNothing(L[1..], b);
    }
  }

  lemma {:induction false} RemoveBlockAt(above: Layout, r: Row, below: Layout)
    requires r.block !in Blocks(above) && r.block !in Blocks(below)
    ensures RemoveBlock(above + [r] + below, r.block) == above + below
  {
    var L := above + [r] + below;
    if above == [] {
      assert L[1..] == below && above + below == below;
      RemoveBlockNothing(below, r.block);
    } else {
      assert L[1..] == above[1..] + [r] + below;
      BlocksTail(above, r.block);
      RemoveBlockAt(above[1..], r, below);
      assert [above[0]] + (above[1..] + below) == above + below;
    }
  }

  // ----- the cursor -----

  lemma FlatParts(p: Place)
    ensures Flat(p.Whole()) == p.Done() + [p.x] + p.Rest()
    ensures Flat(p.Deleted()) == p.Done() + p.Rest()
  {
    FlatPlace(p);
    Regroup(Flat(p.above), p.before, [p.x], p.after, Flat(p.below));
    Regroup(Flat(p.above), p.before, [], p.after, Flat(p.below));
    assert p.before + [] + p.after == p.before + p.after && p.Done() + [] == p.Done();
  }

  /** The next place when this instruction stays. */
  function Kept(p: Place): Place
    requires p.after != [] || (p.below != [] && p.below[0].insts != [])
  {
    if p.after != [] then Place(p.above, p.before + [p.x], p.b, p.after[0], p.after[1..], p.below)
    else Place(p.above + [Row(p.b, p.before + [p.x])], [], p.below[0].block, p.below[0].insts[0], p.below[0].insts[1..],
               p.below[1..])
  }

  /** The next place when this instruction is deleted. */
  function Gone(p: Place): Place
    requires p.after != [] || (p.below != [] && p.below[0].insts != [])
  {
    if p.after != [] then Place(p.above, p.before, p.b, p.after[0], p.after[1..], p.below)
    else Place(p.above + (if p.before == [] then [] else [Row(p.b, p.before)]), [],
               p.below[0].block, p.below[0].insts[0], p.below[0].insts[1..], p.below[1..])
  }

  lemma KeptPlace(p: Place)
    requires p.after != [] || (p.below != [] && p.below[0].insts != [])
    ensures Kept(p).Whole() == p.Whole()
    ensures Kept(p).Done() == p.Done() + [p.x] && [Kept(p).x] + Kept(p).Rest() == p.Rest()
  {
    var q := Kept(p);
    if p.after != [] {
      assert q.before + [q.x] + q.after == p.before + [p.x] + p.after;
    } else {
      var r := p.below[0];
      assert [] + [r.insts[0]] + r.insts[1..] == r.insts;
      assert p.before + [p.x] + p.after == p.before + [p.x];
      assert p.below == [r] + p.below[1..];
      FlatOne(Row(p.b, p.before + [p.x]));
      FlatAppend(p.above, [Row(p.b, p.before + [p.x])]);
    }
  }

  lemma GonePlace(p: Place)
    requires p.after != [] || (p.below != [] && p.below[0].insts != [])
    ensures Gone(p).Whole() == p.Deleted()
    ensures Gone(p).Done() == p.Done() && [Gone(p).x] + Gone(p).Rest() == p.Rest()
  {
    var q := Gone(p);
    if p.after != [] {
      assert q.before + [q.x] + q.after == p.before + p.after;
    } else {
      var r := p.below[0];
      assert [] + [r.insts[0]] + r.insts[1..] == r.insts;
      assert p.before + p.after == p.before;
      assert p.below == [r] + p.below[1..];
      FlatOptional(p.above, p.b, p.before);
    }
  }

  lemma FlatOptional(above: Layout, b: nat, s: seq<InstId>)
    ensures Flat(above + if s == [] then [] else [Row(b, s)]) == Flat(above) + s
  {
    if s == [] {
      assert above + [] == above;
    } else {
      FlatOne(Row(b, s));
      FlatAppend(above, [Row(b, s)]);
    }
  }

  lemma StillDistinct(s: seq<nat>, x: seq<nat>, t: seq<nat>)
    requires Distinct(s + x + t)
    ensures Distinct(s + t)
  {
    var f, h := s + x + t, s + t;
    forall i, j | 0 <= i < j < |h|
      ensures h[i] != h[j]
    {
      var i', j' := if i < |s| then i else i + |x|, if j < |s| then j else j + |x|;
      assert f[i'] == h[i] && f[j'] == h[j];
    }
  }

  lemma DeletedTidy(p: Place)
    requires Tidy(p.Whole())
    ensures Tidy(p.Deleted())
  {
    FlatParts(p);
    StillDistinct(p.Done(), [p.x], p.Rest());
    assert Blocks(p.Whole()) == Blocks(p.above) + [p.b] + Blocks(p.below);
    StillDistinct(Blocks(p.above), [p.b], Blocks(p.below));
    var L, D := p.Whole(), p.Deleted();
    if p.before + p.after == [] {
      assert D == p.above + p.below;
      assert Blocks(D) == Blocks(p.above) + Blocks(p.below);
    } else {
      assert Blocks(D) == Blocks(L);
    }
    RowsFull(p);
  }

  lemma RowsFull(p: Place)
    requires forall i :: 0 <= i < |p.Whole()| ==> p.Whole()[i].insts != []
    ensures forall i :: 0 <= i < |p.Deleted()| ==> p.Deleted()[i].insts != []
    ensures forall i :: 0 <= i < |p.below| ==> p.below[i].insts != []
  {
    var L := p.Whole();
    forall i | 0 <= i < |p.above| ensures p.above[i].insts != [] { assert L[i] == p.above[i]; }
    forall i | 0 <= i < |p.below| ensures p.below[i].insts != [] { assert L[|p.above| + 1 + i] == p.below[i]; }
  }

  lemma RestEmpty(p: Place)
    requires Tidy(p.Whole())
    ensures p.Rest() == [] <==> p.after == [] && p.below == []
    ensures p.below != [] ==> p.below[0].insts != []
  {
    RowsFull(p);
  }

  /** The cursor: `inst` is an instruction of `block`. */
  class RemoveInst {
    var block: nat
    var inst: InstId

    ghost predicate At(p: Place)
      reads this
    {
      block == p.b && inst == p.x
    }

    constructor (L: Layout)
      requires Tidy(L) && L != []
      ensures block == L[0].block && inst == L[0].insts[0]
    {
      block, inst := L[0].block, L[0].insts[0];
    }

    /** Moves on; says where the cursor was, unless it was on the last instruction. */
    method NextInstRetPrev(L: Layout, ghost p: Place) returns (prev: Option<(nat, InstId)>)
      requires Tidy(L) && L == p.Whole() && At(p)
      modifies this
      ensures prev.None? <==> p.Rest() == []
      ensures prev.None? ==> At(p)
      ensures prev.Some? ==>
                prev.value == (p.b, p.x) && (p.after != [] || (p.below != [] && p.below[0].insts != [])) && At(Kept(p))
    {
      PlaceAlone(p);
      RestEmpty(p);
      ghost var row := Row(p.b, p.before + [p.x] + p.after);
      NextInstAt(p.above, row, p.below, p.x);
      NextInAt(p.before, p.x, p.after);
      NextRowAt(p.above, row, p.below);
      var was := (block, inst);
      var i := NextInst(L, inst);
      if i.Some? {
        inst := i.value;
        return Some(was);
      }
      var b := NextRow(L, block);
      if b.Some? {
        block, inst := b.value.block, b.value.insts[0];
        return Some(was);
      }
      return None;
    }

    /** Deletes the instruction under the cursor, and its block if that becomes empty,
        after moving the cursor to the next. */
    method Mutate(L: Layout, ghost p: Place) returns (r: Option<Layout>)
      requires Tidy(L) && L == p.Whole() && At(p)
      modifies this
      ensures r.None? <==> p.Rest() == []
      ensures r.Some? ==> r.value == p.Deleted() && Tidy(r.value)
      ensures r.Some? ==> (p.after != [] || (p.below != [] && p.below[0].insts != [])) && At(Kept(p)) && At(Gone(p))
    {
      var prev := NextInstRetPrev(L, p);
      if prev.None? {
        return None;
      }
      RemoveAt(p);
      PlaceAlone(p);
      ghost var row := Row(p.b, p.before + p.after);
      BlockInstsAt(p.above, row, p.below);
      RemoveBlockAt(p.above, row, p.below);
      DeletedTidy(p);
      var rest := RemoveFrom(L, prev.value.1);
      if BlockInsts(rest, prev.value.0) == [] {
        rest := RemoveBlock(rest, prev.value.0);
        assert p.above + [] + p.below == p.above + p.below;
      }
      r := Some(rest);
    }
  }

  // ----- greedy deletion -----

  /** The layout without `x`, and without the block that this empties. */
  function Shrunk(L: Layout, x: InstId): Layout {
    if L == [] then []
    else if L[0].insts != [] && Minus(L[0].insts, x) == [] then Shrunk(L[1..], x)
    else [Row(L[0].block, Minus(L[0].insts, x))] + Shrunk(L[1..], x)
  }

  lemma {:induction false} ShrunkNothing(L: Layout, x: InstId)
    requires x !in Flat(L)
    ensures Shrunk(L, x) == L
  {
    if L != [] {
      MinusNothing(L[0].insts, x);
      ShrunkNothing(L[1..], x);
    }
  }

  lemma {:induction false} ShrunkMiddle(above: Layout, r: Row, below: Layout, x: InstId)
    requires x !in Flat(above) && x !in Flat(below) && r.insts != []
    ensures Shrunk(above + [r] + below, x)
         == above + (if Minus(r.insts, x) == [] then [] else [Row(r.block, Minus(r.insts, x))]) + below
  {
    var L := above + [r] + below;
    var mid := if Minus(r.insts, x) == [] then [] else [Row(r.block, Minus(r.insts, x))];
    if above == [] {
      assert L[1..] == below;
      ShrunkNothing(below, x);
      assert Shrunk(L, x) == mid + below;
      assert [] + mid == mid;
    } else {
      assert L[1..] == above[1..] + [r] + below;
      MinusNothing(above[0].insts, x);
      ShrunkMiddle(above[1..], r, below, x);
      assert [above[0]] + (above[1..] + mid + below) == above + mid + below;
    }
  }

  lemma DeletedIsShrunk(p: Place)
    requires Tidy(p.Whole())
    ensures p.Deleted() == Shrunk(p.Whole(), p.x)
  {
    PlaceAlone(p);
    ShrunkMiddle(p.above, Row(p.b, p.before + [p.x] + p.after), p.below, p.x);
    MinusAt(p.before, p.x, p.after);
  }

  /** Offers each of `todo` for deletion, in order, and deletes it if what is left
      still crashes. */
  function Greedy(crashes: Layout -> bool, L: Layout, todo: seq<InstId>): Layout {
    if todo == [] then L else
      var M := Greedy(crashes, L, todo[..|todo| - 1]);
      var M' := Shrunk(M, todo[|todo| - 1]);
      if crashes(M') then M' else M
  }

  lemma {:induction false} FlatShrunk(L: Layout, x: InstId)
    ensures Flat(Shrunk(L, x)) == Minus(Flat(L), x)
  {
    if L != [] {
      FlatShrunk(L[1..], x);
      MinusAppend(L[0].insts, Flat(L[1..]), x);
      var rest := Shrunk(L[1..], x);
      if L[0].insts == [] || Minus(L[0].insts, x) != [] {
        assert ([Row(L[0].block, Minus(L[0].insts, x))] + rest)[1..] == rest;
      }
    }
  }

  lemma {:induction false} MinusAppend(s: seq<InstId>, t: seq<InstId>, x: InstId)
    ensures Minus(s + t, x) == Minus(s, x) + Minus(t, x)
  {
    if s == [] {
      assert s + t == t;
    } else {
      assert (s + t)[1..] == s[1..] + t;
      MinusAppend(s[1..], t, x);
    }
  }

  lemma {:induction false} MinusMembers(s: seq<InstId>, x: InstId, y: InstId)
    ensures y in Minus(s, x) <==> y in s && y != x
  {
    if s != [] {
      MinusMembers(s[1..], x, y);
    }
  }

  /** Deletion only takes from what is offered, and never loses the crash. */
  lemma {:induction false} GreedyOutcome(crashes: Layout -> bool, L: Layout, todo: seq<InstId>)
    requires crashes(L)
    ensures crashes(Greedy(crashes, L, todo))
    ensures forall y :: y in Flat(Greedy(crashes, L, todo)) ==> y in Flat(L)
    ensures forall y :: y in Flat(L) && y !in todo ==> y in Flat(Greedy(crashes, L, todo))
    decreases |todo|
  {
    if todo != [] {
      var n := |todo| - 1;
      var M := Greedy(crashes, L, todo[..n]);
      GreedyOutcome(crashes, L, todo[..n]);
      FlatShrunk(M, todo[n]);
      forall y { MinusMembers(Flat(M), todo[n], y); }
    }
  }

  /** An offered instruction that is still there was needed for the crash when it was
      offered. */
  lemma {:induction false} GreedyMinimal(crashes: Layout -> bool, L: Layout, todo: seq<InstId>, i: nat)
    requires i < |todo| && todo[i] in Flat(Greedy(crashes, L, todo))
    ensures !crashes(Shrunk(Greedy(crashes, L, todo[..i]), todo[i]))
    decreases |todo|
  {
    var n := |todo| - 1;
    var M := Greedy(crashes, L, todo[..n]);
    FlatShrunk(M, todo[n]);
    MinusMembers(Flat(M), todo[n], todo[i]);
    if i < n {
      assert todo[..n][..i] == todo[..i];
      GreedyMinimal(crashes, L, todo[..n], i);
    }
  }

  // ----- the phase -----

  /** Where the cursor starts. */
  function FirstPlace(L: Layout): Place
    requires L != [] && L[0].insts != []
  {
    Place([], [], L[0].block, L[0].insts[0], L[0].insts[1..], L[1..])
  }

  lemma SplitFirst(r: Row, rest: Layout)
    requires r.insts != []
    ensures Place([], [], r.block, r.insts[0], r.insts[1..], rest).Whole() == [r] + rest
  {
    assert [] + [r.insts[0]] + r.insts[1..] == r.insts;
    assert [] + [r] == [r];
  }

  lemma FirstPlaceWhole(L: Layout)
    requires L != [] && L[0].insts != []
    ensures FirstPlace(L).Whole() == L && Flat(L) == [] + ([FirstPlace(L).x] + FirstPlace(L).Rest())
  {
    var p := FirstPlace(L);
    SplitFirst(L[0], L[1..]);
    assert [L[0]] + L[1..] == L;
    FlatParts(p);
    assert p.Done() == [];
  }

  /** The phase after offering `done`: the cursor is on the first of `rest`. */
  ghost predicate Offering(crashes: Layout -> bool, L0: Layout, L: Layout, p: Place, done: seq<InstId>) {
    && Tidy(L) && crashes(L) && L == p.Whole()
    && Flat(L0) == done + ([p.x] + p.Rest())
    && L == Greedy(crashes, L0, done)
  }

  lemma OfferNext(crashes: Layout -> bool, L0: Layout, L: Layout, p: Place, done: seq<InstId>)
    requires Offering(crashes, L0, L, p, done) && (p.after != [] || (p.below != [] && p.below[0].insts != []))
    ensures var L', q := p.Deleted(), if crashes(p.Deleted()) then Gone(p) else Kept(p);
            Tidy(L') && Offering(crashes, L0, if crashes(L') then L' else L, q, done + [p.x])
  {
    DeletedIsShrunk(p);
    DeletedTidy(p);
    KeptPlace(p);
    GonePlace(p);
    assert (done + [p.x])[..|done|] == done;
    assert done + ([p.x] + p.Rest()) == (done + [p.x]) + p.Rest();
  }

  /** Every instruction but the last is offered exactly once, in layout order, until
      the iteration limit; the outcome is greedy deletion. */
  method RemovePhase(L0: Layout, crashes: Layout -> bool, limit: nat) returns (L: Layout, offered: seq<InstId>)
    requires Tidy(L0) && L0 != [] && crashes(L0)
    ensures offered <= Flat(L0) && |offered| == if limit < |Flat(L0)| - 1 then limit else |Flat(L0)| - 1
    ensures L == Greedy(crashes, L0, offered) && Tidy(L) && crashes(L)
  {
    FirstPlaceWhole(L0);
    var mutator := new RemoveInst(L0);
    ghost var p := FirstPlace(L0);
    L, offered := L0, [];
    for i := 0 to limit
      invariant fresh(mutator) && mutator.At(p) && |offered| == i
      invariant Offering(crashes, L0, L, p, offered)
    {
      RestEmpty(p);
      var x := mutator.inst;
      var r := mutator.Mutate(L, p);
      if r.None? {
        break;
      }
      OfferNext(crashes, L0, L, p, offered);
      offered := offered + [x];
      if crashes(r.value) {
        L, p := r.value, Gone(p);
      } else {
        p := Kept(p);
      }
    }
  }
}
