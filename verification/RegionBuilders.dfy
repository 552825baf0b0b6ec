/** The region builders of the control-flow constructor: what each appends to a
    function, and that it realises its region graph. */
module RegionBuilders {
  import opened Graphs
  import opened Regions
  import opened Ir

  const OPEN: BlockData := BlockData([], [], NoTerminator)

  /** A block as the builders leave it: empty but for a well-shaped branch without
      arguments.  Only a conditional branch's block carries a parameter, the
      condition. */
  ghost predicate IsBranch(d: BlockData) {
    && d.insts == [] && d.term.Shaped() && d.term.NoArgs()
    && (d.params == [] || (|d.params| == 1 && d.term.Conditional()))
  }

  /** Every block number in use is below the next one. */
  ghost predicate Fresh(s: Code) {
    && (forall b :: b in s.layout ==> b < s.nextBlock)
    && (forall b :: b in s.blocks ==> b < s.nextBlock)
  }

  /** The block data realise the region `R`, with its last block still open. */
  ghost predicate Realises(D: map<Block, BlockData>, R: Cfg, last: Block) {
    && (forall b :: b in R.succ ==> b in D)
    && (forall b :: b in R.succ && b != last ==> IsBranch(D[b]) && D[b].term.Targets() == R.succ[b])
    && last in R.succ && D[last] == OPEN
  }

  /** `s'` is `s` with fresh blocks appended that realise the region `R`. */
  ghost predicate Grown(s: Code, s': Code, R: Cfg, last: Block) {
    && s.nextBlock <= s'.nextBlock
    && (forall b :: b in R.succ <==> s.nextBlock <= b < s'.nextBlock)
    && s.layout <= s'.layout
    && Distinct(s'.layout[|s.layout|..])
    && (forall b :: b in s'.layout[|s.layout|..] <==> b in R.succ)
    && (forall b :: b in s.blocks && b !in R.succ ==> b in s'.blocks && s'.blocks[b] == s.blocks[b])
    && (forall b :: b in s'.blocks ==> b in s.blocks || b in R.succ)
    && Realises(s'.blocks, R, last)
  }

  /** `s` with `n` fresh blocks and `m` fresh values. */
  function Appended(s: Code, n: nat, m: nat, L: seq<Block>, D: map<Block, BlockData>): Code {
    Code(s.nextBlock + n, s.nextValue + m, s.layout + L, s.blocks + D)
  }

  lemma AppendedGrows(s: Code, s': Code, n: nat, m: nat, L: seq<Block>, D: map<Block, BlockData>, R: Cfg, last: Block)
    requires s' == Appended(s, n, m, L, D)
    requires Realises(D, R, last) && D.Keys == R.succ.Keys
    requires forall b :: b in R.succ <==> s.nextBlock <= b < s.nextBlock + n
    requires Distinct(L) && forall b :: b in L <==> b in R.succ
    ensures Grown(s, s', R, last)
  {
    assert s'.layout[|s.layout|..] == L;
  }

  function Plain(b: Block): BlockCall {
    BlockCall(b, [])
  }

  /** Block numbers `base`, `base + 1`, ... in order. */
  function Consecutive(base: Block, n: nat): (L: seq<Block>)
    ensures |L| == n && (forall i :: 0 <= i < n ==> L[i] == base + i)
  {
    if n == 0 then [] else Consecutive(base, n - 1) + [base + n - 1]
  }

  lemma ConsecutiveMembers(base: Block, n: nat)
    ensures forall b: Block :: b in Consecutive(base, n) <==> base <= b < base + n
    ensures Distinct(Consecutive(base, n))
  {
    forall b: Block | base <= b < base + n
      ensures b in Consecutive(base, n)
    {
      assert Consecutive(base, n)[b - base] == b;
    }
  }

  lemma JumpTargets(b: Block)
    ensures Jump(Plain(b)).Targets() == {b}
  {
    assert Jump(Plain(b)).Dests() == [b];
  }

  lemma BrifTargets(c: Value, t: BlockCall, f: BlockCall)
    ensures Brif(c, t, f).Targets() == {t.block, f.block}
  {
    assert Brif(c, t, f).Dests() == [t.block, f.block];
  }

  /** The first `i` blocks of a chain of `n`. */
  function SequentialData(base: Block, n: nat, i: nat): map<Block, BlockData> {
    map b | b in Span(base, i) :: if b != base + n - 1 then BlockData([], [], Jump(Plain(b + 1))) else OPEN
  }

  function SequentialBlock(base: Block, n: nat, i: nat): BlockData {
    if i != n - 1 then BlockData([], [], Jump(Plain(base + i + 1))) else OPEN
  }

  /** The state with `n` blocks allocated and the first `i` of the chain placed. */
  function Chained(s: Code, n: nat, i: nat): Code {
    Appended(s, n, 0, Consecutive(s.nextBlock, i), SequentialData(s.nextBlock, n, i))
  }

  lemma ChainData(base: Block, n: nat, i: nat, b: Block)
    requires i < n && b == base + i
    ensures SequentialData(base, n, i + 1) == SequentialData(base, n, i)[b := SequentialBlock(base, n, i)]
  {
    assert Span(base, i + 1) == Span(base, i) + {b};
  }

  lemma MergeLater(m: map<Block, BlockData>, D: map<Block, BlockData>, b: Block, d: BlockData)
    ensures m + D[b := d] == (m + D)[b := d]
  {
  }

  lemma AppendLater(L: seq<Block>, M: seq<Block>, b: Block)
    ensures L + (M + [b]) == (L + M) + [b]
  {
  }

  lemma ChainStart(s: Code, n: nat)
    ensures Chained(s, n, 0) == s.(nextBlock := s.nextBlock + n)
  {
    assert s.layout + [] == s.layout;
    assert SequentialData(s.nextBlock, n, 0) == map[];
    assert s.blocks + map[] == s.blocks;
  }

  lemma ChainStep(s: Code, n: nat, i: nat)
    requires i < n
    ensures var t := Chained(s, n, i);
            var b := s.nextBlock + i;
            Chained(s, n, i + 1) == t.(layout := t.layout + [b],
                                       blocks := t.blocks[b := SequentialBlock(s.nextBlock, n, i)])
  {
    var b, base := s.nextBlock + i, s.nextBlock;
    ChainData(base, n, i, b);
    MergeLater(s.blocks, SequentialData(base, n, i), b, SequentialBlock(base, n, i));
    AppendLater(s.layout, Consecutive(base, i), b);
  }

  method MakeBlocks(f: Func, n: nat) returns (blocks: seq<Block>)
    modifies f`nextBlock
    ensures blocks == Consecutive(old(f.nextBlock), n) && f.nextBlock == old(f.nextBlock) + n
  {
    blocks := [];
    for i := 0 to n
      invariant blocks == Consecutive(old(f.nextBlock), i) && f.nextBlock == old(f.nextBlock) + i
    {
      var b := f.MakeBlock();
      blocks := blocks + [b];
    }
  }

  method PlaceChainBlock(f: Func, ghost s: Code, n: nat, ghost i: nat, b: Block, d: BlockData)
    requires i < n && f.State() == Chained(s, n, i)
    requires b == s.nextBlock + i && d == SequentialBlock(s.nextBlock, n, i)
    modifies f
    ensures f.State() == Chained(s, n, i + 1)
  {
    ChainStep(s, n, i);
    f.InsertBlock(b, d);
  }

  method BuildSequential(f: Func, n: nat) returns (region: Region)
    requires n >= 2
    modifies f
    ensures region == Sequential(Consecutive(old(f.nextBlock), n))
    ensures f.State() == Chained(old(f.State()), n, n)
  {
    ghost var s := f.State();
    var blocks := MakeBlocks(f, n);
    ChainStart(s, n);
    for i := 0 to n - 1
      invariant f.State() == Chained(s, n, i)
    {
      PlaceChainBlock(f, s, n, i, blocks[i], BlockData([], [], Jump(Plain(blocks[i + 1]))));
    }
    PlaceChainBlock(f, s, n, n - 1, blocks[n - 1], OPEN);
    region := Sequential(blocks);
  }

  lemma SequentialRealised(base: Block, n: nat)
    requires n >= 2
    ensures Realises(SequentialData(base, n, n), SequentialGraph(base, n), base + n - 1)
  {
    var D := SequentialData(base, n, n);
    forall b | b in D && b != base + n - 1
      ensures IsBranch(D[b]) && D[b].term.Targets() == {b + 1}
    {
      JumpTargets(b + 1);
    }
  }

  lemma SequentialGrows(s: Code, s': Code, base: Block, n: nat, last: Block, R: Cfg)
    requires n >= 2 && base == s.nextBlock && last == base + n - 1 && R == SequentialGraph(base, n)
    requires s' == Chained(s, n, n)
    ensures Grown(s, s', R, last)
  {
    SequentialRealised(base, n);
    ConsecutiveMembers(base, n);
    AppendedGrows(s, s', n, 0, Consecutive(base, n), SequentialData(base, n, n), R, last);
  }

  function IfElseData(b: Block, c: Value): map<Block, BlockData> {
    map[b := BlockData([TypedValue(c, I32)], [], Brif(c, Plain(b + 1), Plain(b + 2))),
        b + 1 := BlockData([], [], Jump(Plain(b + 3))),
        b + 2 := BlockData([], [], Jump(Plain(b + 3))),
        b + 3 := OPEN]
  }

  lemma IfElseRealised(b: Block, c: Value)
    ensures Realises(IfElseData(b, c), IfElseGraph(b), b + 3)
  {
    BrifTargets(c, Plain(b + 1), Plain(b + 2));
    JumpTargets(b + 3);
  }

  lemma IfElseGrows(s: Code, s': Code, b: Block, c: Value)
    requires b == s.nextBlock && s' == Appended(s, 4, 1, Consecutive(b, 4), IfElseData(b, c))
    ensures Grown(s, s', IfElseGraph(b), b + 3)
  {
    IfElseRealised(b, c);
    assert forall x :: x in IfElseGraph(b).succ <==> b <= x < b + 4;
    ConsecutiveMembers(b, 4);
    AppendedGrows(s, s', 4, 1, Consecutive(b, 4), IfElseData(b, c), IfElseGraph(b), b + 3);
  }

  lemma IfElsePlaced(m: map<Block, BlockData>, b: Block, c: Value)
    ensures m + IfElseData(b, c)
         == m[b := BlockData([TypedValue(c, I32)], [], Brif(c, Plain(b + 1), Plain(b + 2)))]
             [b + 1 := BlockData([], [], Jump(Plain(b + 3)))][b + 2 := BlockData([], [],
                                                                                 Jump(Plain(b + 3)))][b + 3 := OPEN]
  {
  }

  lemma FourLaid(L: seq<Block>, b: Block)
    ensures L + Consecutive(b, 4) == L + [b] + [b + 1] + [b + 2] + [b + 3]
  {
    assert Consecutive(b, 4) == [b, b + 1, b + 2, b + 3];
  }

  method BuildIfElse(f: Func) returns (region: Region)
    modifies f
    ensures var b := old(f.nextBlock); region == IfElse(b, b + 1, b + 2, b + 3)
    ensures var b := old(f.nextBlock);
            f.State() == Appended(old(f.State()), 4, 1, Consecutive(b, 4), IfElseData(b, old(f.nextValue)))
  {
    var cond := f.MakeBlock();
    var onTrue := f.MakeBlock();
    var onFalse := f.MakeBlock();
    var last := f.MakeBlock();
    var c := f.MakeValue();
    PlaceIfElse(f, cond, onTrue, onFalse, last, c);
    region := IfElse(cond, onTrue, onFalse, last);
  }

  method PlaceIfElse(f: Func, cond: Block, onTrue: Block, onFalse: Block, last: Block, c: Value)
    requires onTrue == cond + 1 && onFalse == cond + 2 && last == cond + 3
    modifies f`layout, f`blocks
    ensures f.layout == old(f.layout) + Consecutive(cond, 4) && f.blocks == old(f.blocks) + IfElseData(cond, c)
  {
    IfElsePlaced(f.blocks, cond, c);
    FourLaid(f.layout, cond);
    f.InsertBlock(cond, BlockData([TypedValue(c, I32)], [], Brif(c, Plain(onTrue), Plain(onFalse))));
    f.InsertBlock(onTrue, BlockData([], [], Jump(Plain(last))));
    f.InsertBlock(onFalse, BlockData([], [], Jump(Plain(last))));
    f.InsertBlock(last, OPEN);
  }

  function WhileData(b: Block, c: Value): map<Block, BlockData> {
    map[b := BlockData([TypedValue(c, I32)], [], Brif(c, Plain(b + 1), Plain(b + 2))),
        b + 1 := BlockData([], [], Jump(Plain(b))),
        b + 2 := OPEN]
  }

  lemma WhileRealised(b: Block, c: Value)
    ensures Realises(WhileData(b, c), WhileGraph(b), b + 2)
  {
    BrifTargets(c, Plain(b + 1), Plain(b + 2));
    JumpTargets(b);
  }

  lemma WhileGrows(s: Code, s': Code, b: Block, c: Value)
    requires b == s.nextBlock && s' == Appended(s, 3, 1, Consecutive(b, 3), WhileData(b, c))
    ensures Grown(s, s', WhileGraph(b), b + 2)
  {
    WhileRealised(b, c);
    assert forall x :: x in WhileGraph(b).succ <==> b <= x < b + 3;
    ConsecutiveMembers(b, 3);
    AppendedGrows(s, s', 3, 1, Consecutive(b, 3), WhileData(b, c), WhileGraph(b), b + 2);
  }

  lemma WhilePlaced(m: map<Block, BlockData>, b: Block, c: Value)
    ensures m + WhileData(b, c)
         == m[b := BlockData([TypedValue(c, I32)], [], Brif(c, Plain(b + 1), Plain(b + 2)))]
             [b + 1 := BlockData([], [], Jump(Plain(b)))][b + 2 := OPEN]
  {
  }

  lemma ThreeLaid(L: seq<Block>, b: Block)
    ensures L + Consecutive(b, 3) == L + [b] + [b + 1] + [b + 2]
  {
    assert Consecutive(b, 3) == [b, b + 1, b + 2];
  }

  method BuildWhile(f: Func) returns (region: Region)
    modifies f
    ensures var b := old(f.nextBlock); region == While(b, b + 1, b + 2)
    ensures var b := old(f.nextBlock);
            f.State() == Appended(old(f.State()), 3, 1, Consecutive(b, 3), WhileData(b, old(f.nextValue)))
  {
    var head := f.MakeBlock();
    var body := f.MakeBlock();
    var after := f.MakeBlock();
    var c := f.MakeValue();
    PlaceWhile(f, head, body, after, c);
    region := While(head, body, after);
  }

  method PlaceWhile(f: Func, head: Block, body: Block, after: Block, c: Value)
    requires body == head + 1 && after == head + 2
    modifies f`layout, f`blocks
    ensures f.layout == old(f.layout) + Consecutive(head, 3) && f.blocks == old(f.blocks) + WhileData(head, c)
  {
    WhilePlaced(f.blocks, head, c);
    ThreeLaid(f.layout, head);
    f.InsertBlock(head, BlockData([TypedValue(c, I32)], [], Brif(c, Plain(body), Plain(after))));
    f.InsertBlock(body, BlockData([], [], Jump(Plain(head))));
    f.InsertBlock(after, OPEN);
  }

  /** The default comes first in the table, then the cases. */
  function SwitchTable(default: Block, cases: seq<Block>): seq<BlockCall> {
    [Plain(default)] + seq(|cases|, i requires 0 <= i < |cases| => Plain(cases[i]))
  }

  function SwitchBlock(b: Block, c: Value, table: seq<BlockCall>, x: Block): BlockData {
    if x == b then BlockData([TypedValue(c, I32)], [], BrTable(c, table))
    else if x == b + 2 then OPEN
    else BlockData([], [], Jump(Plain(b + 2)))
  }

  function SwitchData(b: Block, c: Value, table: seq<BlockCall>, L: seq<Block>): map<Block, BlockData> {
    map x | x in L :: SwitchBlock(b, c, table, x)
  }

  lemma SwitchDataStep(b: Block, c: Value, table: seq<BlockCall>, L: seq<Block>, x: Block)
    ensures SwitchData(b, c, table, L + [x]) == SwitchData(b, c, table, L)[x := SwitchBlock(b, c, table, x)]
  {
  }

  function SwitchLayout(b: Block, k: nat): seq<Block> {
    [b] + Consecutive(b + 3, k) + [b + 1] + [b + 2]
  }

  /** Places one more block of a switch region after the blocks `L`. */
  method PlaceSwitchBlock(f: Func, ghost s: Code, ghost table: seq<BlockCall>, ghost L: seq<Block>, x: Block,
                          d: BlockData)
    requires f.layout == s.layout + L
    requires f.blocks == s.blocks + SwitchData(s.nextBlock, s.nextValue, table, L)
    requires d == SwitchBlock(s.nextBlock, s.nextValue, table, x)
    modifies f`layout, f`blocks
    ensures f.layout == s.layout + (L + [x])
    ensures f.blocks == s.blocks + SwitchData(s.nextBlock, s.nextValue, table, L + [x])
  {
    SwitchDataStep(s.nextBlock, s.nextValue, table, L, x);
    f.InsertBlock(x, d);
  }

  method PlaceCases(f: Func, ghost s: Code, ghost table: seq<BlockCall>, cases: seq<Block>, last: Block)
    requires f.layout == s.layout + [s.nextBlock]
    requires f.blocks == s.blocks + SwitchData(s.nextBlock, s.nextValue, table, [s.nextBlock])
    requires last == s.nextBlock + 2 && forall i :: 0 <= i < |cases| ==> cases[i] > last
    modifies f`layout, f`blocks
    ensures f.layout == s.layout + ([s.nextBlock] + cases)
    ensures f.blocks == s.blocks + SwitchData(s.nextBlock, s.nextValue, table, [s.nextBlock] + cases)
  {
    ghost var b := s.nextBlock;
    assert [b] + cases[..0] == [b];
    for i := 0 to |cases|
      invariant f.layout == s.layout + ([b] + cases[..i])
      invariant f.blocks == s.blocks + SwitchData(b, s.nextValue, table, [b] + cases[..i])
    {
      PlaceSwitchBlock(f, s, table, [b] + cases[..i], cases[i], BlockData([], [], Jump(Plain(last))));
      assert [b] + cases[..i] + [cases[i]] == [b] + cases[..i + 1];
    }
    assert cases[..|cases|] == cases;
  }

  /** A switch with consecutive blocks. */
  function Fan(b: Block, k: nat): Region {
    Switch(b, b + 1, Consecutive(b + 3, k), b + 2)
  }

  /** `s'` is `s` with a switch of `k` cases appended. */
  ghost predicate SwitchBuilt(s: Code, s': Code, k: nat) {
    var b, L := s.nextBlock, SwitchLayout(s.nextBlock, k);
    s' == Appended(s, k + 3, 1, L, SwitchData(b, s.nextValue, SwitchTable(b + 1, Consecutive(b + 3, k)), L))
  }

  method BuildSwitch(f: Func, k: nat) returns (region: Region)
    modifies f
    ensures region == Fan(old(f.nextBlock), k) && SwitchBuilt(old(f.State()), f.State(), k)
  {
    ghost var s := f.State();
    var cond := f.MakeBlock();
    var default := f.MakeBlock();
    var last := f.MakeBlock();
    var cases := MakeBlocks(f, k);
    var table := SwitchTable(default, cases);
    var c := f.MakeValue();
    assert SwitchData(cond, c, table, []) == map[];
    PlaceSwitchBlock(f, s, table, [], cond, BlockData([TypedValue(c, I32)], [], BrTable(c, table)));
    assert [] + [cond] == [cond];
    PlaceCases(f, s, table, cases, last);
    PlaceSwitchBlock(f, s, table, [cond] + cases, default, BlockData([], [], Jump(Plain(last))));
    PlaceSwitchBlock(f, s, table, [cond] + cases + [default], last, OPEN);
    region := Switch(cond, default, cases, last);
  }

  lemma SwitchDests(b: Block, c: Value, k: nat)
    ensures BrTable(c, SwitchTable(b + 1, Consecutive(b + 3, k))).Dests() == [b + 1] + Consecutive(b + 3, k)
  {
  }

  lemma SwitchTargets(b: Block, c: Value, k: nat)
    ensures var t := BrTable(c, SwitchTable(b + 1, Consecutive(b + 3, k)));
            t.Targets() == Span(b, k + 3) - {b, b + 2} && (k >= 2 ==> t.Shaped())
  {
    SwitchDests(b, c, k);
    ConsecutiveMembers(b + 3, k);
    var d := [b + 1] + Consecutive(b + 3, k);
    assert forall x :: x in d <==> x == b + 1 || x in Consecutive(b + 3, k);
  }

  lemma SwitchMembers(b: Block, k: nat)
    ensures forall x: Block :: x in SwitchLayout(b, k) <==> b <= x < b + k + 3
    ensures Distinct(SwitchLayout(b, k))
  {
    ConsecutiveMembers(b + 3, k);
  }

  lemma SwitchRealised(b: Block, c: Value, k: nat, table: seq<BlockCall>, L: seq<Block>)
    requires forall x: Block :: x in L <==> b <= x < b + k + 3
    requires var t := BrTable(c, table);
             t.Shaped() && t.NoArgs() && t.Targets() == Span(b, k + 3) - {b, b + 2}
    ensures Realises(SwitchData(b, c, table, L), SwitchGraph(b, k), b + 2)
  {
    var D := SwitchData(b, c, table, L);
    var R := SwitchGraph(b, k);
    forall x | x in R.succ && x != b + 2
      ensures IsBranch(D[x]) && D[x].term.Targets() == R.succ[x]
    {
      JumpTargets(b + 2);
    }
  }

  lemma SwitchGrows(s: Code, s': Code, b: Block, c: Value, k: nat, table: seq<BlockCall>, L: seq<Block>)
    requires k >= 2 && b == s.nextBlock && table == SwitchTable(b + 1, Consecutive(b + 3, k)) && L == SwitchLayout(b, k)
    requires s' == Appended(s, k + 3, 1, L, SwitchData(b, c, table, L))
    ensures Grown(s, s', SwitchGraph(b, k), b + 2)
  {
    SwitchMembers(b, k);
    SwitchTargets(b, c, k);
    assert BrTable(c, table).NoArgs();
    SwitchRealised(b, c, k, table, L);
    SwitchAppends(s, s', b, c, k, table, L);
  }

  lemma SwitchAppends(s: Code, s': Code, b: Block, c: Value, k: nat, table: seq<BlockCall>, L: seq<Block>)
    requires b == s.nextBlock && Distinct(L) && forall x: Block :: x in L <==> b <= x < b + k + 3
    requires Realises(SwitchData(b, c, table, L), SwitchGraph(b, k), b + 2)
    requires s' == Appended(s, k + 3, 1, L, SwitchData(b, c, table, L))
    ensures Grown(s, s', SwitchGraph(b, k), b + 2)
  {
    SwitchKeys(b, c, k, table, L);
    AppendedGrows(s, s', k + 3, 1, L, SwitchData(b, c, table, L), SwitchGraph(b, k), b + 2);
  }

  lemma SwitchKeys(b: Block, c: Value, k: nat, table: seq<BlockCall>, L: seq<Block>)
    requires forall x: Block :: x in L <==> b <= x < b + k + 3
    ensures SwitchData(b, c, table, L).Keys == SwitchGraph(b, k).succ.Keys
    ensures forall x: Block :: x in SwitchGraph(b, k).succ <==> b <= x < b + k + 3
  {
  }

  // ----- regions by the names of their blocks -----

  /** What follows `b` in a list. */
  function After(bs: seq<Block>, b: Block): set<Block> {
    if |bs| < 2 then {} else if bs[0] == b then {bs[1]} else After(bs[1..], b)
  }

  /** Blocks in a row. */
  function RowGraph(bs: seq<Block>): Cfg
    requires bs != []
  {
    Cfg(bs[0], map b | b in bs :: After(bs, b))
  }

  /** A head, a default and cases that all lead to a last block. */
  function FanGraph(h: Block, d: Block, cs: seq<Block>, l: Block): Cfg {
    Cfg(h, map b | b in {h, d, l} + Elements(cs) ::
          if b == h then {d} + Elements(cs) else if b == l then {} else {l})
  }

  /** The graph of a region. */
  function RegionGraph(region: Region): Cfg
    requires region.Sequential? ==> region.blocks != []
  {
    match region
    case Sequential(bs) => RowGraph(bs)
    case IfElse(c, t, e, l) => Cfg(c, map[c := {t, e}, t := {l}, e := {l}, l := {}])
    case While(h, b, a) => Cfg(h, map[h := {b, a}, b := {h}, a := {}])
    case Switch(h, d, cs, l) => FanGraph(h, d, cs, l)
  }

  function Members(region: Region): seq<Block> {
    match region
    case Sequential(bs) => bs
    case IfElse(c, t, e, l) => [c, t, e, l]
    case While(h, b, a) => [h, b, a]
    case Switch(h, d, cs, l) => [h, d, l] + cs
  }

  /** Two to four blocks in a row, and six to eight cases in a switch. */
  predicate RightSize(region: Region) {
    (region.Sequential? ==> 2 <= |region.blocks| < 5) && (region.Switch? ==> 6 <= |region.cases| < 9)
  }

  /** Every block may be replaced later, but for the two ends of an if-else and the last
      block of a switch. */
  lemma CandidatesAre(region: Region, b: Block)
    requires Distinct(Members(region))
    ensures b in region.Candidates() <==>
            b in Members(region) && (region.IfElse? ==> b != region.First() && b != region.Last())
            && (region.Switch? ==> b != region.Last())
  {
    match region
    case Sequential(_) =>
    case IfElse(c, t, e, l) =>
      var bs := Members(region);
      assert bs[0] != bs[1] && bs[0] != bs[2] && bs[1] != bs[3] && bs[2] != bs[3];
    case While(_, _, _) =>
    case Switch(h, d, cs, l) => SwitchCandidates(h, d, cs, l, b);
  }

  lemma SwitchCandidates(h: Block, d: Block, cs: seq<Block>, l: Block, b: Block)
    requires Distinct([h, d, l] + cs)
    ensures b in Switch(h, d, cs, l).Candidates() <==> b in [h, d, l] + cs && b != l
  {
    var bs := [h, d, l] + cs;
    assert bs[0] != bs[2] && bs[1] != bs[2];
    forall i | 0 <= i < |cs|
      ensures cs[i] != l
    {
      assert bs[i + 3] != bs[2];
    }
  }

  /** `R` is the graph of the region, whose blocks are all different. */
  ghost predicate Draws(region: Region, R: Cfg) {
    RightSize(region) && Distinct(Members(region)) && R == RegionGraph(region)
  }

  predicate IsJump(blocks: map<Block, BlockData>, b: Block, to: Block) {
    b in blocks && blocks[b] == BlockData([], [], Jump(Plain(to)))
  }

  predicate IsOpen(blocks: map<Block, BlockData>, b: Block) {
    b in blocks && blocks[b] == OPEN
  }

  /** The block branches on its one parameter, a 32-bit value. */
  predicate IsTest(blocks: map<Block, BlockData>, b: Block, c: Value, dests: seq<Block>, table: bool) {
    && b in blocks && blocks[b].params == [TypedValue(c, I32)] && blocks[b].insts == []
    && (if table then blocks[b].term.BrTable? else blocks[b].term.Brif?)
    && blocks[b].term.cond == c && blocks[b].term.Dests() == dests
  }

  predicate CodesWith(blocks: map<Block, BlockData>, region: Region, c: Value) {
    match region
    case Sequential(bs) =>
      bs != [] && IsOpen(blocks, bs[|bs| - 1]) && forall i :: 0 <= i < |bs| - 1 ==> IsJump(blocks, bs[i], bs[i + 1])
    case IfElse(b, t, e, l) =>
      IsTest(blocks, b, c, [t, e], false) && IsJump(blocks, t, l) && IsJump(blocks, e, l) && IsOpen(blocks, l)
    case While(h, b, a) =>
      IsTest(blocks, h, c, [b, a], false) && IsJump(blocks, b, h) && IsOpen(blocks, a)
    case Switch(h, d, cs, l) =>
      && IsTest(blocks, h, c, [d] + cs, true) && IsJump(blocks, d, l) && IsOpen(blocks, l)
      && forall x :: x in cs ==> IsJump(blocks, x, l)
  }

  /** The blocks branch to each other as the region says, on some condition `c`, and the
      last is open. */
  ghost predicate Codes(blocks: map<Block, BlockData>, region: Region) {
    exists c :: CodesWith(blocks, region, c)
  }

  lemma {:induction false} AfterConsecutive(b: Block, n: nat, x: Block)
    requires b <= x < b + n
    ensures After(Consecutive(b, n), x) == if x == b + n - 1 then {} else {x + 1}
    decreases n
  {
    var bs := Consecutive(b, n);
    if n >= 2 && x != b {
      assert bs[1..] == Consecutive(b + 1, n - 1);
      AfterConsecutive(b + 1, n - 1, x);
    }
  }

  lemma RowConsecutive(b: Block, n: nat)
    requires n >= 1
    ensures RowGraph(Consecutive(b, n)) == SequentialGraph(b, n)
  {
    ConsecutiveMembers(b, n);
    forall x: Block | b <= x < b + n
      ensures After(Consecutive(b, n), x) == if x == b + n - 1 then {} else {x + 1}
    {
      AfterConsecutive(b, n, x);
    }
    RowIs(Consecutive(b, n), b, n);
  }

  lemma RowIs(bs: seq<Block>, b: Block, n: nat)
    requires bs != [] && bs[0] == b && forall x: Block :: x in bs <==> b <= x < b + n
    requires forall x: Block :: b <= x < b + n ==> After(bs, x) == if x == b + n - 1 then {} else {x + 1}
    ensures RowGraph(bs) == SequentialGraph(b, n)
  {
    var R, G := SequentialGraph(b, n), RowGraph(bs);
    assert R.succ.Keys == G.succ.Keys;
    assert R.succ == G.succ;
  }

  lemma SequentialDraws(b: Block, n: nat)
    requires 2 <= n < 5
    ensures Draws(Sequential(Consecutive(b, n)), SequentialGraph(b, n))
  {
    RowConsecutive(b, n);
    ConsecutiveMembers(b, n);
    assert Members(Sequential(Consecutive(b, n))) == Consecutive(b, n);
  }

  lemma SequentialCodes(m: map<Block, BlockData>, b: Block, n: nat)
    requires n >= 2
    ensures Codes(m + SequentialData(b, n, n), Sequential(Consecutive(b, n)))
  {
    var D := SequentialData(b, n, n);
    forall x: Block | b <= x < b + n
      ensures x in m + D && (m + D)[x] == SequentialBlock(b, n, x - b)
    {
      assert x in D;
    }
    SequentialCoded(m + D, b, n);
    assert CodesWith(m + D, Sequential(Consecutive(b, n)), 0);
  }

  lemma SequentialCoded(m: map<Block, BlockData>, b: Block, n: nat)
    requires n >= 2 && forall x: Block :: b <= x < b + n ==> x in m && m[x] == SequentialBlock(b, n, x - b)
    ensures CodesWith(m, Sequential(Consecutive(b, n)), 0)
  {
  }

  lemma IfElseDraws(b: Block)
    ensures Draws(IfElse(b, b + 1, b + 2, b + 3), IfElseGraph(b))
  {
  }

  lemma IfElseCodes(m: map<Block, BlockData>, b: Block, c: Value)
    ensures Codes(m + IfElseData(b, c), IfElse(b, b + 1, b + 2, b + 3))
  {
    var D := IfElseData(b, c);
    assert b in D && b + 1 in D && b + 2 in D && b + 3 in D;
    assert D[b].term.Dests() == [b + 1, b + 2];
    assert CodesWith(m + D, IfElse(b, b + 1, b + 2, b + 3), c);
  }

  lemma WhileDraws(b: Block)
    ensures Draws(While(b, b + 1, b + 2), WhileGraph(b))
  {
  }

  lemma WhileCodes(m: map<Block, BlockData>, b: Block, c: Value)
    ensures Codes(m + WhileData(b, c), While(b, b + 1, b + 2))
  {
    var D := WhileData(b, c);
    assert b in D && b + 1 in D && b + 2 in D;
    assert D[b].term.Dests() == [b + 1, b + 2];
    assert CodesWith(m + D, While(b, b + 1, b + 2), c);
  }

  lemma SwitchDraws(b: Block, k: nat)
    requires 6 <= k < 9
    ensures Draws(Fan(b, k), SwitchGraph(b, k))
  {
    FanConsecutive(b, k);
    FanDistinct(b, k);
    assert Members(Fan(b, k)) == [b, b + 1, b + 2] + Consecutive(b + 3, k);
  }

  lemma FanDistinct(b: Block, k: nat)
    ensures Distinct([b, b + 1, b + 2] + Consecutive(b + 3, k))
  {
    ConsecutiveMembers(b + 3, k);
  }

  lemma FanConsecutive(b: Block, k: nat)
    ensures FanGraph(b, b + 1, Consecutive(b + 3, k), b + 2) == SwitchGraph(b, k)
  {
    var cs := Consecutive(b + 3, k);
    ConsecutiveMembers(b + 3, k);
    FanBlocks(b, k, Elements(cs));
    var R, G := SwitchGraph(b, k), FanGraph(b, b + 1, cs, b + 2);
    assert R.succ.Keys == G.succ.Keys;
    assert R.succ == G.succ;
  }

  lemma FanBlocks(b: Block, k: nat, cs: set<Block>)
    requires forall x: Block :: x in cs <==> b + 3 <= x < b + 3 + k
    ensures {b, b + 1, b + 2} + cs == Span(b, k + 3)
    ensures {b + 1} + cs == Span(b, k + 3) - {b, b + 2}
  {
  }

  lemma SwitchCoded(m: map<Block, BlockData>, b: Block, c: Value, k: nat)
    requires forall x: Block :: b <= x < b + k + 3 ==>
               x in m && m[x] == SwitchBlock(b, c, SwitchTable(b + 1, Consecutive(b + 3, k)), x)
    ensures Codes(m, Fan(b, k))
  {
    ConsecutiveMembers(b + 3, k);
    SwitchDests(b, c, k);
    assert CodesWith(m, Fan(b, k), c);
  }

  lemma SwitchBlocks(s: Code, s': Code, b: Block, k: nat)
    requires b == s.nextBlock && SwitchBuilt(s, s', k)
    ensures forall x: Block :: b <= x < b + k + 3 ==>
              x in s'.blocks
              && s'.blocks[x] == SwitchBlock(b, s.nextValue, SwitchTable(b + 1, Consecutive(b + 3, k)), x)
  {
    SwitchMembers(b, k);
    forall x: Block | b <= x < b + k + 3
      ensures x in s'.blocks
              && s'.blocks[x] == SwitchBlock(b, s.nextValue, SwitchTable(b + 1, Consecutive(b + 3, k)), x)
    {
      assert x in SwitchLayout(b, k);
    }
  }

  lemma SwitchCodes(s: Code, s': Code, b: Block, k: nat)
    requires b == s.nextBlock && SwitchBuilt(s, s', k)
    ensures Codes(s'.blocks, Fan(b, k))
  {
    SwitchBlocks(s, s', b, k);
    SwitchCoded(s'.blocks, b, s.nextValue, k);
  }
}
