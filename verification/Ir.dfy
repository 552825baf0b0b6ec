/** The part of a Cranelift function that the generator edits: the block layout,
    block parameters, straight-line instructions and typed terminators. */
module Ir {
  import opened Graphs

  type Value = nat

  datatype Option<T> = None | Some(value: T)

  datatype Type =
    | I8 | I16 | I32 | I64 | I128 | F16 | F32 | F64 | F128
    | I8X16 | I16X8 | I32X4 | I64X2 | F16X8 | F32X4 | F64X2

  function Elements(s: seq<Block>): set<Block> {
    set b | b in s
  }

  datatype TypedValue = TypedValue(value: Value, ty: Type)

  predicate DistinctValues(vs: seq<TypedValue>) {
    forall i, j :: 0 <= i < j < |vs| ==> vs[i].value != vs[j].value
  }

  /** A branch target with the arguments for its parameters. */
  datatype BlockCall = BlockCall(block: Block, args: seq<Value>)

  /** Operations, with the entities they refer to.  `Memory` stands for the loads,
      stores and atomics, `Other` for everything that matters only by its operands. */
  datatype Opcode =
    | Const | Uextend | Nop
    | Call(func: nat) | FuncAddr(func: nat) | CallIndirect(sig: nat)
    | StackAddr(slot: nat) | StackLoad(slot: nat) | StackStore(slot: nat)
    | GlobalValue(global: nat)
    | Memory(id: nat) | Other(id: nat)
  {
    /** Operations whose operands are never rewritten. */
    predicate TouchesMemory() {
      Memory? || StackLoad? || StackStore?
    }
  }

  /** An instruction that does not end a block. */
  datatype Inst = Inst(op: Opcode, args: seq<Value>, results: seq<TypedValue>)

  /** How a block ends.  Entry 0 of a branch table is its default. */
  datatype Terminator =
    | NoTerminator
    | Jump(dest: BlockCall)
    | Brif(cond: Value, onTrue: BlockCall, onFalse: BlockCall)
    | BrTable(cond: Value, table: seq<BlockCall>)
    | Return(values: seq<Value>)
  {
    function Calls(): seq<BlockCall> {
      match this
      case NoTerminator => []
      case Jump(d) => [d]
      case Brif(_, t, f) => [t, f]
      case BrTable(_, table) => table
      case Return(_) => []
    }

    function Dests(): (d: seq<Block>)
      ensures |d| == |Calls()| && forall i :: 0 <= i < |d| ==> d[i] == Calls()[i].block
    {
      seq(|Calls()|, i requires 0 <= i < |Calls()| => Calls()[i].block)
    }

    function Targets(): set<Block> {
      Elements(Dests())
    }

    /** Pairwise distinct targets: one for a jump, two for a conditional, three
        or more for a table. */
    predicate Shaped() {
      && (Jump? || Brif? || (BrTable? && |table| >= 3))
      && Distinct(Dests())
    }

    predicate Conditional() {
      Brif? || BrTable?
    }

    predicate NoArgs() {
      forall i :: 0 <= i < |Calls()| ==> Calls()[i].args == []
    }
  }

  /** What a function holds for one block. */
  datatype BlockData = BlockData(params: seq<TypedValue>, insts: seq<Inst>, term: Terminator)

  /** The state of a function, as a value. */
  datatype Code = Code(nextBlock: Block, nextValue: Value, layout: seq<Block>, blocks: map<Block, BlockData>)
  {
    /** The layout lists blocks once, and every listed block has its data. */
    predicate Laid() {
      && layout != []
      && Distinct(layout)
      && (forall b :: b in layout ==> b in blocks)
    }

    /** The flow graph of the blocks in the layout. */
    function Graph(): Cfg
      requires layout != []
    {
      Cfg(layout[0], map b | b in layout && b in blocks :: blocks[b].term.Targets())
    }
  }

  /** `g` is the flow graph of `s`. */
  ghost predicate HasGraph(s: Code, g: Cfg) {
    && s.Laid() && g.entry == s.layout[0]
    && (forall b :: b in g.succ <==> b in s.layout)
    && (forall b :: b in s.layout ==> g.succ[b] == s.blocks[b].term.Targets())
  }

  lemma GraphOf(s: Code)
    requires s.Laid()
    ensures HasGraph(s, s.Graph())
  {
  }

  lemma GraphUnique(s: Code, g: Cfg)
    requires HasGraph(s, g)
    ensures s.Graph() == g
  {
    assert s.Graph().succ.Keys == g.succ.Keys;
  }

  /** A layout with one block taken out. */
  function Without(L: seq<Block>, r: Block): (L': seq<Block>)
    ensures forall b :: b in L' <==> b in L && b != r
  {
    if L == [] then [] else if L[0] == r then Without(L[1..], r) else [L[0]] + Without(L[1..], r)
  }

  lemma {:induction false} WithoutLaid(L: seq<Block>, r: Block)
    requires Distinct(L)
    ensures Distinct(Without(L, r))
    ensures L != [] && L[0] != r ==> Without(L, r) != [] && Without(L, r)[0] == L[0]
  {
    if L != [] {
      WithoutLaid(L[1..], r);
      assert L[0] !in L[1..];
      assert L[0] !in Without(L[1..], r);
    }
  }

  /** `s` with the contents of block `b` replaced. */
  function WithBlock(s: Code, b: Block, d: BlockData): Code {
    s.(blocks := s.blocks[b := d])
  }

  class Func {
    var nextBlock: Block
    var nextValue: Value
    var layout: seq<Block>
    var blocks: map<Block, BlockData>

    constructor ()
      ensures State() == Code(0, 0, [], map[])
    {
      nextBlock, nextValue, layout, blocks := 0, 0, [], map[];
    }

    function State(): Code
      reads this
    {
      Code(nextBlock, nextValue, layout, blocks)
    }

    /** Allocates a block number. */
    method MakeBlock() returns (b: Block)
      modifies this`nextBlock
      ensures b == old(nextBlock) && nextBlock == b + 1
    {
      b := nextBlock;
      nextBlock := nextBlock + 1;
    }

    /** Allocates a value number. */
    method MakeValue() returns (v: Value)
      modifies this`nextValue
      ensures v == old(nextValue) && nextValue == v + 1
    {
      v := nextValue;
      nextValue := nextValue + 1;
    }

    /** Puts a block with its contents at the end of the layout. */
    method InsertBlock(b: Block, d: BlockData)
      modifies this`layout, this`blocks
      ensures layout == old(layout) + [b] && blocks == old(blocks)[b := d]
    {
      layout, blocks := layout + [b], blocks[b := d];
    }

    /** Replaces the contents of a block. */
    method SetBlock(b: Block, d: BlockData)
      modifies this`blocks
      ensures State() == WithBlock(old(State()), b, d)
    {
      blocks := blocks[b := d];
    }

    /** Ends a block with `t`. */
    method Terminate(b: Block, t: Terminator)
      requires b in blocks
      modifies this`blocks
      ensures blocks == old(blocks)[b := old(blocks)[b].(term := t)]
    {
      blocks := blocks[b := blocks[b].(term := t)];
    }
  }
}
