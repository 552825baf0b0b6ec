/** The integer part of the Pulley lowering.  A value of n bits lives in the low n
    bits of a 64-bit register; the bits above it are arbitrary, and stay arbitrary:
    a 32-bit operation leaves the upper half of its destination alone. */
module Pulley {
  import opened Powers

  // ----- words -----

  const SIZE64 := 0x1_0000_0000_0000_0000

  /** The contents of a register. */
  type Word = x: int | 0 <= x < SIZE64 witness 0

  datatype Ty = I8 | I16 | I32 | I64

  function Width(ty: Ty): nat {
    match ty case I8 => 8 case I16 => 16 case I32 => 32 case I64 => 64
  }

  /** The number of values of a type. */
  function Size(ty: Ty): (n: nat)
    ensures n > 0
  {
    match ty
    case I8 => 0x100
    case I16 => 0x1_0000
    case I32 => 0x1_0000_0000
    case I64 => SIZE64
  }

  /** The low bits that a type has. */
  function Low(ty: Ty, x: int): (w: Word)
    ensures w < Size(ty)
  {
    LowSmall(ty, x);
    x % Size(ty)
  }

  lemma LowSmall(ty: Ty, x: int)
    ensures 0 <= x % Size(ty) < Size(ty) <= SIZE64
  {
    match ty case I8 => case I16 => case I32 => case I64 =>
  }

  /** The low bits read as two's complement. */
  function Signed(ty: Ty, x: int): int {
    if 2 * Low(ty, x) >= Size(ty) then Low(ty, x) - Size(ty) else Low(ty, x)
  }

  // ----- Cranelift's side -----

  datatype Binop = Iadd | Isub | Imul | Band | Bor | Bxor

  datatype IntCC =
    | Equal | NotEqual
    | SignedLessThan | SignedLessThanOrEqual | SignedGreaterThan | SignedGreaterThanOrEqual
    | UnsignedLessThan | UnsignedLessThanOrEqual | UnsignedGreaterThan | UnsignedGreaterThanOrEqual

  type Value = nat

  /** How a value comes about; `Input` is passed in a register. */
  datatype Inst =
    | Input(reg: nat)
    | Iconst(imm: Word)
    | Binary(op: Binop, a: Value, b: Value)
    | Ireduce(a: Value)
    | Uextend(a: Value)
    | Sextend(a: Value)
    | Icmp(cc: IntCC, a: Value, b: Value)
    | Select(c: Value, a: Value, b: Value)

  datatype Def = Def(ty: Ty, inst: Inst)

  /** Straight-line code: value `i` is defined by entry `i`. */
  type Block = seq<Def>

  predicate TypedAt(p: Block, i: nat)
    requires i < |p|
  {
    match p[i].inst
    case Input(_) => true
    case Iconst(_) => true
    case Binary(_, a, b) => a < i && b < i && p[a].ty == p[i].ty && p[b].ty == p[i].ty
    case Ireduce(a) => a < i && Width(p[a].ty) > Width(p[i].ty)
    case Uextend(a) => a < i && Width(p[a].ty) < Width(p[i].ty)
    case Sextend(a) => a < i && Width(p[a].ty) < Width(p[i].ty)
    case Icmp(_, a, b) => a < i && b < i && p[a].ty == p[b].ty && p[i].ty == I8
    case Select(c, a, b) => c < i && a < i && b < i && p[a].ty == p[i].ty && p[b].ty == p[i].ty
  }

  predicate WellTyped(p: Block) {
    forall i :: 0 <= i < |p| ==> TypedAt(p, i)
  }

  /** No comparison of 8- or 16-bit operands goes into the value. */
  predicate Wide(p: Block, i: nat)
    requires i < |p| && WellTyped(p)
    decreases i
  {
    assert TypedAt(p, i);
    match p[i].inst
    case Input(_) => true
    case Iconst(_) => true
    case Binary(_, a, b) => Wide(p, a) && Wide(p, b)
    case Ireduce(a) => Wide(p, a)
    case Uextend(a) => Wide(p, a)
    case Sextend(a) => Wide(p, a)
    case Icmp(_, a, b) => p[b].ty in {I32, I64} && Wide(p, a) && Wide(p, b)
    case Select(c, a, b) => Wide(p, c) && Wide(p, a) && Wide(p, b)
  }

  /** A block without such comparisons at all. */
  predicate WideCompares(p: Block) {
    forall i :: 0 <= i < |p| && p[i].inst.Icmp? && p[i].inst.b < |p| ==> p[p[i].inst.b].ty in {I32, I64}
  }

  lemma {:induction false} AllWide(p: Block, i: nat)
    requires i < |p| && WellTyped(p) && WideCompares(p)
    ensures Wide(p, i)
    decreases i
  {
    assert TypedAt(p, i);
    match p[i].inst
    case Input(_) =>
    case Iconst(_) =>
    case Binary(_, a, b) => AllWide(p, a); AllWide(p, b);
    case Ireduce(a) => AllWide(p, a);
    case Uextend(a) => AllWide(p, a);
    case Sextend(a) => AllWide(p, a);
    case Icmp(_, a, b) => AllWide(p, a); AllWide(p, b);
    case Select(c, a, b) => AllWide(p, c); AllWide(p, a); AllWide(p, b);
  }

  function Bit(op: Binop, x: int, y: int): int
    requires op in {Band, Bor, Bxor}
  {
    var p, q := x % 2 == 1, y % 2 == 1;
    if (match op case Band => p && q case Bor => p || q case _ => p != q) then 1 else 0
  }

  /** The lowest `n` bits of a bitwise operation. */
  function Bitwise(op: Binop, x: int, y: int, n: nat): int
    requires op in {Band, Bor, Bxor}
    decreases n
  {
    if n == 0 then 0 else Bit(op, x, y) + 2 * Bitwise(op, x / 2, y / 2, n - 1)
  }

  /** Unbounded; the result is taken modulo the size of a type. */
  function Compute(op: Binop, x: int, y: int): int {
    match op
    case Iadd => x + y
    case Isub => x - y
    case Imul => x * y
    case _ => Bitwise(op, x, y, 64)
  }

  predicate Compares(cc: IntCC, ty: Ty, x: Word, y: Word) {
    Decides(cc, Reading(cc, ty, x), Reading(cc, ty, y))
  }

  /** The low bits as the condition reads them. */
  function Reading(cc: IntCC, ty: Ty, x: Word): int {
    if cc in {SignedLessThan, SignedLessThanOrEqual, SignedGreaterThan, SignedGreaterThanOrEqual} then Signed(ty, x)
    else Low(ty, x)
  }

  predicate Decides(cc: IntCC, a: int, b: int) {
    match cc
    case Equal => a == b
    case NotEqual => a != b
    case SignedLessThan | UnsignedLessThan => a < b
    case SignedLessThanOrEqual | UnsignedLessThanOrEqual => a <= b
    case SignedGreaterThan | UnsignedGreaterThan => a > b
    case SignedGreaterThanOrEqual | UnsignedGreaterThanOrEqual => a >= b
  }

  /** The value of entry `i`, zero above its type's bits. */
  function Eval(p: Block, args: nat -> Word, i: nat): Word
    requires i < |p| && WellTyped(p)
    decreases i
  {
    assert TypedAt(p, i);
    match p[i].inst
    case Input(r) => Low(p[i].ty, args(r))
    case Iconst(n) => Low(p[i].ty, n)
    case Binary(op, a, b) => Low(p[i].ty, Compute(op, Eval(p, args, a), Eval(p, args, b)))
    case Ireduce(a) => Low(p[i].ty, Eval(p, args, a))
    case Uextend(a) => Low(p[i].ty, Eval(p, args, a))
    case Sextend(a) => Low(p[i].ty, Signed(p[a].ty, Eval(p, args, a)))
    case Icmp(cc, a, b) => if Compares(cc, p[b].ty, Eval(p, args, a), Eval(p, args, b)) then 1 else 0
    case Select(c, a, b) => if Eval(p, args, c) != 0 then Eval(p, args, a) else Eval(p, args, b)
  }

  // ----- Pulley's side -----

  datatype Cmp = Xeq | Xneq | Xslt | Xslteq | Xult | Xulteq

  datatype PInst =
    | Xconst(dst: nat, width: Ty, imm: Word)
    | Xop(dst: nat, wide: bool, op: Binop, src1: nat, src2: nat)
    | Zext(dst: nat, width: Ty, src: nat)
    | Sext(dst: nat, width: Ty, src: nat)
    | Xcmp(dst: nat, wide: bool, cmp: Cmp, src1: nat, src2: nat)
    | Xselect(dst: nat, wide: bool, cond: nat, ifNonzero: nat, ifZero: nat)

  type Regs = nat -> Word

  function Reads(wide: bool): Ty {
    if wide then I64 else I32
  }

  /** Writes a register: all of it, or its lower half. */
  function Write(wide: bool, before: Word, x: int): Word {
    if wide then Low(I64, x) else before - Low(I32, before) + Low(I32, x)
  }

  predicate Holds(cmp: Cmp, wide: bool, x: Word, y: Word) {
    var ty := Reads(wide);
    match cmp
    case Xeq => Low(ty, x) == Low(ty, y)
    case Xneq => Low(ty, x) != Low(ty, y)
    case Xslt => Signed(ty, x) < Signed(ty, y)
    case Xslteq => Signed(ty, x) <= Signed(ty, y)
    case Xult => Low(ty, x) < Low(ty, y)
    case Xulteq => Low(ty, x) <= Low(ty, y)
  }

  /** What an instruction leaves in its destination. */
  function Outcome(i: PInst, regs: Regs): Word {
    match i
    case Xconst(_, w, n) => Low(I64, Signed(w, n))
    case Xop(d, wide, op, s, t) => Write(wide, regs(d),
                                         Compute(op, Low(Reads(wide), regs(s)), Low(Reads(wide), regs(t))))
    case Zext(_, w, s) => Low(w, regs(s))
    case Sext(_, w, s) => Low(I64, Signed(w, regs(s)))
    case Xcmp(d, wide, cmp, s, t) => Write(false, regs(d), if Holds(cmp, wide, regs(s), regs(t)) then 1 else 0)
    case Xselect(d, wide, c, s, t) => Write(wide, regs(d), if Low(I32, regs(c)) != 0 then regs(s) else regs(t))
  }

  function Step(i: PInst, regs: Regs): Regs {
    (r: nat) => if r == i.dst then Outcome(i, regs) else regs(r)
  }

  function Exec(code: seq<PInst>, regs: Regs): Regs {
    if code == [] then regs else Step(code[|code| - 1], Exec(code[..|code| - 1], regs))
  }

  /** A branch condition over registers. */
  datatype Cond = If32(reg: nat) | IfNot32(reg: nat) | IfX(cmp: Cmp, wide: bool, src1: nat, src2: nat)

  predicate Taken(c: Cond, regs: Regs) {
    match c
    case If32(r) => Low(I32, regs(r)) != 0
    case IfNot32(r) => Low(I32, regs(r)) == 0
    case IfX(cmp, wide, s, t) => Holds(cmp, wide, regs(s), regs(t))
  }

  // ----- arithmetic of low bits -----

  lemma ModTimes(x: int, y: int, m: int)
    requires m > 0
    ensures (x * y) % m == ((x % m) * (y % m)) % m
  {
    var k := ProductRest(m, x / m, x % m, y / m, y % m, x, y);
    ModShift(k, (x % m) * (y % m), m);
  }

  lemma ProductRest(m: int, q: int, r: int, s: int, t: int, x: int, y: int) returns (k: int)
    requires x == m * q + r && y == m * s + t
    ensures x * y == m * k + r * t
  {
    k := q * y + r * s;
    assert x * y == m * q * y + r * y;
    assert r * y == r * (m * s) + r * t;
    assert r * (m * s) == m * (r * s) && m * q * y == m * (q * y);
    assert m * k == m * (q * y) + m * (r * s);
  }

  lemma ModShift(k: int, x: int, m: int)
    requires m > 0
    ensures (m * k + x) % m == x % m
  {
    var d := (m * k + x) / m - x / m - k;
    assert m * d == x % m - (m * k + x) % m by {
      assert m * ((m * k + x) / m) + (m * k + x) % m == m * k + x;
      assert m * (x / m) + x % m == x;
      assert m * d == m * ((m * k + x) / m) - m * (x / m) - m * k;
    }
    if d != 0 { BigMultiple(m, d); }
  }

  lemma BigMultiple(m: int, d: int)
    requires m > 0 && d != 0
    ensures m * d >= m || m * d <= -m
  {
    if d > 0 {
      assert m * d == m * (d - 1) + m && m * (d - 1) >= 0;
    } else {
      var e := -d - 1;
      assert m * e >= 0 && m * d == -(m * e) - m;
    }
  }

  /** The low bits of low bits. */
  lemma LowLow(ty: Ty, wider: Ty, x: int)
    requires Width(ty) <= Width(wider)
    ensures Low(ty, Low(wider, x)) == Low(ty, x)
  {
    var k := Size(wider) / Size(ty);
    assert Size(wider) == Size(ty) * k by {
      match ty case I8 => case I16 => case I32 => case I64 =>
    }
    var q := x / Size(wider);
    DivMod(x, Size(wider));
    Regrouped(Size(ty), k, q);
    ModShift(k * q, Low(wider, x), Size(ty));
  }

  lemma Regrouped(a: int, b: int, c: int)
    ensures a * b * c == a * (b * c)
  {
  }

  lemma LowWrite(ty: Ty, wide: bool, before: Word, x: int)
    requires ty == I64 ==> wide
    ensures Low(ty, Write(wide, before, x)) == Low(ty, x)
  {
    if wide {
      LowLow(ty, I64, x);
    } else {
      LowLow(ty, I32, Write(wide, before, x));
      LowLow(ty, I32, x);
      assert Write(wide, before, x) == Size(I32) * (before / Size(I32)) + Low(I32, x);
      ModShift(before / Size(I32), Low(I32, x), Size(I32));
      LowLow(I32, I32, x);
    }
  }

  lemma Power64()
    ensures Pow2(64) == SIZE64
  {
    SmallPowers();
    EightMore(32);
    EightMore(40);
    EightMore(48);
    EightMore(56);
  }

  lemma SizeIsPower(ty: Ty)
    ensures Size(ty) == Pow2(Width(ty))
  {
    SmallPowers();
    Power64();
  }

  /** Halving and the lowest bit, modulo twice `m`. */
  lemma HalfMod(x: int, m: int)
    requires m > 0
    ensures (x / 2) % m == (x % (2 * m)) / 2 && x % 2 == (x % (2 * m)) % 2
  {
    var n := 2 * m;
    var q, r := x / n, x % n;
    DivMod(x, n);
    Doubled(m, q);
    Halves(x, m * q, r);
    ModShift(q, r / 2, m);
    SmallMod(r / 2, m);
  }

  lemma DivMod(x: int, n: int)
    requires n > 0
    ensures x == n * (x / n) + x % n && 0 <= x % n < n
  {
  }

  lemma Doubled(m: int, q: int)
    ensures (2 * m) * q == 2 * (m * q)
  {
  }

  lemma SmallMod(x: int, m: int)
    requires 0 <= x < m
    ensures x % m == x
  {
  }

  lemma Halves(x: int, z: int, r: int)
    requires x == 2 * z + r && r >= 0
    ensures x / 2 == z + r / 2 && x % 2 == r % 2
  {
  }

  lemma {:induction false} BitwiseSame(op: Binop, x: int, y: int, x': int, y': int, w: nat)
    requires op in {Band, Bor, Bxor} && x % Pow2(w) == x' % Pow2(w) && y % Pow2(w) == y' % Pow2(w)
    ensures Bitwise(op, x, y, w) == Bitwise(op, x', y', w)
    decreases w
  {
    if w > 0 {
      HalfMod(x, Pow2(w - 1));
      HalfMod(x', Pow2(w - 1));
      HalfMod(y, Pow2(w - 1));
      HalfMod(y', Pow2(w - 1));
      BitwiseSame(op, x / 2, y / 2, x' / 2, y' / 2, w - 1);
    }
  }

  lemma {:induction false} BitwiseMod(op: Binop, x: int, y: int, n: nat, w: nat)
    requires op in {Band, Bor, Bxor} && w <= n
    ensures Bitwise(op, x, y, n) % Pow2(w) == Bitwise(op, x, y, w)
    decreases w
  {
    if w > 0 {
      BitwiseMod(op, x / 2, y / 2, n - 1, w - 1);
      HalfMod(Bitwise(op, x, y, n), Pow2(w - 1));
      var b, rest := Bit(op, x, y), Bitwise(op, x / 2, y / 2, n - 1);
      assert (b + 2 * rest) / 2 == rest && (b + 2 * rest) % 2 == b;
    }
  }

  lemma LowBitwise(op: Binop, ty: Ty, x: int, y: int)
    requires op in {Band, Bor, Bxor}
    ensures Low(ty, Bitwise(op, x, y, 64)) == Low(ty, Bitwise(op, Low(ty, x), Low(ty, y), 64))
  {
    var w := Width(ty);
    SizeIsPower(ty);
    LowLow(ty, ty, x);
    LowLow(ty, ty, y);
    BitwiseMod(op, x, y, 64, w);
    BitwiseMod(op, Low(ty, x), Low(ty, y), 64, w);
    BitwiseSame(op, x, y, Low(ty, x), Low(ty, y), w);
  }

  lemma LowSum(ty: Ty, x: int, y: int)
    ensures Low(ty, x + y) == Low(ty, Low(ty, x) + Low(ty, y)) && Low(ty, x - y) == Low(ty, Low(ty, x) - Low(ty, y))
  {
    var m := Size(ty);
    assert x + y == m * (x / m + y / m) + (Low(ty, x) + Low(ty, y));
    ModShift(x / m + y / m, Low(ty, x) + Low(ty, y), m);
    assert x - y == m * (x / m - y / m) + (Low(ty, x) - Low(ty, y));
    ModShift(x / m - y / m, Low(ty, x) - Low(ty, y), m);
  }

  /** The low bits of a result depend only on the low bits of the operands. */
  lemma LowCompute(op: Binop, ty: Ty, x: int, y: int)
    ensures Low(ty, Compute(op, x, y)) == Low(ty, Compute(op, Low(ty, x), Low(ty, y)))
  {
    match op
    case Iadd => LowSum(ty, x, y);
    case Isub => LowSum(ty, x, y);
    case Imul => ModTimes(x, y, Size(ty));
    case _ => LowBitwise(op, ty, x, y);
  }

  /** An operation at least as wide as the type computes the type's low bits, whatever
      is above them. */
  lemma LowBits(op: Binop, ty: Ty, wide: bool, before: Word, x: Word, y: Word)
    requires ty == I64 ==> wide
    ensures Low(ty, Write(wide, before, Compute(op, Low(Reads(wide), x), Low(Reads(wide), y))))
         == Low(ty, Compute(op, Low(ty, x), Low(ty, y)))
  {
    var r := Reads(wide);
    LowWrite(ty, wide, before, Compute(op, Low(r, x), Low(r, y)));
    LowCompute(op, ty, Low(r, x), Low(r, y));
    LowLow(ty, r, x);
    LowLow(ty, r, y);
  }

  lemma LowSigned(ty: Ty, x: int)
    ensures Low(ty, Signed(ty, x)) == Low(ty, x)
  {
    LowLow(ty, ty, x);
    ModShift(-1, Low(ty, x), Size(ty));
  }

  /** A comparison sees only the low bits. */
  lemma SameCompare(cc: IntCC, ty: Ty, x: Word, y: Word)
    ensures Compares(cc, ty, Low(ty, x), Low(ty, y)) == Compares(cc, ty, x, y)
  {
    LowLow(ty, ty, x);
    LowLow(ty, ty, y);
  }

  lemma EvalLow(p: Block, args: Regs, i: nat)
    requires i < |p| && WellTyped(p)
    ensures Low(p[i].ty, Eval(p, args, i)) == Eval(p, args, i)
  {
    assert TypedAt(p, i);
    var ty := p[i].ty;
    match p[i].inst
    case Input(r) => LowLow(ty, ty, args(r));
    case Iconst(n) => LowLow(ty, ty, n);
    case Binary(op, a, b) => LowLow(ty, ty, Compute(op, Eval(p, args, a), Eval(p, args, b)));
    case Ireduce(a) => LowLow(ty, ty, Eval(p, args, a));
    case Uextend(a) => LowLow(ty, ty, Eval(p, args, a));
    case Sextend(a) => LowLow(ty, ty, Signed(p[a].ty, Eval(p, args, a)));
    case Icmp(cc, a, b) =>
    case Select(c, a, b) => if Eval(p, args, c) != 0 { EvalLow(p, args, a); } else { EvalLow(p, args, b); }
  }

  // ----- the lowering -----

  /** Running more code leaves the registers below `bound` alone. */
  ghost predicate Preserves(code: seq<PInst>, code': seq<PInst>, start: Regs, bound: nat) {
    forall r: nat :: r < bound ==> Exec(code', start)(r) == Exec(code, start)(r)
  }

  lemma EmitEffect(code: seq<PInst>, i: PInst, start: Regs)
    ensures Exec(code + [i], start)(i.dst) == Outcome(i, Exec(code, start))
    ensures Preserves(code, code + [i], start, i.dst)
  {
    var code' := code + [i];
    assert code'[..|code'| - 1] == code;
  }

  lemma PreservesMore(a: seq<PInst>, b: seq<PInst>, c: seq<PInst>, start: Regs, m: nat, n: nat)
    requires Preserves(a, b, start, m) && Preserves(b, c, start, n) && m <= n
    ensures Preserves(a, c, start, m)
  {
  }

  /** Where the lowering puts its instructions, and the next unused register. */
  class Context {
    var code: seq<PInst>
    var next: nat

    constructor (first: nat)
      ensures code == [] && next == first
    {
      code, next := [], first;
    }

    method Emit(i: PInst, ghost start: Regs) returns (r: nat)
      requires i.dst == next
      modifies this
      ensures r == old(next) && next == r + 1 && code == old(code) + [i]
      ensures Exec(code, start)(r) == Outcome(i, Exec(old(code), start))
      ensures Preserves(old(code), code, start, old(next))
    {
      ghost var before := code;
      r := next;
      next := next + 1;
      code := code + [i];
      EmitEffect(before, i, start);
    }
  }

  /** Each value so far is in the low bits of its register, unless a narrow comparison
      goes into it. */
  ghost predicate Carries(p: Block, args: Regs, regs: Regs, regOf: seq<nat>, next: nat)
    requires |regOf| <= |p| && WellTyped(p)
  {
    forall i :: 0 <= i < |regOf| ==>
      regOf[i] < next && (Wide(p, i) ==> Low(p[i].ty, regs(regOf[i])) == Eval(p, args, i))
  }

  /** What the code for value `i` leaves in its register, 32 bits of it at least,
      computed from the registers of the operands. */
  ghost predicate Leaves(p: Block, i: nat, regs: Regs, regOf: seq<nat>)
    requires i < |regOf| <= |p| && WellTyped(p)
  {
    assert TypedAt(p, i);
    match p[i].inst
    case Input(s) => regOf[i] == s
    case Iconst(n) => n <= 0x7fff_ffff ==> regs(regOf[i]) == n
    case Binary(op, a, b) =>
      p[i].ty != I64 ==>
        Low(I32, regs(regOf[i])) == Low(I32, Compute(op, Low(I32, regs(regOf[a])), Low(I32, regs(regOf[b]))))
    case Icmp(cc, a, b) =>
      Low(I32, regs(regOf[i])) == if Compares(cc, Reads(p[b].ty == I64), regs(regOf[a]), regs(regOf[b])) then 1 else 0
    case _ => true
  }

  ghost predicate AllLeave(p: Block, regs: Regs, regOf: seq<nat>, next: nat)
    requires |regOf| <= |p| && WellTyped(p)
  {
    forall i :: 0 <= i < |regOf| ==> regOf[i] < next && Leaves(p, i, regs, regOf)
  }

  lemma LeavesOn(p: Block, i: nat, regs: Regs, regs': Regs, regOf: seq<nat>, r: nat, next: nat)
    requires i < |regOf| < |p| && WellTyped(p) && AllLeave(p, regs, regOf, next)
    requires forall q: nat :: q < next ==> regs'(q) == regs(q)
    ensures Leaves(p, i, regs', regOf + [r])
  {
    assert TypedAt(p, i) && Leaves(p, i, regs, regOf);
    assert forall j :: 0 <= j < |regOf| ==> (regOf + [r])[j] == regOf[j] && regOf[j] < next;
  }

  lemma CarriesOn(p: Block, args: Regs, code: seq<PInst>, code': seq<PInst>, start: Regs, regOf: seq<nat>, next: nat,
                  next': nat)
    requires |regOf| <= |p| && WellTyped(p) && Carries(p, args, Exec(code, start), regOf, next)
    requires Preserves(code, code', start, next) && next <= next'
    ensures Carries(p, args, Exec(code', start), regOf, next')
  {
  }

  lemma SmallPositive(ty: Ty, n: Word)
    requires 2 * n < Size(ty)
    ensures Low(ty, n) == n && Signed(ty, n) == n
  {
    match ty case I8 => case I16 => case I32 => case I64 =>
  }

  /** A constant of a form that is the type's own, or that sign-extends to it. */
  lemma ImmFits(ty: Ty, width: Ty, n: Word)
    requires width == ty || 2 * n < Size(width)
    ensures Low(ty, Low(I64, Signed(width, Low(width, n)))) == Low(ty, n)
  {
    LowLow(ty, I64, Signed(width, Low(width, n)));
    if width == ty {
      LowSigned(ty, Low(ty, n));
      LowLow(ty, ty, n);
    } else {
      SmallPositive(width, n);
    }
  }

  lemma SmallConst(width: Ty, n: Word)
    requires 2 * n < Size(width)
    ensures Low(I64, Signed(width, Low(width, n))) == n
  {
    SmallPositive(width, n);
    SmallMod(n, SIZE64);
  }

  /** No shorter form of the constant would sign-extend to it. */
  ghost predicate ShortestForm(i: PInst, n: Word) {
    i.Xconst? && forall w: Ty :: Width(w) < Width(i.width) ==> 2 * n >= Size(w)
  }

  /** Constants: the shortest form that sign-extends to the value, or the form of the
      type. */
  method LowerImm(ctx: Context, ty: Ty, n: Word, ghost start: Regs) returns (r: nat)
    modifies ctx
    ensures old(ctx.next) <= r < ctx.next && Low(ty, Exec(ctx.code, start)(r)) == Low(ty, n)
    ensures n <= 0x7fff_ffff ==> Exec(ctx.code, start)(r) == n
    ensures Preserves(old(ctx.code), ctx.code, start, old(ctx.next))
    ensures |ctx.code| == |old(ctx.code)| + 1 && ShortestForm(ctx.code[|old(ctx.code)|], n)
  {
    var width := if n <= 0x7f then I8 else if n <= 0x7fff then I16 else if n <= 0x7fff_ffff then I32 else ty;
    ImmFits(ty, width, n);
    if n <= 0x7fff_ffff { SmallConst(width, n); }
    r := ctx.Emit(Xconst(ctx.next, width, Low(width, n)), start);
  }

  /** What lowering a value must achieve: its low bits in a register, and nothing
      lost. */
  ghost predicate Lowered(p: Block, args: Regs, i: nat, r: nat, before: seq<PInst>, bound: nat, code: seq<PInst>,
                          next: nat, start: Regs)
    requires i < |p| && WellTyped(p)
  {
    && bound <= next && r < next && Preserves(before, code, start, bound)
    && (Wide(p, i) ==> Low(p[i].ty, Exec(code, start)(r)) == Eval(p, args, i))
  }

  method LowerBinary(ctx: Context, p: Block, i: nat, regOf: seq<nat>, ghost args: Regs, ghost start: Regs)
    returns (r: nat)
    requires i < |p| && WellTyped(p) && p[i].inst.Binary? && |regOf| == i
    requires Carries(p, args, Exec(ctx.code, start), regOf, ctx.next)
    modifies ctx
    ensures Lowered(p, args, i, r, old(ctx.code), old(ctx.next), ctx.code, ctx.next, start)
    ensures Leaves(p, i, Exec(ctx.code, start), regOf + [r])
  {
    assert TypedAt(p, i);
    var Def(ty, Binary(op, a, b)) := p[i];
    ghost var regs := Exec(ctx.code, start);
    LowBits(op, ty, ty == I64, regs(ctx.next), regs(regOf[a]), regs(regOf[b]));
    if ty != I64 { LowWrite(I32, false, regs(ctx.next),
                            Compute(op, Low(I32, regs(regOf[a])), Low(I32, regs(regOf[b])))); }
    r := ctx.Emit(Xop(ctx.next, ty == I64, op, regOf[a], regOf[b]), start);
  }

  method LowerExtend(ctx: Context, p: Block, i: nat, regOf: seq<nat>, ghost args: Regs, ghost start: Regs)
    returns (r: nat)
    requires i < |p| && WellTyped(p) && (p[i].inst.Uextend? || p[i].inst.Sextend?) && |regOf| == i
    requires Carries(p, args, Exec(ctx.code, start), regOf, ctx.next)
    modifies ctx
    ensures Lowered(p, args, i, r, old(ctx.code), old(ctx.next), ctx.code, ctx.next, start)
  {
    assert TypedAt(p, i);
    var a := p[i].inst.a;
    ghost var x := Exec(ctx.code, start)(regOf[a]);
    if p[i].inst.Uextend? {
      r := ctx.Emit(Zext(ctx.next, p[a].ty, regOf[a]), start);
    } else {
      LowLow(p[a].ty, p[a].ty, x);
      LowLow(p[i].ty, I64, Signed(p[a].ty, x));
      r := ctx.Emit(Sext(ctx.next, p[a].ty, regOf[a]), start);
    }
  }

  /** A value narrowed in place: no code at all. */
  method LowerReduce(ctx: Context, p: Block, i: nat, regOf: seq<nat>, ghost args: Regs, ghost start: Regs)
    returns (r: nat)
    requires i < |p| && WellTyped(p) && p[i].inst.Ireduce? && |regOf| == i
    requires Carries(p, args, Exec(ctx.code, start), regOf, ctx.next)
    ensures Lowered(p, args, i, r, ctx.code, ctx.next, ctx.code, ctx.next, start)
  {
    assert TypedAt(p, i);
    var a := p[i].inst.a;
    LowLow(p[i].ty, p[a].ty, Exec(ctx.code, start)(regOf[a]));
    r := regOf[a];
  }

  /** The comparison that Pulley has for a condition, and whether its operands are
      swapped. */
  function CompareFor(cc: IntCC): (Cmp, bool) {
    match cc
    case Equal => (Xeq, false)
    case NotEqual => (Xneq, false)
    case SignedLessThan => (Xslt, false)
    case SignedLessThanOrEqual => (Xslteq, false)
    case UnsignedLessThan => (Xult, false)
    case UnsignedLessThanOrEqual => (Xulteq, false)
    case SignedGreaterThan => (Xslt, true)
    case SignedGreaterThanOrEqual => (Xslteq, true)
    case UnsignedGreaterThan => (Xult, true)
    case UnsignedGreaterThanOrEqual => (Xulteq, true)
  }

  /** The lowered comparison decides the condition on the low 32 or 64 bits. */
  lemma CompareRight(cc: IntCC, wide: bool, x: Word, y: Word)
    ensures var (cmp, swap) := CompareFor(cc);
            Holds(cmp, wide, if swap then y else x, if swap then x else y) == Compares(cc, Reads(wide), x, y)
  {
  }

  /** The condition with its operands swapped. */
  function Flip(cc: IntCC): IntCC {
    match cc
    case SignedGreaterThan => SignedLessThan
    case SignedGreaterThanOrEqual => SignedLessThanOrEqual
    case UnsignedGreaterThan => UnsignedLessThan
    case UnsignedGreaterThanOrEqual => UnsignedLessThanOrEqual
    case SignedLessThan => SignedGreaterThan
    case SignedLessThanOrEqual => SignedGreaterThanOrEqual
    case UnsignedLessThan => UnsignedGreaterThan
    case UnsignedLessThanOrEqual => UnsignedGreaterThanOrEqual
    case Equal => Equal
    case NotEqual => NotEqual
  }

  lemma FlipSwaps(cc: IntCC, ty: Ty, x: Word, y: Word)
    ensures Compares(Flip(cc), ty, y, x) == Compares(cc, ty, x, y)
  {
  }

  /** A comparison into a register.  Greater-than forms swap and try again. */
  method LowerIcmp(ctx: Context, wide: bool, cc: IntCC, a: nat, b: nat, ghost start: Regs) returns (r: nat)
    requires a < ctx.next && b < ctx.next
    modifies ctx
    ensures old(ctx.next) <= r < ctx.next && Preserves(old(ctx.code), ctx.code, start, old(ctx.next))
    ensures var regs := Exec(old(ctx.code), start);
            Low(I32, Exec(ctx.code, start)(r)) == if Compares(cc, Reads(wide), regs(a), regs(b)) then 1 else 0
    decreases CompareFor(cc).1
  {
    ghost var regs := Exec(ctx.code, start);
    if cc.SignedGreaterThan? || cc.SignedGreaterThanOrEqual? || cc.UnsignedGreaterThan?
        || cc.UnsignedGreaterThanOrEqual? {
      FlipSwaps(cc, Reads(wide), regs(a), regs(b));
      r := LowerIcmp(ctx, wide, Flip(cc), b, a, start);
    } else {
      CompareRight(cc, wide, regs(a), regs(b));
      LowBit(regs(ctx.next), Compares(cc, Reads(wide), regs(a), regs(b)));
      r := ctx.Emit(Xcmp(ctx.next, wide, CompareFor(cc).0, a, b), start);
    }
  }

  lemma LowBit(before: Word, b: bool)
    ensures Low(I32, Write(false, before, if b then 1 else 0)) == if b then 1 else 0
  {
    LowWrite(I32, false, before, if b then 1 else 0);
  }

  /** A condition for a value that no narrow comparison goes into.  Extensions do not matter, comparisons of 32 and 64
      bits become compare-and-branch, anything else is tested against zero. */
  method LowerCond(ctx: Context, p: Block, v: nat, regOf: seq<nat>, ghost args: Regs, ghost start: Regs)
    returns (c: Cond)
    requires v < |regOf| <= |p| && WellTyped(p) && Carries(p, args, Exec(ctx.code, start), regOf, ctx.next)
    modifies ctx
    ensures old(ctx.next) <= ctx.next && Preserves(old(ctx.code), ctx.code, start, old(ctx.next))
    ensures Wide(p, v) ==> (Taken(c, Exec(ctx.code, start)) <==> Eval(p, args, v) != 0)
    ensures CondRegs(c, ctx.next)
    decreases v
  {
    assert TypedAt(p, v);
    ghost var regs := Exec(ctx.code, start);
    match p[v].inst {
      case Uextend(a) =>
        EvalLow(p, args, a);
        SmallStays(p[a].ty, p[v].ty, Eval(p, args, a));
        c := LowerCond(ctx, p, a, regOf, args, start);
        return;
      case Icmp(cc, a, b) =>
        if p[b].ty == I32 || p[b].ty == I64 {
          var (cmp, swap) := CompareFor(cc);
          var wide := p[b].ty == I64;
          CompareRight(cc, wide, regs(regOf[a]), regs(regOf[b]));
          SameCompare(cc, p[b].ty, regs(regOf[a]), regs(regOf[b]));
          c := if swap then IfX(cmp, wide, regOf[b], regOf[a]) else IfX(cmp, wide, regOf[a], regOf[b]);
          return;
        }
      case _ =>
    }
    c := TestValue(ctx, p[v].ty, regOf[v], start);
  }

  predicate CondRegs(c: Cond, next: nat) {
    match c
    case If32(r) => r < next
    case IfNot32(r) => r < next
    case IfX(_, _, s, t) => s < next && t < next
  }

  lemma SmallStays(ty: Ty, wider: Ty, x: Word)
    requires Width(ty) <= Width(wider) && Low(ty, x) == x
    ensures Low(wider, x) == x
  {
    match ty case I8 => case I16 => case I32 => case I64 =>
  }

  /** A value tested against zero, after clearing what is above its bits. */
  method TestValue(ctx: Context, ty: Ty, r: nat, ghost start: Regs) returns (c: Cond)
    requires r < ctx.next
    modifies ctx
    ensures old(ctx.next) <= ctx.next && Preserves(old(ctx.code), ctx.code, start, old(ctx.next))
            && CondRegs(c, ctx.next)
    ensures Taken(c, Exec(ctx.code, start)) <==> Low(ty, Exec(old(ctx.code), start)(r)) != 0
  {
    ghost var x := Exec(ctx.code, start)(r);
    LowLow(ty, ty, x);
    match ty {
      case I8 =>
        SmallStays(I8, I32, Low(I8, x));
        var z := ctx.Emit(Zext(ctx.next, I8, r), start);
        c := If32(z);
      case I16 =>
        SmallStays(I16, I32, Low(I16, x));
        var z := ctx.Emit(Zext(ctx.next, I16, r), start);
        c := If32(z);
      case I32 =>
        c := If32(r);
      case I64 =>
        var z := ctx.Emit(Xconst(ctx.next, I8, 0), start);
        c := IfX(Xneq, true, r, z);
    }
  }

  /** A condition as a register whose low 32 bits are zero or not. */
  method EmitCond(ctx: Context, c: Cond, ghost start: Regs) returns (r: nat)
    requires CondRegs(c, ctx.next)
    modifies ctx
    ensures old(ctx.next) <= ctx.next && r < ctx.next && Preserves(old(ctx.code), ctx.code, start, old(ctx.next))
    ensures Low(I32, Exec(ctx.code, start)(r)) != 0 <==> Taken(c, Exec(old(ctx.code), start))
  {
    match c {
      case If32(s) =>
        r := s;
      case IfNot32(s) =>
        ghost var before := ctx.code;
        var z := ctx.Emit(Xconst(ctx.next, I8, 0), start);
        ghost var regs := Exec(ctx.code, start);
        LowBit(regs(ctx.next), Holds(Xeq, false, regs(s), regs(z)));
        ghost var middle := ctx.code;
        r := ctx.Emit(Xcmp(ctx.next, false, Xeq, s, z), start);
        PreservesMore(before, middle, ctx.code, start, old(ctx.next), old(ctx.next) + 1);
      case IfX(cmp, wide, s, t) =>
        ghost var regs := Exec(ctx.code, start);
        LowBit(regs(ctx.next), Holds(cmp, wide, regs(s), regs(t)));
        r := ctx.Emit(Xcmp(ctx.next, wide, cmp, s, t), start);
    }
  }

  method LowerSelect(ctx: Context, p: Block, i: nat, regOf: seq<nat>, ghost args: Regs, ghost start: Regs)
    returns (r: nat)
    requires i < |p| && WellTyped(p) && p[i].inst.Select? && |regOf| == i
    requires Carries(p, args, Exec(ctx.code, start), regOf, ctx.next)
    modifies ctx
    ensures Lowered(p, args, i, r, old(ctx.code), old(ctx.next), ctx.code, ctx.next, start)
  {
    assert TypedAt(p, i);
    var Def(ty, Select(v, a, b)) := p[i];
    ghost var code0, next0 := ctx.code, ctx.next;
    var cond := LowerCond(ctx, p, v, regOf, args, start);
    ghost var code1, next1 := ctx.code, ctx.next;
    var c := EmitCond(ctx, cond, start);
    ghost var code2, next2 := ctx.code, ctx.next;
    PreservesMore(code0, code1, code2, start, next0, next1);
    ghost var regs := Exec(code2, start);
    ghost var chosen := if Eval(p, args, v) != 0 then regs(regOf[a]) else regs(regOf[b]);
    LowWrite(ty, ty == I64, regs(ctx.next), chosen);
    r := ctx.Emit(Xselect(ctx.next, ty == I64, c, regOf[a], regOf[b]), start);
    PreservesMore(code0, code2, ctx.code, start, next0, next2);
  }

  method LowerCompare(ctx: Context, p: Block, i: nat, regOf: seq<nat>, ghost args: Regs, ghost start: Regs)
    returns (r: nat)
    requires i < |p| && WellTyped(p) && p[i].inst.Icmp? && |regOf| == i
    requires Carries(p, args, Exec(ctx.code, start), regOf, ctx.next)
    modifies ctx
    ensures Lowered(p, args, i, r, old(ctx.code), old(ctx.next), ctx.code, ctx.next, start)
    ensures Leaves(p, i, Exec(ctx.code, start), regOf + [r])
  {
    assert TypedAt(p, i);
    var Def(_, Icmp(cc, a, b)) := p[i];
    ghost var regs := Exec(ctx.code, start);
    SameCompare(cc, p[b].ty, regs(regOf[a]), regs(regOf[b]));
    r := LowerIcmp(ctx, p[b].ty == I64, cc, regOf[a], regOf[b], start);
    LowLow(I8, I32, Exec(ctx.code, start)(r));
  }

  /** One value. */
  method LowerDef(ctx: Context, p: Block, i: nat, regOf: seq<nat>, ghost args: Regs, ghost start: Regs) returns (r: nat)
    requires i < |p| && WellTyped(p) && |regOf| == i && (p[i].inst.Input? ==> p[i].inst.reg < ctx.next)
    requires Carries(p, args, Exec(ctx.code, start), regOf, ctx.next)
    requires p[i].inst.Input? ==>
               Low(p[i].ty, Exec(ctx.code, start)(p[i].inst.reg)) == Low(p[i].ty, args(p[i].inst.reg))
    modifies ctx
    ensures Lowered(p, args, i, r, old(ctx.code), old(ctx.next), ctx.code, ctx.next, start)
    ensures Leaves(p, i, Exec(ctx.code, start), regOf + [r])
  {
    assert TypedAt(p, i);
    match p[i].inst {
      case Input(s) => r := s;
      case Iconst(n) => r := LowerImm(ctx, p[i].ty, n, start);
      case Binary(_, _, _) => r := LowerBinary(ctx, p, i, regOf, args, start);
      case Ireduce(_) => r := LowerReduce(ctx, p, i, regOf, args, start);
      case Uextend(_) => r := LowerExtend(ctx, p, i, regOf, args, start);
      case Sextend(_) => r := LowerExtend(ctx, p, i, regOf, args, start);
      case Icmp(_, _, _) => r := LowerCompare(ctx, p, i, regOf, args, start);
      case Select(_, _, _) => r := LowerSelect(ctx, p, i, regOf, args, start);
    }
  }

  /** Inputs arrive in registers below the first free one, in their low bits. */
  ghost predicate InputsArrive(p: Block, args: Regs, start: Regs, first: nat) {
    forall i :: 0 <= i < |p| && p[i].inst.Input? ==>
      p[i].inst.reg < first && Low(p[i].ty, start(p[i].inst.reg)) == Low(p[i].ty, args(p[i].inst.reg))
  }

  /** Lowers a block.  From any register contents that carry the inputs, running the
      code leaves every value that no narrow comparison goes into in the low bits of its
      register. */
  method LowerBlock(p: Block, first: nat, ghost args: Regs, ghost start: Regs) returns (ctx: Context, regOf: seq<nat>)
    requires WellTyped(p) && InputsArrive(p, args, start, first)
    ensures fresh(ctx) && |regOf| == |p| && Carries(p, args, Exec(ctx.code, start), regOf, ctx.next)
    ensures AllLeave(p, Exec(ctx.code, start), regOf, ctx.next) && Preserves([], ctx.code, start, first)
  {
    ctx := new Context(first);
    regOf := [];
    for i := 0 to |p|
      invariant fresh(ctx) && |regOf| == i && first <= ctx.next
      invariant Carries(p, args, Exec(ctx.code, start), regOf, ctx.next)
      invariant AllLeave(p, Exec(ctx.code, start), regOf, ctx.next)
      invariant Preserves([], ctx.code, start, first)
    {
      ghost var code0, next0 := ctx.code, ctx.next;
      var r := LowerDef(ctx, p, i, regOf, args, start);
      PreservesMore([], code0, ctx.code, start, first, next0);
      CarriesOn(p, args, code0, ctx.code, start, regOf, next0, ctx.next);
      AllLeaveOn(p, Exec(code0, start), Exec(ctx.code, start), regOf, r, next0, ctx.next);
      regOf := regOf + [r];
    }
  }

  lemma AllLeaveOn(p: Block, regs: Regs, regs': Regs, regOf: seq<nat>, r: nat, next: nat, next': nat)
    requires |regOf| < |p| && WellTyped(p) && AllLeave(p, regs, regOf, next) && r < next' && next <= next'
    requires forall q: nat :: q < next ==> regs'(q) == regs(q)
    requires Leaves(p, |regOf|, regs', regOf + [r])
    ensures AllLeave(p, regs', regOf + [r], next')
  {
    forall i | 0 <= i < |regOf|
      ensures Leaves(p, i, regs', regOf + [r])
    {
      LeavesOn(p, i, regs, regs', regOf, r, next);
    }
  }

  /** A conditional branch goes where the condition's value says. */
  method LowerBrif(ctx: Context, p: Block, v: nat, then_: nat, else_: nat, regOf: seq<nat>, ghost args: Regs,
                   ghost start: Regs)
    returns (c: Cond, taken: nat, notTaken: nat)
    requires v < |regOf| <= |p| && WellTyped(p) && Carries(p, args, Exec(ctx.code, start), regOf, ctx.next)
    modifies ctx
    ensures Wide(p, v) ==>
              (if Taken(c, Exec(ctx.code, start)) then taken else notTaken)
              == if Eval(p, args, v) != 0 then then_ else else_
  {
    c := LowerCond(ctx, p, v, regOf, args, start);
    taken, notTaken := then_, else_;
  }

  // ----- narrow comparisons -----

  /** A block with a narrow comparison. */
  function Comparison(cc: IntCC, ty: Ty): Block {
    [Def(ty, Input(0)), Def(ty, Input(1)), Def(I8, Icmp(cc, 0, 1))]
  }

  /** Every comparison of 8- or 16-bit inputs comes out wrong for some register contents. */
  method NarrowCompareFails(cc: IntCC, ty: Ty) returns (ctx: Context, regOf: seq<nat>, ghost start: Regs)
    requires ty in {I8, I16}
    ensures |regOf| == 3 && WellTyped(Comparison(cc, ty)) && InputsArrive(Comparison(cc, ty), start, start, 2)
    ensures Low(I8, Exec(ctx.code, start)(regOf[2])) != Eval(Comparison(cc, ty), start, 2)
  {
    var p := Comparison(cc, ty);
    assert WellTyped(p) by { assert TypedAt(p, 0) && TypedAt(p, 1) && TypedAt(p, 2); }
    var x, y := NarrowWitness(cc, ty);
    start := (r: nat) => if r == 0 then x else y;
    ctx, regOf := LowerBlock(p, 2, start, start);
    assert Leaves(p, 0, Exec(ctx.code, start), regOf) && Leaves(p, 1, Exec(ctx.code, start), regOf);
    assert Leaves(p, 2, Exec(ctx.code, start), regOf);
    assert Exec([], start)(0) == x && Exec([], start)(1) == y;
    LowLow(I8, I32, Exec(ctx.code, start)(regOf[2]));
    SameCompare(cc, ty, x, y);
  }

  /** What is above the bits of a narrow operand, as the condition reads it: zero for
      an extended one. */
  function Above(cc: IntCC, ty: Ty, x: Word): int {
    (Reading(cc, I32, x) - Reading(cc, ty, x)) / Size(ty)
  }

  lemma AboveExact(cc: IntCC, ty: Ty, x: Word)
    requires Width(ty) <= 32
    ensures Reading(cc, I32, x) == Above(cc, ty, x) * Size(ty) + Reading(cc, ty, x)
  {
    var k := UpperPart(ty, x);
    var i := SignUnits(cc, I32, ty, x);
    var j := SignUnits(cc, ty, ty, x);
    Differs(Reading(cc, I32, x), Reading(cc, ty, x), Low(I32, x), Low(ty, x), Size(ty), k, i, j);
  }

  lemma Differs(a: int, b: int, x: int, y: int, m: int, k: int, i: int, j: int)
    requires m > 0 && a - x == m * i && b - y == m * j && x == m * k + y
    ensures a == (a - b) / m * m + b
  {
    assert m * (k + i - j) == m * k + m * i - m * j;
    Divided(a - b, m, k + i - j);
  }

  /** What reading the low bits as signed adds to them. */
  function SignPart(cc: IntCC, ty: Ty, x: Word): int {
    Reading(cc, ty, x) - Low(ty, x)
  }

  lemma SignUnits(cc: IntCC, wider: Ty, ty: Ty, x: Word) returns (j: int)
    requires Width(ty) <= Width(wider) <= 32
    ensures SignPart(cc, wider, x) == Size(ty) * j
  {
    j := if SignPart(cc, wider, x) == 0 then 0 else -(Size(wider) / Size(ty));
    match ty case I8 => case I16 => case I32 =>
  }

  lemma UpperPart(ty: Ty, x: Word) returns (k: int)
    requires Width(ty) <= 32
    ensures Low(I32, x) == Size(ty) * k + Low(ty, x)
  {
    LowLow(ty, I32, x);
    k := Low(I32, x) / Size(ty);
  }

  lemma Divided(d: int, m: int, k: int)
    requires m > 0 && d == m * k
    ensures d / m * m == d
  {
    var q := d / m;
    assert d == m * q + d % m && m * (k - q) == m * k - m * q;
    if q != k {
      BigMultiple(m, k - q);
    }
  }

  /** Numbers with a higher and a lower part compare like the higher parts, unless those
      are equal. */
  lemma HigherDecides(cc: IntCC, m: int, a: int, x: int, b: int, y: int)
    requires m > 0 && -m < x - y < m
    ensures Decides(cc, a * m + x, b * m + y) <==> if a == b then Decides(cc, x, y) else Decides(cc, a, b)
  {
    if a != b {
      BigMultiple(m, a - b);
      assert m * (a - b) == a * m - b * m;
      if a > b { assert m * (a - b) > 0; } else { assert m * (b - a) > 0; }
    }
  }

  /** The lowered comparison gives the right answer for these register contents. */
  predicate ComparesRight(cc: IntCC, ty: Ty, x: Word, y: Word) {
    var (cmp, swap) := CompareFor(cc);
    Holds(cmp, ty == I64, if swap then y else x, if swap then x else y) == Compares(cc, ty, x, y)
  }

  /** A narrow comparison comes out right exactly when what is above the operands is
      equal or compares like the operands themselves. */
  lemma NarrowCompare(cc: IntCC, ty: Ty, x: Word, y: Word)
    requires Width(ty) <= 32
    ensures ComparesRight(cc, ty, x, y) <==>
            || Above(cc, ty, x) == Above(cc, ty, y)
            || Decides(cc, Above(cc, ty, x), Above(cc, ty, y)) == Compares(cc, ty, x, y)
  {
    CompareRight(cc, false, x, y);
    AboveExact(cc, ty, x);
    AboveExact(cc, ty, y);
    HigherDecides(cc, Size(ty), Above(cc, ty, x), Reading(cc, ty, x), Above(cc, ty, y), Reading(cc, ty, y));
  }

  /** Register contents for which a narrow comparison comes out wrong. */
  lemma NarrowWitness(cc: IntCC, ty: Ty) returns (x: Word, y: Word)
    requires ty in {I8, I16}
    ensures Compares(cc, I32, x, y) != Compares(cc, ty, x, y) && !ComparesRight(cc, ty, x, y)
  {
    x, y := 0, Size(ty);
    if cc in {SignedLessThanOrEqual, UnsignedLessThanOrEqual, SignedGreaterThan, UnsignedGreaterThan} {
      x, y := Size(ty), 0;
    }
    CompareRight(cc, false, x, y);
    WitnessReadings(cc, ty);
  }

  lemma WitnessReadings(cc: IntCC, ty: Ty)
    requires ty in {I8, I16}
    ensures Reading(cc, ty, 0) == 0 && Reading(cc, I32, 0) == 0
    ensures Reading(cc, ty, Size(ty)) == 0 && Reading(cc, I32, Size(ty)) == Size(ty) > 0
  {
    match ty case I8 => case I16 =>
  }

  /** A comparison is lowered correctly exactly for operands of 32 or 64 bits. */
  lemma ComparesRightExactly(cc: IntCC, ty: Ty)
    ensures (forall x: Word, y: Word :: ComparesRight(cc, ty, x, y)) <==> ty in {I32, I64}
  {
    if ty in {I8, I16} {
      var x, y := NarrowWitness(cc, ty);
    } else {
      forall x: Word, y: Word
        ensures ComparesRight(cc, ty, x, y)
      {
        CompareRight(cc, ty == I64, x, y);
      }
    }
  }

  /** 255 + 2 == 1 in eight bits. */
  const WRAPPED: Block := [Def(I8, Iconst(255)), Def(I8, Iconst(2)), Def(I8, Binary(Iadd, 0, 1)), Def(I8, Iconst(1)),
                           Def(I8, Icmp(Equal, 2, 3))]

  /** A block without inputs whose code is wrong from every start. */
  method WrappedCompareFails(first: nat, ghost args: Regs, ghost start: Regs) returns (ctx: Context, regOf: seq<nat>)
    ensures |regOf| == 5 && WellTyped(WRAPPED) && Eval(WRAPPED, args, 4) == 1
    ensures Low(I8, Exec(ctx.code, start)(regOf[4])) == 0
  {
    var p := WRAPPED;
    assert WellTyped(p) by {
      assert TypedAt(p, 0) && TypedAt(p, 1) && TypedAt(p, 2) && TypedAt(p, 3) && TypedAt(p, 4);
    }
    assert Eval(p, args, 2) == 1 by { assert Eval(p, args, 0) == 255 && Eval(p, args, 1) == 2; }
    assert Eval(p, args, 3) == 1;
    ctx, regOf := LowerBlock(p, first, args, start);
    ghost var regs := Exec(ctx.code, start);
    assert Leaves(p, 0, regs, regOf) && Leaves(p, 1, regs, regOf) && Leaves(p, 2, regs, regOf);
    assert Leaves(p, 3, regs, regOf) && Leaves(p, 4, regs, regOf);
    LowLow(I8, I32, regs(regOf[4]));
  }
}
