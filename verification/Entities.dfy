/** The reducer's `RemoveUnusedEntities`: tables of external functions, signatures,
    stack slots and global values, compacted to the entries in use, with every
    reference renumbered. */
module Entities {
  import opened Ir

  // ----- compacting one table -----

  /** Users that refer to entry `r`. */
  predicate Used(refs: seq<Option<nat>>, r: nat) {
    exists i :: 0 <= i < |refs| && refs[i] == Some(r)
  }

  /** The entries in use among the first `n`, in order. */
  function Compacted<T>(table: seq<T>, refs: seq<Option<nat>>, n: nat): seq<T>
    requires n <= |table|
  {
    if n == 0 then []
    else Compacted(table, refs, n - 1) + if Used(refs, n - 1) then [table[n - 1]] else []
  }

  /** The number of entries in use below `r`. */
  function Rank(refs: seq<Option<nat>>, r: nat): nat {
    if r == 0 then 0 else Rank(refs, r - 1) + if Used(refs, r - 1) then 1 else 0
  }

  /** Entries in use keep their data under their new numbers. */
  lemma {:induction false} RankFinds<T>(table: seq<T>, refs: seq<Option<nat>>, n: nat, r: nat)
    requires r < n <= |table| && Used(refs, r)
    ensures |Compacted(table, refs, n)| == Rank(refs, n) && Rank(refs, r) < Rank(refs, n)
    ensures Compacted(table, refs, n)[Rank(refs, r)] == table[r]
  {
    RankCounts(table, refs, n - 1);
    if r < n - 1 {
      RankFinds(table, refs, n - 1, r);
    }
  }

  lemma {:induction false} RankCounts<T>(table: seq<T>, refs: seq<Option<nat>>, n: nat)
    requires n <= |table|
    ensures |Compacted(table, refs, n)| == Rank(refs, n)
  {
    if n > 0 {
      RankCounts(table, refs, n - 1);
    }
  }

  /** Numbers below the new length are the numbers of entries in use. */
  lemma {:induction false} RankOnto(refs: seq<Option<nat>>, n: nat, k: nat) returns (r: nat)
    requires k < Rank(refs, n)
    ensures r < n && Used(refs, r) && Rank(refs, r) == k
  {
    if k < Rank(refs, n - 1) {
      r := RankOnto(refs, n - 1, k);
    } else {
      r := n - 1;
    }
  }

  function Renumber(refs: seq<Option<nat>>, ref: Option<nat>, n: nat): Option<nat> {
    if ref.Some? && ref.value < n then Some(Rank(refs, ref.value)) else ref
  }

  function RenumberAll(refs: seq<Option<nat>>, n: nat): (r: seq<Option<nat>>)
    ensures |r| == |refs| && forall i :: 0 <= i < |refs| ==> r[i] == Renumber(refs, refs[i], n)
  {
    seq(|refs|, i requires 0 <= i < |refs| => Renumber(refs, refs[i], n))
  }

  ghost predicate UsersOf(refs: seq<Option<nat>>, r: nat, users: seq<nat>) {
    forall i: nat :: i in users <==> i < |refs| && refs[i] == Some(r)
  }

  /** For every entry in use, its users. */
  ghost predicate IsUsage(refs: seq<Option<nat>>, usage: map<nat, seq<nat>>) {
    && (forall r: nat :: r in usage <==> Used(refs, r))
    && forall r: nat :: r in usage ==> UsersOf(refs, r, usage[r])
  }

  method UsageMap(refs: seq<Option<nat>>) returns (usage: map<nat, seq<nat>>)
    ensures IsUsage(refs, usage)
  {
    usage := map[];
    for i := 0 to |refs|
      invariant IsUsage(refs[..i], usage)
    {
      assert refs[..i + 1] == refs[..i] + [refs[i]];
      ghost var was := usage;
      if refs[i].Some? {
        var r := refs[i].value;
        usage := usage[r := (if r in usage then usage[r] else []) + [i]];
        UsageStep(refs, i, was, usage);
      } else {
        UsageSkip(refs, i, usage);
      }
    }
    assert refs[..|refs|] == refs;
  }

  lemma UsageStep(refs: seq<Option<nat>>, i: nat, was: map<nat, seq<nat>>, usage: map<nat, seq<nat>>)
    requires i < |refs| && refs[i].Some? && IsUsage(refs[..i], was)
    requires var r := refs[i].value; usage == was[r := (if r in was then was[r] else []) + [i]]
    ensures IsUsage(refs[..i + 1], usage)
  {
    forall q: nat
      ensures q in usage <==> Used(refs[..i + 1], q)
      ensures q in usage ==> UsersOf(refs[..i + 1], q, usage[q])
    {
      UsedMore(refs, i, q);
      assert q in was ==> UsersOf(refs[..i], q, was[q]);
    }
  }

  lemma UsageSkip(refs: seq<Option<nat>>, i: nat, usage: map<nat, seq<nat>>)
    requires i < |refs| && refs[i].None? && IsUsage(refs[..i], usage)
    ensures IsUsage(refs[..i + 1], usage)
  {
    forall q: nat
      ensures q in usage <==> Used(refs[..i + 1], q)
      ensures q in usage ==> UsersOf(refs[..i + 1], q, usage[q])
    {
      UsedMore(refs, i, q);
      assert q in usage ==> UsersOf(refs[..i], q, usage[q]);
    }
  }

  lemma UsedMore(refs: seq<Option<nat>>, i: nat, q: nat)
    requires i < |refs|
    ensures Used(refs[..i + 1], q) <==> Used(refs[..i], q) || refs[i] == Some(q)
  {
    if Used(refs[..i], q) {
      var k :| 0 <= k < i && refs[..i][k] == Some(q);
      assert refs[..i + 1][k] == Some(q);
    }
    if refs[i] == Some(q) { assert refs[..i + 1][i] == Some(q); }
    if Used(refs[..i + 1], q) && refs[i] != Some(q) {
      var k :| 0 <= k < i + 1 && refs[..i + 1][k] == Some(q);
      assert refs[..i][k] == Some(q);
    }
  }

  /** Gives the users of one entry its new number. */
  method RenameUsers(refs: seq<Option<nat>>, users: seq<nat>, new_: nat) returns (r: seq<Option<nat>>)
    requires forall u :: u in users ==> u < |refs|
    ensures |r| == |refs| && forall i :: 0 <= i < |refs| ==> r[i] == if i in users then Some(new_) else refs[i]
  {
    r := refs;
    for j := 0 to |users|
      invariant |r| == |refs| && forall i :: 0 <= i < |refs| ==> r[i] == if i in users[..j] then Some(new_) else refs[i]
    {
      assert users[j] in users && users[..j + 1] == users[..j] + [users[j]];
      r := r[users[j] := Some(new_)];
    }
    assert users[..|users|] == users;
  }

  /** Compacts a table and renumbers the references to it. */
  method Compact<T>(table: seq<T>, refs: seq<Option<nat>>) returns (table': seq<T>, refs': seq<Option<nat>>)
    ensures table' == Compacted(table, refs, |table|)
    ensures refs' == RenumberAll(refs, |table|)
  {
    var usage := UsageMap(refs);
    table', refs' := [], refs;
    for r := 0 to |table|
      invariant table' == Compacted(table, refs, r)
      invariant |refs'| == |refs| && forall i :: 0 <= i < |refs| ==> refs'[i] == Renumber(refs, refs[i], r)
    {
      if r in usage {
        RankCounts(table, refs, r);
        assert UsersOf(refs, r, usage[r]);
        refs' := RenameUsers(refs', usage[r], |table'|);
        table' := table' + [table[r]];
      } else {
        forall i | 0 <= i < |refs|
          ensures refs[i] != Some(r)
        {
          assert !Used(refs, r);
        }
      }
    }
  }

  /** Some entry in use below `n` has the new number `k`. */
  ghost predicate IsNumber(refs: seq<Option<nat>>, n: nat, k: nat) {
    exists r: nat :: r < n && Used(refs, r) && Rank(refs, r) == k
  }

  /** The new table holds exactly the entries in use, in their old order. */
  lemma CompactedExactly<T>(table: seq<T>, refs: seq<Option<nat>>)
    ensures forall r :: 0 <= r < |table| && Used(refs, r) ==>
              Rank(refs, r) < |Compacted(table, refs, |table|)|
                  && Compacted(table, refs, |table|)[Rank(refs, r)] == table[r]
    ensures forall k: nat :: k < |Compacted(table, refs, |table|)| ==> IsNumber(refs, |table|, k)
    ensures forall r, q :: 0 <= r < q < |table| && Used(refs, r) ==> Rank(refs, r) < Rank(refs, q)
  {
    RankCounts(table, refs, |table|);
    forall r | 0 <= r < |table| && Used(refs, r)
      ensures Rank(refs, r) < |Compacted(table, refs, |table|)|
              && Compacted(table, refs, |table|)[Rank(refs, r)] == table[r]
    {
      RankFinds(table, refs, |table|, r);
    }
    forall k: nat | k < |Compacted(table, refs, |table|)|
      ensures IsNumber(refs, |table|, k)
    {
      var r := RankOnto(refs, |table|, k);
    }
    forall r, q | 0 <= r < q < |table| && Used(refs, r)
      ensures Rank(refs, r) < Rank(refs, q)
    {
      RankFinds(table, refs, q, r);
    }
  }

  // ----- functions with entities -----

  datatype ExtFunc = ExtFunc(name: nat, signature: nat)

  datatype GlobalData = VmContext | Symbol(name: nat) | Derived(base: nat)

  /** The operations of a function in layout order, and its tables. */
  datatype Function = Function(ops: seq<Opcode>, extFuncs: seq<ExtFunc>, signatures: seq<nat>, slots: seq<nat>,
                               globals: seq<GlobalData>)

  datatype Kind = ExtFuncs | Signatures | Slots | Globals

  /** The entity of the given kind that an operation refers to. */
  function Ref(k: Kind, op: Opcode): Option<nat> {
    match k
    case ExtFuncs => if op.Call? || op.FuncAddr? then Some(op.func) else None
    case Signatures => if op.CallIndirect? then Some(op.sig) else None
    case Slots => if op.StackAddr? || op.StackLoad? || op.StackStore? then Some(op.slot) else None
    case Globals => if op.GlobalValue? then Some(op.global) else None
  }

  function WithRef(k: Kind, op: Opcode, r: Option<nat>): Opcode {
    if r.None? then op else
      match k
      case ExtFuncs => if op.Call? || op.FuncAddr? then op.(func := r.value) else op
      case Signatures => if op.CallIndirect? then op.(sig := r.value) else op
      case Slots => if op.StackAddr? || op.StackLoad? || op.StackStore? then op.(slot := r.value) else op
      case Globals => if op.GlobalValue? then op.(global := r.value) else op
  }

  function Refs(k: Kind, ops: seq<Opcode>): (r: seq<Option<nat>>)
    ensures |r| == |ops| && forall i :: 0 <= i < |ops| ==> r[i] == Ref(k, ops[i])
  {
    seq(|ops|, i requires 0 <= i < |ops| => Ref(k, ops[i]))
  }

  function WithRefs(k: Kind, ops: seq<Opcode>, refs: seq<Option<nat>>): (r: seq<Opcode>)
    requires |refs| == |ops|
    ensures |r| == |ops| && forall i :: 0 <= i < |ops| ==> r[i] == WithRef(k, ops[i], refs[i])
  {
    seq(|ops|, i requires 0 <= i < |ops| => WithRef(k, ops[i], refs[i]))
  }

  function FuncSignatures(fs: seq<ExtFunc>): (r: seq<Option<nat>>)
    ensures |r| == |fs| && forall i :: 0 <= i < |fs| ==> r[i] == Some(fs[i].signature)
  {
    seq(|fs|, i requires 0 <= i < |fs| => Some(fs[i].signature))
  }

  function WithSignatures(fs: seq<ExtFunc>, refs: seq<Option<nat>>): (r: seq<ExtFunc>)
    requires |refs| == |fs|
    ensures |r| == |fs|
    ensures forall i :: 0 <= i < |fs| ==> r[i] == if refs[i].Some? then fs[i].(signature := refs[i].value) else fs[i]
  {
    seq(|fs|, i requires 0 <= i < |fs| => if refs[i].Some? then fs[i].(signature := refs[i].value) else fs[i])
  }

  /** Everything that refers to entities of a kind: operations, and for signatures
      the external functions as well. */
  function Users(k: Kind, f: Function): seq<Option<nat>> {
    Refs(k, f.ops) + if k == Signatures then FuncSignatures(f.extFuncs) else []
  }

  function Size(k: Kind, f: Function): nat {
    match k
    case ExtFuncs => |f.extFuncs|
    case Signatures => |f.signatures|
    case Slots => |f.slots|
    case Globals => |f.globals|
  }

  /** All references are to entries that exist. */
  ghost predicate Legal(f: Function) {
    && (forall k, i :: 0 <= i < |Users(k, f)| && Users(k, f)[i].Some? ==> Users(k, f)[i].value < Size(k, f))
    && forall i :: 0 <= i < |f.globals| && f.globals[i].Derived? ==> f.globals[i].base < |f.globals|
  }

  /** No global value is computed from another. */
  predicate Simple(f: Function) {
    forall i :: 0 <= i < |f.globals| ==> !f.globals[i].Derived?
  }

  /** No entry is without a user. */
  ghost predicate AllUsed(k: Kind, f: Function) {
    forall r :: 0 <= r < Size(k, f) ==> Used(Users(k, f), r)
  }

  // ----- what an operation means -----

  /** An operation with its entities' data in place of their numbers. */
  datatype Meaning =
    | Calls(name: nat, signature: nat)
    | TakesAddress(name: nat, signature: nat)
    | CallsThrough(signature: nat)
    | OnSlot(op: Opcode, data: nat)
    | OfGlobal(source: Source)
    | Alone(op: Opcode)
    | Dangling

  /** What a global value finally rests on. */
  datatype Source = Context | Named(name: nat) | Based(on: Source) | Endless | Missing

  /** Follows a global value to its base, at most `n` times. */
  function SourceOf(globals: seq<GlobalData>, r: nat, n: nat): Source
    decreases n
  {
    if r >= |globals| then Missing else
      match globals[r]
      case VmContext => Context
      case Symbol(name) => Named(name)
      case Derived(base) => if n == 0 then Endless else Based(SourceOf(globals, base, n - 1))
  }

  function Lookup<T>(table: seq<T>, r: nat): Option<T> {
    if r < |table| then Some(table[r]) else None
  }

  function MeaningOf(f: Function, op: Opcode): Meaning {
    match op
    case Call(r) =>
      (match Lookup(f.extFuncs, r)
       case None => Dangling
       case Some(e) => match Lookup(f.signatures, e.signature) case None => Dangling case Some(s) => Calls(e.name, s))
    case FuncAddr(r) =>
      (match Lookup(f.extFuncs, r)
       case None => Dangling
       case Some(e) =>
         match Lookup(f.signatures, e.signature) case None => Dangling case Some(s) => TakesAddress(e.name, s))
    case CallIndirect(r) => (match Lookup(f.signatures, r) case None => Dangling case Some(s) => CallsThrough(s))
    case StackAddr(r) => (match Lookup(f.slots, r) case None => Dangling case Some(d) => OnSlot(StackAddr(0), d))
    case StackLoad(r) => (match Lookup(f.slots, r) case None => Dangling case Some(d) => OnSlot(StackLoad(0), d))
    case StackStore(r) => (match Lookup(f.slots, r) case None => Dangling case Some(d) => OnSlot(StackStore(0), d))
    case GlobalValue(r) => OfGlobal(SourceOf(f.globals, r, |f.globals|))
    case _ => Alone(op)
  }

  /** The two functions do the same, entity for entity. */
  ghost predicate SameMeaning(f: Function, f': Function) {
    |f'.ops| == |f.ops| && forall i :: 0 <= i < |f.ops| ==> MeaningOf(f', f'.ops[i]) == MeaningOf(f, f.ops[i])
  }

  // ----- one kind -----

  /** The function with the entities of one kind compacted. */
  function Trimmed(k: Kind, f: Function): Function {
    var users, n := RenumberAll(Users(k, f), Size(k, f)), Size(k, f);
    var f1 := f.(ops := WithRefs(k, f.ops, users[..|f.ops|]));
    match k
    case ExtFuncs => f1.(extFuncs := Compacted(f.extFuncs, Users(k, f), n))
    case Signatures =>
      f1.(signatures := Compacted(f.signatures, Users(k, f), n),
          extFuncs := WithSignatures(f.extFuncs, users[|f.ops|..]))
    case Slots => f1.(slots := Compacted(f.slots, Users(k, f), n))
    case Globals => f1.(globals := Compacted(f.globals, Users(k, f), n))
  }

  method RemoveUnused(k: Kind, f: Function) returns (r: Function)
    ensures r == Trimmed(k, f)
  {
    var n := |f.ops|;
    match k {
      case ExtFuncs =>
        var table, users := Compact(f.extFuncs, Users(k, f));
        r := f.(ops := WithRefs(k, f.ops, users[..n]), extFuncs := table);
      case Signatures =>
        var table, users := Compact(f.signatures, Users(k, f));
        r := f.(ops := WithRefs(k, f.ops, users[..n]), signatures := table,
                extFuncs := WithSignatures(f.extFuncs, users[n..]));
      case Slots =>
        var table, users := Compact(f.slots, Users(k, f));
        r := f.(ops := WithRefs(k, f.ops, users[..n]), slots := table);
      case Globals =>
        var table, users := Compact(f.globals, Users(k, f));
        r := f.(ops := WithRefs(k, f.ops, users[..n]), globals := table);
    }
  }

  lemma SameLookup<T>(table: seq<T>, users: seq<Option<nat>>, r: nat)
    requires r < |table| && Used(users, r)
    ensures Lookup(Compacted(table, users, |table|), Rank(users, r)) == Some(table[r])
  {
    RankFinds(table, users, |table|, r);
  }

  /** A reference of an operation is a used entry, and is renumbered once. */
  lemma OpRef(k: Kind, f: Function, i: nat)
    requires Legal(f) && i < |f.ops|
    ensures |Trimmed(k, f).ops| == |f.ops|
    ensures var r := Ref(k, f.ops[i]);
            if r.None? then Trimmed(k, f).ops[i] == f.ops[i]
            else && r.value < Size(k, f) && Used(Users(k, f), r.value)
                 && Trimmed(k, f).ops[i] == WithRef(k, f.ops[i], Some(Rank(Users(k, f), r.value)))
  {
    assert Users(k, f)[i] == Ref(k, f.ops[i]);
  }

  lemma FuncUser(f: Function, j: nat)
    requires j < |f.extFuncs|
    ensures |Users(Signatures, f)| == |f.ops| + |f.extFuncs|
    ensures Users(Signatures, f)[|f.ops| + j] == Some(f.extFuncs[j].signature)
  {
    var a, b := Refs(Signatures, f.ops), FuncSignatures(f.extFuncs);
    assert (a + b)[|a| + j] == b[j];
  }

  /** The same for the signature of an external function. */
  lemma FuncRef(f: Function, j: nat)
    requires Legal(f) && j < |f.extFuncs|
    ensures var r := f.extFuncs[j].signature;
            && r < |f.signatures| && Used(Users(Signatures, f), r)
            && |Trimmed(Signatures, f).extFuncs| == |f.extFuncs|
            && Trimmed(Signatures, f).extFuncs[j] == f.extFuncs[j].(signature := Rank(Users(Signatures, f), r))
  {
    FuncUser(f, j);
    var u, n := Users(Signatures, f), |f.ops|;
    assert u[n + j].Some? && u[n + j].value < Size(Signatures, f);
    TrimmedFuncs(f);
    Later(RenumberAll(u, |f.signatures|), n, j);
  }

  lemma TrimmedFuncs(f: Function)
    ensures |Users(Signatures, f)| == |f.ops| + |f.extFuncs|
    ensures Trimmed(Signatures, f).extFuncs
         == WithSignatures(f.extFuncs, RenumberAll(Users(Signatures, f), |f.signatures|)[|f.ops|..])
  {
  }

  lemma Later<T>(s: seq<T>, n: nat, j: nat)
    requires n + j < |s|
    ensures s[n..][j] == s[n + j]
  {
  }

  lemma SignatureMeaning(f: Function, i: nat)
    requires Legal(f) && i < |f.ops|
    ensures |Trimmed(Signatures, f).ops| == |f.ops|
    ensures MeaningOf(Trimmed(Signatures, f), Trimmed(Signatures, f).ops[i]) == MeaningOf(f, f.ops[i])
  {
    OpRef(Signatures, f, i);
    var op, u := f.ops[i], Users(Signatures, f);
    if Ref(Signatures, op).Some? { SameLookup(f.signatures, u, op.sig); }
    if Ref(ExtFuncs, op).Some? {
      OpRef(ExtFuncs, f, i);
      FuncRef(f, op.func);
      SameLookup(f.signatures, u, f.extFuncs[op.func].signature);
    }
  }

  lemma OpMeaning(k: Kind, f: Function, i: nat)
    requires Legal(f) && i < |f.ops| && (k == Globals ==> Simple(f))
    ensures |Trimmed(k, f).ops| == |f.ops| && MeaningOf(Trimmed(k, f), Trimmed(k, f).ops[i]) == MeaningOf(f, f.ops[i])
  {
    OpRef(k, f, i);
    var op, u := f.ops[i], Users(k, f);
    match k
    case ExtFuncs => if Ref(k, op).Some? { SameLookup(f.extFuncs, u, op.func); }
    case Signatures => SignatureMeaning(f, i);
    case Slots => if Ref(k, op).Some? { SameLookup(f.slots, u, op.slot); }
    case Globals => if Ref(k, op).Some? { SameLookup(f.globals, u, op.global); }
  }

  lemma OpsRenumbered(k: Kind, f: Function)
    ensures Refs(k, Trimmed(k, f).ops) == RenumberAll(Users(k, f), Size(k, f))[..|f.ops|]
  {
    var u' := RenumberAll(Users(k, f), Size(k, f));
    forall i | 0 <= i < |f.ops|
      ensures Ref(k, Trimmed(k, f).ops[i]) == u'[i]
    {
      assert Users(k, f)[i] == Ref(k, f.ops[i]);
    }
  }

  lemma FuncsRenumbered(f: Function)
    requires Legal(f)
    ensures FuncSignatures(Trimmed(Signatures, f).extFuncs)
            == RenumberAll(Users(Signatures, f), |f.signatures|)[|f.ops|..]
  {
    var u, u' := Users(Signatures, f), RenumberAll(Users(Signatures, f), |f.signatures|);
    forall j | 0 <= j < |f.extFuncs|
      ensures FuncSignatures(Trimmed(Signatures, f).extFuncs)[j] == u'[|f.ops| + j]
    {
      FuncRef(f, j);
      FuncUser(f, j);
    }
  }

  /** The users of the compacted kind, after. */
  lemma UsersRenumbered(k: Kind, f: Function)
    requires Legal(f)
    ensures Users(k, Trimmed(k, f)) == RenumberAll(Users(k, f), Size(k, f))
  {
    var u', n, f' := RenumberAll(Users(k, f), Size(k, f)), |f.ops|, Trimmed(k, f);
    OpsRenumbered(k, f);
    if k == Signatures {
      FuncsRenumbered(f);
      Rejoin(Refs(k, f'.ops), FuncSignatures(f'.extFuncs), u', n);
    } else {
      Rejoin(Refs(k, f'.ops), [], u', n);
    }
  }

  lemma Rejoin(a: seq<Option<nat>>, b: seq<Option<nat>>, u: seq<Option<nat>>, n: nat)
    requires n <= |u| && a == u[..n] && b == u[n..]
    ensures a + b == u
  {
  }

  /** Other kinds keep their users, except that dropped external functions no longer
      use their signatures. */
  lemma OtherUsers(k: Kind, f: Function, k': Kind)
    requires k' != k
    ensures Size(k', Trimmed(k, f)) == Size(k', f) && Refs(k', Trimmed(k, f).ops) == Refs(k', f.ops)
    ensures !(k == ExtFuncs && k' == Signatures) ==> Users(k', Trimmed(k, f)) == Users(k', f)
  {
    var f' := Trimmed(k, f);
    forall i | 0 <= i < |f.ops|
      ensures Ref(k', f'.ops[i]) == Ref(k', f.ops[i])
    {
    }
  }

  lemma {:induction false} CompactedMember<T>(table: seq<T>, refs: seq<Option<nat>>, n: nat, j: nat) returns (r: nat)
    requires n <= |table| && j < |Compacted(table, refs, n)|
    ensures r < n && Used(refs, r) && Compacted(table, refs, n)[j] == table[r]
  {
    RankCounts(table, refs, n);
    r := RankOnto(refs, n, j);
    RankFinds(table, refs, n, r);
  }

  lemma SimpleKept(f: Function)
    requires Simple(f)
    ensures Simple(Trimmed(Globals, f))
  {
    var globals := Trimmed(Globals, f).globals;
    forall j | 0 <= j < |globals|
      ensures !globals[j].Derived?
    {
      var r := CompactedMember(f.globals, Users(Globals, f), |f.globals|, j);
    }
  }

  lemma LegalKept(k: Kind, f: Function)
    requires Legal(f) && (k == Globals ==> Simple(f))
    ensures Legal(Trimmed(k, f))
  {
    var f' := Trimmed(k, f);
    if k == Globals { SimpleKept(f); }
    forall k', i | 0 <= i < |Users(k', f')| && Users(k', f')[i].Some?
      ensures Users(k', f')[i].value < Size(k', f')
    {
      if k' == k {
        UsersRenumbered(k, f);
        assert Users(k, f)[i].Some? && Users(k, f)[i].value < Size(k, f);
        SizeCompacted(k, f);
        assert Used(Users(k, f), Users(k, f)[i].value);
        RankBound(Users(k, f), Size(k, f), Users(k, f)[i].value);
      } else {
        OtherUsers(k, f, k');
        if k == ExtFuncs && k' == Signatures && i >= |f.ops| {
          var r := CompactedMember(f.extFuncs, Users(k, f), |f.extFuncs|, i - |f.ops|);
          assert Users(k', f)[|f.ops| + r] == Some(f.extFuncs[r].signature);
        } else {
          assert Users(k', f)[i] == Users(k', f')[i];
        }
      }
    }
  }

  lemma SizeCompacted(k: Kind, f: Function)
    ensures Size(k, Trimmed(k, f)) == Rank(Users(k, f), Size(k, f))
  {
    var u := Users(k, f);
    match k
    case ExtFuncs => RankCounts(f.extFuncs, u, |f.extFuncs|);
    case Signatures => RankCounts(f.signatures, u, |f.signatures|);
    case Slots => RankCounts(f.slots, u, |f.slots|);
    case Globals => RankCounts(f.globals, u, |f.globals|);
  }

  lemma {:induction false} RankBound(refs: seq<Option<nat>>, n: nat, r: nat)
    requires r < n && Used(refs, r)
    ensures Rank(refs, r) < Rank(refs, n)
  {
    if r < n - 1 { RankBound(refs, n - 1, r); }
  }

  lemma AllUsedAfter(k: Kind, f: Function)
    requires Legal(f)
    ensures AllUsed(k, Trimmed(k, f))
  {
    UsersRenumbered(k, f);
    SizeCompacted(k, f);
    forall q: nat | q < Size(k, Trimmed(k, f))
      ensures Used(Users(k, Trimmed(k, f)), q)
    {
      var r := RankOnto(Users(k, f), Size(k, f), q);
      var i :| 0 <= i < |Users(k, f)| && Users(k, f)[i] == Some(r);
      assert Users(k, Trimmed(k, f))[i] == Some(q);
    }
  }

  /** Compaction only renumbers: every operation still means what it did, nothing
      dangles, and no unused entry is left.  Global values are compacted only if none
      is computed from another. */
  lemma OnlyRenumbers(k: Kind, f: Function)
    requires Legal(f) && (k == Globals ==> Simple(f))
    ensures SameMeaning(f, Trimmed(k, f)) && Legal(Trimmed(k, f)) && AllUsed(k, Trimmed(k, f))
  {
    LegalKept(k, f);
    AllUsedAfter(k, f);
    OpRefs(k, f);
    forall i | 0 <= i < |f.ops|
      ensures MeaningOf(Trimmed(k, f), Trimmed(k, f).ops[i]) == MeaningOf(f, f.ops[i])
    {
      OpMeaning(k, f, i);
    }
  }

  lemma OpRefs(k: Kind, f: Function)
    ensures |Trimmed(k, f).ops| == |f.ops|
  {
  }

  /** Why the mutator gives up on derived global values: they would lose their base. */
  lemma DerivedWouldBreak()
    ensures var f := Function([GlobalValue(1)], [], [], [], [VmContext, Derived(0)]);
            Legal(f) && !Simple(f) && !SameMeaning(f, Trimmed(Globals, f))
  {
    var f := Function([GlobalValue(1)], [], [], [], [VmContext, Derived(0)]);
    assert MeaningOf(f, f.ops[0]) == OfGlobal(Based(Context)) by { assert |f.globals| == 2; }
    var u := Users(Globals, f);
    assert u == [Some(1)];
    assert u[0] == Some(1) && Used(u, 1) && !Used(u, 0);
    assert Rank(u, 1) == 0 && Rank(u, 2) == 1;
    assert Compacted(f.globals, u, 1) == [];
    assert Compacted(f.globals, u, 2) == [Derived(0)];
    var r := Trimmed(Globals, f);
    assert r.globals == [Derived(0)] && r.ops == [GlobalValue(0)];
    assert SourceOf(r.globals, 0, 1) == Based(SourceOf(r.globals, 0, 0));
  }

  /** The first three kinds, in the mutator's order: none of their tables keeps an unused
      entry, since external functions go before the signatures they use. */
  lemma ThreeKinds(f: Function)
    requires Legal(f)
    ensures var r := Trimmed(Slots, Trimmed(Signatures, Trimmed(ExtFuncs, f)));
            SameMeaning(f, r) && Legal(r) && (forall k :: k != Globals ==> AllUsed(k, r)) && r.globals == f.globals
  {
    var a := Trimmed(ExtFuncs, f);
    var b := Trimmed(Signatures, a);
    var c := Trimmed(Slots, b);
    OnlyRenumbers(ExtFuncs, f);
    OnlyRenumbers(Signatures, a);
    OnlyRenumbers(Slots, b);
    StillUsed(Signatures, a, ExtFuncs);
    StillUsed(Slots, b, ExtFuncs);
    StillUsed(Slots, b, Signatures);
    forall k | k != Globals
      ensures AllUsed(k, c)
    {
      match k case ExtFuncs => case Signatures => case Slots =>
    }
  }

  /** All four kinds where no global value is computed from another: no table keeps an
      unused entry. */
  lemma AllKinds(f: Function)
    requires Legal(f) && Simple(f)
    ensures var r := Trimmed(Globals, Trimmed(Slots, Trimmed(Signatures, Trimmed(ExtFuncs, f))));
            SameMeaning(f, r) && Legal(r) && forall k :: AllUsed(k, r)
  {
    ThreeKinds(f);
    var c := Trimmed(Slots, Trimmed(Signatures, Trimmed(ExtFuncs, f)));
    OnlyRenumbers(Globals, c);
    forall k
      ensures AllUsed(k, Trimmed(Globals, c))
    {
      if k != Globals { StillUsed(Globals, c, k); }
    }
  }

  lemma StillUsed(k: Kind, f: Function, k': Kind)
    requires k' != k && k != ExtFuncs && AllUsed(k', f)
    ensures AllUsed(k', Trimmed(k, f))
  {
    OtherUsers(k, f, k');
  }

  // ----- the mutator -----

  function KindOf(n: nat): Kind
    requires n < 4
  {
    match n
    case 0 => ExtFuncs
    case 1 => Signatures
    case 2 => Slots
    case _ => Globals
  }

  class RemoveUnusedEntities {
    var kind: nat

    constructor ()
      ensures kind == 0
    {
      kind := 0;
    }

    /** One kind per call. */
    method Mutate(f: Function) returns (r: Option<Function>)
      requires Legal(f)
      modifies this
      ensures r.Some? <==> old(kind) < 4 && (old(kind) == 3 ==> Simple(f))
      ensures kind == if r.Some? then old(kind) + 1 else old(kind)
      ensures r.Some? ==> r.value == Trimmed(KindOf(old(kind)), f)
      ensures r.Some? ==> SameMeaning(f, r.value) && Legal(r.value) && AllUsed(KindOf(old(kind)), r.value)
    {
      if kind >= 4 || (kind == 3 && !Simple(f)) {
        return None;
      }
      var g := RemoveUnused(KindOf(kind), f);
      OnlyRenumbers(KindOf(kind), f);
      kind := kind + 1;
      r := Some(g);
    }
  }

  // ----- the phase -----

  /** The function without unused entities of one kind, if that still crashes. */
  function Reduced(crashes: Function -> bool, k: Kind, f: Function): Function {
    if crashes(Trimmed(k, f)) then Trimmed(k, f) else f
  }

  /** External functions go first, then the signatures, the stack slots and, if none is
      derived, the global values. */
  function ReducedAll(crashes: Function -> bool, f: Function): Function {
    var three := Reduced(crashes, Slots, Reduced(crashes, Signatures, Reduced(crashes, ExtFuncs, f)));
    if Simple(f) then Reduced(crashes, Globals, three) else three
  }

  /** What a kept step leaves as it was. */
  lemma ReducedKeeps(crashes: Function -> bool, k: Kind, f: Function)
    requires Legal(f) && crashes(f) && (k == Globals ==> Simple(f))
    ensures var r := Reduced(crashes, k, f);
            SameMeaning(f, r) && Legal(r) && crashes(r) && (k != Globals ==> r.globals == f.globals)
    ensures crashes(Trimmed(k, f)) ==> AllUsed(k, Reduced(crashes, k, f))
    ensures k != ExtFuncs ==> forall k' :: k' != k && AllUsed(k', f) ==> AllUsed(k', Reduced(crashes, k, f))
  {
    OnlyRenumbers(k, f);
    if k != ExtFuncs {
      forall k' | k' != k && AllUsed(k', f)
        ensures AllUsed(k', Trimmed(k, f))
      {
        StillUsed(k, f, k');
      }
    }
  }

  lemma SameTransitive(f: Function, g: Function, h: Function)
    requires SameMeaning(f, g) && SameMeaning(g, h)
    ensures SameMeaning(f, h)
  {
  }

  /** One iteration: a proposal is kept if it still crashes. */
  method Attempt(mutator: RemoveUnusedEntities, crashes: Function -> bool, f: Function, ghost f0: Function)
    returns (more: bool, r: Function)
    requires Legal(f) && crashes(f) && SameMeaning(f0, f) && (mutator.kind <= 3 ==> f.globals == f0.globals)
    modifies mutator
    ensures more <==> old(mutator.kind) <= 3 && (old(mutator.kind) == 3 ==> Simple(f0))
    ensures mutator.kind == if more then old(mutator.kind) + 1 else old(mutator.kind)
    ensures r == if more then Reduced(crashes, KindOf(old(mutator.kind)), f) else f
    ensures Legal(r) && crashes(r) && SameMeaning(f0, r) && (mutator.kind <= 3 ==> r.globals == f0.globals)
  {
    r := f;
    var proposal := mutator.Mutate(f);
    more := proposal.Some?;
    if more {
      ReducedKeeps(crashes, KindOf(old(mutator.kind)), f);
      SameTransitive(f0, f, Reduced(crashes, KindOf(old(mutator.kind)), f));
      if crashes(proposal.value) {
        r := proposal.value;
      }
    }
  }

  /** The function after so many kinds. */
  function AfterKinds(crashes: Function -> bool, f: Function, n: nat): Function
    requires n <= 4
  {
    if n == 0 then f else Reduced(crashes, KindOf(n - 1), AfterKinds(crashes, f, n - 1))
  }

  /** The phase of the reducer, from a new mutator until it is exhausted.  Every operation
      still means what it did; and if nothing but the crash is lost on the way, no table
      keeps an unused entry, derived global values excepted. */
  method EntityPhase(crashes: Function -> bool, f: Function) returns (r: Function)
    requires Legal(f) && crashes(f)
    ensures SameMeaning(f, r) && Legal(r) && crashes(r) && r == ReducedAll(crashes, f)
    ensures (forall g :: crashes(g)) ==> forall k :: (k == Globals ==> Simple(f)) ==> AllUsed(k, r)
  {
    var mutator := new RemoveUnusedEntities();
    r := f;
    var more := true;
    while more
      invariant fresh(mutator) && mutator.kind <= 4 && (mutator.kind == 4 ==> Simple(f))
      invariant more || mutator.kind == if Simple(f) then 4 else 3
      invariant r == AfterKinds(crashes, f, mutator.kind)
      invariant Legal(r) && crashes(r) && SameMeaning(f, r) && (mutator.kind <= 3 ==> r.globals == f.globals)
      decreases 4 - mutator.kind, more
    {
      more, r := Attempt(mutator, crashes, r, f);
    }
    PhaseKinds(crashes, f);
    if forall g :: crashes(g) {
      AllReduced(crashes, f);
    }
  }

  lemma PhaseKinds(crashes: Function -> bool, f: Function)
    ensures ReducedAll(crashes, f) == AfterKinds(crashes, f, if Simple(f) then 4 else 3)
  {
    assert AfterKinds(crashes, f, 1) == Reduced(crashes, ExtFuncs, f);
    assert AfterKinds(crashes, f, 2) == Reduced(crashes, Signatures, AfterKinds(crashes, f, 1));
    assert AfterKinds(crashes, f, 3) == Reduced(crashes, Slots, AfterKinds(crashes, f, 2));
    assert AfterKinds(crashes, f, 4) == Reduced(crashes, Globals, AfterKinds(crashes, f, 3));
  }

  lemma AllReduced(crashes: Function -> bool, f: Function)
    requires Legal(f) && forall g :: crashes(g)
    ensures forall k :: (k == Globals ==> Simple(f)) ==> AllUsed(k, ReducedAll(crashes, f))
  {
    if Simple(f) { AllKinds(f); } else { ThreeKinds(f); }
  }
}
