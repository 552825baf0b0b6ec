/** The intersection of architecture configurations: which operand types every one of
    them allows in which modes of which instructions.  Lists of types are read as
    sets, a missing list as the empty set. */
module Config {
  import opened Ir

  type Operand = string

  datatype Mode = Mode(name: string, operands: Option<set<Operand>>, arg0: Option<set<Operand>>,
                       arg1: Option<set<Operand>>, result: Option<string>, memory: Option<bool>)

  function Types(o: Option<set<Operand>>): set<Operand> {
    if o.Some? then o.value else {}
  }

  /** Missing unless both are there and share something. */
  function IntersectTypes(a: Option<set<Operand>>, b: Option<set<Operand>>): (r: Option<set<Operand>>)
    ensures Types(r) == Types(a) * Types(b) && (r.Some? ==> r.value != {})
  {
    if a.Some? && b.Some? && a.value * b.value != {} then Some(a.value * b.value) else None
  }

  /** Missing unless the names, the result types and the memory flags agree. */
  function Intersect(a: Mode, b: Mode): Option<Mode> {
    if a.name != b.name then None
    else
      var operands := IntersectTypes(a.operands, b.operands);
      var arg0 := IntersectTypes(a.arg0, b.arg0);
      var arg1 := IntersectTypes(a.arg1, b.arg1);
      if a.result != b.result then None
      else if a.memory != b.memory then None
      else Some(Mode(a.name, operands, arg0, arg1, a.result, a.memory))
  }

  // ----- modes are ordered by what they allow -----

  predicate SameKind(a: Mode, b: Mode) {
    a.name == b.name && a.result == b.result && a.memory == b.memory
  }

  /** `a` allows nothing that `b` does not. */
  predicate Within(a: Mode, b: Mode) {
    && SameKind(a, b)
    && Types(a.operands) <= Types(b.operands) && Types(a.arg0) <= Types(b.arg0) && Types(a.arg1) <= Types(b.arg1)
  }

  predicate Equivalent(a: Mode, b: Mode) {
    Within(a, b) && Within(b, a)
  }

  /** `Intersect` is the greatest lower bound, and missing only if there is none. */
  lemma IntersectIsMeet(m: Mode, a: Mode, b: Mode)
    ensures Within(m, a) && Within(m, b) <==> Intersect(a, b).Some? && Within(m, Intersect(a, b).value)
  {
  }

  function Then(o: Option<Mode>, b: Mode): Option<Mode> {
    if o.Some? then Intersect(o.value, b) else None
  }

  ghost predicate Alike(a: Option<Mode>, b: Option<Mode>) {
    (a.Some? <==> b.Some?) && (a.Some? ==> Equivalent(a.value, b.value))
  }

  /** The order, the grouping and repetition do not matter. */
  lemma IntersectLaws(a: Mode, b: Mode, c: Mode)
    ensures Alike(Intersect(a, b), Intersect(b, a))
    ensures Alike(Then(Intersect(a, b), c), Then(Intersect(b, c), a))
    ensures Alike(Intersect(a, a), Some(a))
  {
    assert Types(a.operands) * Types(b.operands) * Types(c.operands)
        == Types(b.operands) * Types(c.operands) * Types(a.operands);
    assert Types(a.arg0) * Types(b.arg0) * Types(c.arg0) == Types(b.arg0) * Types(c.arg0) * Types(a.arg0);
    assert Types(a.arg1) * Types(b.arg1) * Types(c.arg1) == Types(b.arg1) * Types(c.arg1) * Types(a.arg1);
  }

  // ----- instructions -----

  type Modes = Option<seq<Mode>>

  /** Some listed mode allows all that `use` asks for. */
  ghost predicate Admits(modes: Modes, use: Mode) {
    modes.Some? && exists i :: 0 <= i < |modes.value| && Within(use, modes.value[i])
  }

  ghost function Allowed(modes: Modes): iset<Mode> {
    iset use | Admits(modes, use)
  }

  /** Adds the intersections of one mode with each of a list. */
  method IntersectEach(m: Mode, b: seq<Mode>, before: seq<Mode>) returns (all: seq<Mode>)
    ensures Allowed(Some(all)) == Allowed(Some(before)) + Allowed(Some([m])) * Allowed(Some(b))
  {
    all := before;
    for j := 0 to |b|
      invariant Allowed(Some(all)) == Allowed(Some(before)) + Allowed(Some([m])) * Allowed(Some(b[..j]))
    {
      AllowedMore(b, j);
      MeetAllowed(m, b[j]);
      var meet := Intersect(m, b[j]);
      if meet.Some? {
        AllowedAppend(all, meet.value);
        all := all + [meet.value];
      }
    }
    assert b[..|b|] == b;
  }

  /** All pairwise intersections; missing if there are none. */
  method IntersectModes(a: Modes, b: Modes) returns (r: Modes)
    ensures Allowed(r) == Allowed(a) * Allowed(b)
    ensures r.Some? ==> r.value != []
  {
    if a.None? || b.None? {
      return None;
    }
    var all: seq<Mode> := [];
    for i := 0 to |a.value|
      invariant Allowed(Some(all)) == Allowed(Some(a.value[..i])) * Allowed(b)
    {
      AllowedMore(a.value, i);
      all := IntersectEach(a.value[i], b.value, all);
    }
    assert a.value[..|a.value|] == a.value;
    r := if all == [] then None else Some(all);
  }

  lemma AllowedAppend(s: seq<Mode>, m: Mode)
    ensures Allowed(Some(s + [m])) == Allowed(Some(s)) + Allowed(Some([m]))
  {
    var t := s + [m];
    AllowedMore(t, |s|);
    assert t[..|s|] == s && t[..|s| + 1] == t;
  }

  lemma AllowedMore(s: seq<Mode>, i: nat)
    requires i < |s|
    ensures Allowed(Some(s[..i + 1])) == Allowed(Some(s[..i])) + Allowed(Some([s[i]]))
  {
    forall use
      ensures Admits(Some(s[..i + 1]), use) <==> Admits(Some(s[..i]), use) || Admits(Some([s[i]]), use)
    {
      var t := s[..i + 1];
      if Admits(Some(t), use) {
        var k :| 0 <= k < |t| && Within(use, t[k]);
        if k < i { assert s[..i][k] == t[k]; } else { assert [s[i]][0] == t[k]; }
      }
      if Admits(Some(s[..i]), use) {
        var k :| 0 <= k < i && Within(use, s[..i][k]);
        assert t[k] == s[..i][k];
      }
      if Admits(Some([s[i]]), use) { assert t[i] == [s[i]][0]; }
    }
  }

  lemma MeetAllowed(a: Mode, b: Mode)
    ensures Allowed(Some([a])) * Allowed(Some([b])) == if Intersect(a, b).Some?
            then Allowed(Some([Intersect(a, b).value])) else iset{}
  {
    forall use
      ensures Admits(Some([a]), use) && Admits(Some([b]), use) <==>
              Intersect(a, b).Some? && Within(use, Intersect(a, b).value)
    {
      One(a, use);
      One(b, use);
      IntersectIsMeet(use, a, b);
    }
    if Intersect(a, b).Some? {
      forall use { One(Intersect(a, b).value, use); }
    }
  }

  lemma One(a: Mode, use: Mode)
    ensures Admits(Some([a]), use) <==> Within(use, a)
  {
    assert [a][0] == a;
  }

  datatype Instruction = Instruction(name: string, modes: Modes)

  /** The first instruction of that name is at position `i`. */
  ghost predicate IsFirst(instrs: seq<Instruction>, name: string, i: nat) {
    i < |instrs| && instrs[i].name == name && forall j :: 0 <= j < i ==> instrs[j].name != name
  }

  /** The modes of the first instruction of that name; none if there is none. */
  function FirstModes(instrs: seq<Instruction>, name: string): (r: Modes)
    ensures (forall i :: 0 <= i < |instrs| ==> instrs[i].name != name) ==> r.None?
    ensures forall i :: 0 <= i < |instrs| && IsFirst(instrs, name, i) ==> r == instrs[i].modes
  {
    if instrs == [] then None else if instrs[0].name == name then instrs[0].modes else FirstModes(instrs[1..], name)
  }

  /** What every configuration of a list allows for an instruction. */
  ghost function Common(configs: seq<seq<Instruction>>, name: string): iset<Mode> {
    iset use | EveryAdmits(configs, name, use)
  }

  ghost predicate EveryAdmits(configs: seq<seq<Instruction>>, name: string, use: Mode) {
    forall j :: 0 <= j < |configs| ==> Admits(FirstModes(configs[j], name), use)
  }

  /** Narrows every instruction to what one more configuration allows. */
  method Narrow(instrs: seq<Instruction>, config: seq<Instruction>) returns (r: seq<Instruction>)
    ensures |r| == |instrs|
    ensures forall i :: 0 <= i < |instrs| ==>
              r[i].name == instrs[i].name
                  && Allowed(r[i].modes) == Allowed(instrs[i].modes) * Allowed(FirstModes(config, instrs[i].name))
  {
    r := instrs;
    for i := 0 to |instrs|
      invariant |r| == |instrs|
      invariant forall k :: i <= k < |instrs| ==> r[k] == instrs[k]
      invariant forall k :: 0 <= k < i ==>
                  r[k].name == instrs[k].name
                      && Allowed(r[k].modes) == Allowed(instrs[k].modes) * Allowed(FirstModes(config, instrs[k].name))
    {
      var modes := IntersectModes(r[i].modes, FirstModes(config, r[i].name));
      r := r[i := r[i].(modes := modes)];
    }
  }

  /** The instructions of the first configuration, each allowing exactly what it allows
      there and under the first instruction of its name in every other configuration. */
  method ConfigIntersection(configs: seq<seq<Instruction>>) returns (r: seq<Instruction>)
    requires configs != []
    ensures |r| == |configs[0]|
    ensures forall i :: 0 <= i < |r| ==>
              r[i].name == configs[0][i].name
                  && Allowed(r[i].modes) == Allowed(configs[0][i].modes) * Common(configs[1..], r[i].name)
  {
    r := configs[0];
    for j := 1 to |configs|
      invariant |r| == |configs[0]|
      invariant forall i :: 0 <= i < |r| ==>
                  r[i].name == configs[0][i].name
                      && Allowed(r[i].modes) == Allowed(configs[0][i].modes) * Common(configs[1..j], r[i].name)
    {
      ghost var was := r;
      r := Narrow(r, configs[j]);
      forall i | 0 <= i < |r|
        ensures r[i].name == configs[0][i].name
                && Allowed(r[i].modes) == Allowed(configs[0][i].modes) * Common(configs[1..j + 1], r[i].name)
      {
        CommonMore(configs[1..j + 1], j - 1, was[i].name);
        assert configs[1..j + 1][..j - 1] == configs[1..j] && configs[1..j + 1][j - 1] == configs[j];
      }
    }
    assert configs[1..|configs|] == configs[1..];
  }

  lemma CommonMore(configs: seq<seq<Instruction>>, j: nat, name: string)
    requires |configs| == j + 1
    ensures Common(configs, name) == Common(configs[..j], name) * Allowed(FirstModes(configs[j], name))
  {
    forall use
      ensures EveryAdmits(configs, name, use) <==>
              EveryAdmits(configs[..j], name, use) && Admits(FirstModes(configs[j], name), use)
    {
      assert forall k :: 0 <= k < j ==> configs[..j][k] == configs[k];
    }
  }

  /** The instructions, allowing the same. */
  ghost predicate SameAllowed(a: seq<Instruction>, b: seq<Instruction>) {
    |a| == |b| && forall i :: 0 <= i < |a| ==> a[i].name == b[i].name && Allowed(a[i].modes) == Allowed(b[i].modes)
  }

  /** Two runs over the same first configuration and the others in different orders. */
  method AnyOrder(first: seq<Instruction>, a: seq<seq<Instruction>>, b: seq<seq<Instruction>>)
    returns (r: seq<Instruction>, r': seq<Instruction>)
    requires multiset(a) == multiset(b)
    ensures SameAllowed(r, r')
  {
    r := ConfigIntersection([first] + a);
    r' := ConfigIntersection([first] + b);
    assert ([first] + a)[1..] == a && ([first] + b)[1..] == b;
    forall i | 0 <= i < |r|
      ensures Allowed(r[i].modes) == Allowed(r'[i].modes)
    {
      OrderIrrelevant(a, b, first[i].name);
    }
  }

  /** The order of the other configurations does not matter. */
  lemma OrderIrrelevant(a: seq<seq<Instruction>>, b: seq<seq<Instruction>>, name: string)
    requires multiset(a) == multiset(b)
    ensures Common(a, name) == Common(b, name)
  {
    CommonWithin(a, b, name);
    CommonWithin(b, a, name);
  }

  lemma CommonWithin(a: seq<seq<Instruction>>, b: seq<seq<Instruction>>, name: string)
    requires multiset(a) == multiset(b)
    ensures Common(a, name) <= Common(b, name)
  {
    forall use | EveryAdmits(a, name, use)
      ensures EveryAdmits(b, name, use)
    {
      forall j | 0 <= j < |b|
        ensures Admits(FirstModes(b[j], name), use)
      {
        assert b[j] in multiset(b);
        var k :| 0 <= k < |a| && a[k] == b[j];
      }
    }
  }
}
