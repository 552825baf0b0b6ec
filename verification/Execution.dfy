/** What a function does: small steps over instructions and branches, with the
    outcome of each operation left to the machine it runs on. */
module Execution {
  import opened Graphs
  import opened Ir

  type Word = int
  type Env = map<Value, Word>

  /** An executed instruction: its operation, the values it defines, and the words
      that went in and came out. */
  datatype Event = Event(op: Opcode, defs: seq<TypedValue>, args: seq<Word>, results: seq<Word>)

  /** A deterministic machine.  Memory and the outside world are functions of what
      has been executed so far. */
  datatype Machine = Machine(result: (seq<Event>, Opcode, seq<Word>, nat) -> Word,
                             traps: (seq<Event>, Opcode, seq<Word>) -> bool)

  datatype State =
    | At(block: Block, pc: nat, env: Env, trace: seq<Event>)
    | Returned(values: seq<Word>, trace: seq<Event>)
    | Trapped(trace: seq<Event>)
    | Stuck(trace: seq<Event>)

  function Read(env: Env, v: Value): Word {
    if v in env then env[v] else 0
  }

  function ReadAll(env: Env, vs: seq<Value>): (ws: seq<Word>)
    ensures |ws| == |vs| && forall i :: 0 <= i < |vs| ==> ws[i] == Read(env, vs[i])
  {
    seq(|vs|, i requires 0 <= i < |vs| => Read(env, vs[i]))
  }

  /** Gives each value its word. */
  function Bind(env: Env, vs: seq<TypedValue>, ws: seq<Word>): Env
    requires |vs| <= |ws|
  {
    if vs == [] then env else Bind(env, vs[..|vs| - 1], ws)[vs[|vs| - 1].value := ws[|vs| - 1]]
  }

  /** Which of its targets a branch takes. */
  function Taken(t: Terminator, env: Env): (k: nat)
    requires t.Calls() != []
    ensures k < |t.Calls()|
  {
    match t
    case Jump(_) => 0
    case Brif(c, _, _) => if Read(env, c) != 0 then 0 else 1
    case BrTable(c, table) => if 0 <= Read(env, c) < |table| - 1 then Read(env, c) + 1 else 0
  }

  /** Enters a block with the arguments in its parameters. */
  function Enter(s: Code, call: BlockCall, env: Env, trace: seq<Event>): State {
    if call.block in s.blocks && |call.args| == |s.blocks[call.block].params| then
      At(call.block, 0, Bind(env, s.blocks[call.block].params, ReadAll(env, call.args)), trace)
    else
      Stuck(trace)
  }

  function Results(m: Machine, trace: seq<Event>, inst: Inst, args: seq<Word>): (ws: seq<Word>)
    ensures |ws| == |inst.results|
  {
    seq(|inst.results|, i requires 0 <= i < |inst.results| => m.result(trace, inst.op, args, i))
  }

  function Execute(m: Machine, inst: Inst, st: State): State
    requires st.At?
  {
    var args := ReadAll(st.env, inst.args);
    if m.traps(st.trace, inst.op, args) then
      Trapped(st.trace)
    else
      var results := Results(m, st.trace, inst, args);
      At(st.block, st.pc + 1, Bind(st.env, inst.results, results),
         st.trace + [Event(inst.op, inst.results, args, results)])
  }

  function Branch(s: Code, t: Terminator, env: Env, trace: seq<Event>): State {
    if t.Return? then Returned(ReadAll(env, t.values), trace)
    else if t.Calls() == [] then Stuck(trace)
    else Enter(s, t.Calls()[Taken(t, env)], env, trace)
  }

  function Step(s: Code, m: Machine, st: State): State {
    if st.At? && st.block in s.blocks then
      var d := s.blocks[st.block];
      if st.pc < |d.insts| then Execute(m, d.insts[st.pc], st) else Branch(s, d.term, st.env, st.trace)
    else st
  }

  /** The state after `n` steps. */
  function Run(s: Code, m: Machine, st: State, n: nat): State {
    if n == 0 then st else Step(s, m, Run(s, m, st, n - 1))
  }

  function Start(s: Code, env: Env): State
    requires s.layout != []
  {
    At(s.layout[0], 0, env, [])
  }

  /** What an observer sees of a state. */
  datatype Outcome = Running | Finished(values: seq<Word>) | Crashed | Lost

  function Observe(st: State): Outcome {
    match st
    case At(_, _, _, _) => Running
    case Returned(ws, _) => Finished(ws)
    case Trapped(_) => Crashed
    case Stuck(_) => Lost
  }

  // ----- binding -----

  predicate Names(vs: seq<TypedValue>, v: Value) {
    exists k :: 0 <= k < |vs| && vs[k].value == v
  }

  lemma {:induction false} BindOther(env: Env, vs: seq<TypedValue>, ws: seq<Word>, v: Value)
    requires |vs| <= |ws| && !Names(vs, v)
    ensures Read(Bind(env, vs, ws), v) == Read(env, v)
  {
    if vs != [] {
      var n := |vs| - 1;
      assert vs[n].value != v;
      assert forall k :: 0 <= k < n ==> vs[..n][k] == vs[k];
      BindOther(env, vs[..n], ws, v);
    }
  }

  /** A bound value no longer depends on what was there before. */
  lemma {:induction false} BindSame(env: Env, env': Env, vs: seq<TypedValue>, ws: seq<Word>, v: Value)
    requires |vs| <= |ws| && Names(vs, v)
    ensures Read(Bind(env, vs, ws), v) == Read(Bind(env', vs, ws), v)
  {
    var n := |vs| - 1;
    if vs[n].value != v {
      var k :| 0 <= k < |vs| && vs[k].value == v;
      assert vs[..n][k] == vs[k];
      BindSame(env, env', vs[..n], ws, v);
    }
  }

  lemma {:induction false} BindAt(env: Env, vs: seq<TypedValue>, ws: seq<Word>, k: nat)
    requires |vs| <= |ws| && DistinctValues(vs) && k < |vs|
    ensures Read(Bind(env, vs, ws), vs[k].value) == ws[k]
  {
    var n := |vs| - 1;
    if k < n {
      assert vs[..n][k] == vs[k];
      BindAt(env, vs[..n], ws, k);
    }
  }
}
