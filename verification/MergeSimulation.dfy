/** The merged code executes the same instructions on the same words. */
module MergeSimulation {
  import opened Graphs
  import opened Ir
  import opened Ssa
  import opened Execution
  import opened Merging

  /** Every visible value has the same word on both sides. */
  ghost predicate Agree(m: Merge, c: Block, n: nat, env: Env, env': Env)
    requires m.Defined()
  {
    forall v :: Visible(m.s, m.g, c, n, v) ==> Read(env, v) == Read(env', m.Sub(v))
  }

  function Place(m: Merge, c: Block): Block {
    if c == m.b then m.p else c
  }

  function Offset(m: Merge, c: Block): nat
    requires m.Defined()
  {
    if c == m.b then |m.s.blocks[m.p].insts| else 0
  }

  /** A state of the original code and the state of the merged code that matches it. */
  ghost predicate Matches(m: Merge, st: State, st': State)
    requires m.Defined()
  {
    match st
    case At(c, n, env, trace) =>
      && c in m.s.layout && c in m.s.blocks && m.g.Reachable(c) && n <= |m.s.blocks[c].insts|
      && st'.At? && st'.block == Place(m, c) && st'.pc == Offset(m, c) + n && st'.trace == trace
      && Agree(m, c, n, env, st'.env)
    case _ => st' == st
  }

  lemma AgreeAll(m: Merge, c: Block, n: nat, env: Env, env': Env, vs: seq<Value>)
    requires m.Defined() && Agree(m, c, n, env, env') && forall v :: v in vs ==> Visible(m.s, m.g, c, n, v)
    ensures ReadAll(env, vs) == ReadAll(env', SubstAll(m.Params(), m.Args(), vs))
  {
    forall i | 0 <= i < |vs|
      ensures Read(env, vs[i]) == Read(env', m.Sub(vs[i]))
    {
      assert vs[i] in vs;
    }
  }

  /** Binding the results of an instruction on both sides. */
  lemma ResultsAgree(m: Merge, home: Value -> Site, c: Block, n: nat, env: Env, env': Env, ws: seq<Word>)
    requires m.Ready(home) && m.Defined() && c in m.s.layout && m.g.Reachable(c) && n < |m.s.blocks[c].insts|
    requires |ws| == |m.s.blocks[c].insts[n].results| && Agree(m, c, n, env, env')
    ensures Agree(m, c, n + 1, Bind(env, m.s.blocks[c].insts[n].results, ws),
                  Bind(env', m.s.blocks[c].insts[n].results, ws))
  {
    var rs := m.s.blocks[c].insts[n].results;
    forall v | Visible(m.s, m.g, c, n + 1, v)
      ensures Read(Bind(env, rs, ws), v) == Read(Bind(env', rs, ws), m.Sub(v))
    {
      ResultAgrees(m, home, c, n, env, env', ws, v);
    }
  }

  lemma ResultHome(s: Code, home: Value -> Site, c: Block, n: nat, v: Value)
    requires Homed(s, home) && c in s.layout && c in s.blocks && n < |s.blocks[c].insts|
             && Names(s.blocks[c].insts[n].results, v)
    ensures home(v) == Site(c, n + 1)
  {
    assert HomedBlock(s.blocks[c], c, home);
    var k :| 0 <= k < |s.blocks[c].insts[n].results| && s.blocks[c].insts[n].results[k].value == v;
    assert s.blocks[c].insts[n].results[k] in s.blocks[c].insts[n].results;
  }

  lemma ParamHome(s: Code, home: Value -> Site, c: Block, v: Value)
    requires Homed(s, home) && c in s.layout && c in s.blocks && Names(s.blocks[c].params, v)
    ensures home(v) == Site(c, 0)
  {
    assert HomedBlock(s.blocks[c], c, home);
    var k :| 0 <= k < |s.blocks[c].params| && s.blocks[c].params[k].value == v;
    assert s.blocks[c].params[k] in s.blocks[c].params;
  }

  lemma ResultAgrees(m: Merge, home: Value -> Site, c: Block, n: nat, env: Env, env': Env, ws: seq<Word>, v: Value)
    requires m.Ready(home) && m.Defined() && c in m.s.layout && m.g.Reachable(c) && n < |m.s.blocks[c].insts|
    requires |ws| == |m.s.blocks[c].insts[n].results| && Agree(m, c, n, env, env') && Visible(m.s, m.g, c, n + 1, v)
    ensures var rs := m.s.blocks[c].insts[n].results;
            Read(Bind(env, rs, ws), v) == Read(Bind(env', rs, ws), m.Sub(v))
  {
    var rs := m.s.blocks[c].insts[n].results;
    Steady(m, home, c, n + 1, v);
    if Names(rs, v) {
      ResultHome(m.s, home, c, n, v);
      if Names(m.Params(), v) { ParamHome(m.s, home, m.b, v); }
      BindSame(env, env', rs, ws, v);
    } else {
      VisibleBefore(m.s, m.g, c, n, v);
      if Names(rs, m.Sub(v)) { ResultHome(m.s, home, c, n, m.Sub(v)); }
      BindOther(env, rs, ws, v);
      BindOther(env', rs, ws, m.Sub(v));
    }
  }

  /** Binding the parameters of a block other than the merged one. */
  lemma ParamsAgree(m: Merge, home: Value -> Site, c: Block, t: Block, env: Env, env': Env, ws: seq<Word>)
    requires m.Ready(home) && m.Defined() && c in m.s.layout && t in m.s.layout && m.g.Edge(c, t) && t != m.b
    requires m.g.Reachable(t) && |ws| == |m.s.blocks[t].params| && Agree(m, c, |m.s.blocks[c].insts|, env, env')
    ensures Agree(m, t, 0, Bind(env, m.s.blocks[t].params, ws), Bind(env', m.s.blocks[t].params, ws))
  {
    var ps := m.s.blocks[t].params;
    forall v | Visible(m.s, m.g, t, 0, v)
      ensures Read(Bind(env, ps, ws), v) == Read(Bind(env', ps, ws), m.Sub(v))
    {
      Steady(m, home, t, 0, v);
      if Names(ps, v) {
        ParamHome(m.s, home, t, v);
        if Names(m.Params(), v) { ParamHome(m.s, home, m.b, v); }
        BindSame(env, env', ps, ws, v);
      } else {
        VisibleAcross(m.s, m.g, c, t, v);
        if Names(ps, m.Sub(v)) { ParamHome(m.s, home, t, m.Sub(v)); }
        BindOther(env, ps, ws, v);
        BindOther(env', ps, ws, m.Sub(v));
      }
    }
  }

  /** Binding the merged parameters: the other side does nothing. */
  lemma MergedAgree(m: Merge, home: Value -> Site, env: Env, env': Env)
    requires m.Ready(home) && m.Defined() && |m.Args()| == |m.Params()|
    requires Agree(m, m.p, |m.s.blocks[m.p].insts|, env, env')
    ensures Agree(m, m.b, 0, Bind(env, m.Params(), ReadAll(env, m.Args())), env')
  {
    MergeFacts(m, home);
    var ps, ws := m.Params(), ReadAll(env, m.Args());
    forall v | Visible(m.s, m.g, m.b, 0, v)
      ensures Read(Bind(env, ps, ws), v) == Read(env', m.Sub(v))
    {
      if Names(ps, v) {
        var k :| 0 <= k < |ps| && ps[k].value == v;
        assert HomedBlock(m.s.blocks[m.b], m.b, home);
        BindAt(env, ps, ws, k);
        SubstAt(ps, m.Args(), k);
        ArgsAbove(m, home, k);
      } else {
        VisibleAcross(m.s, m.g, m.p, m.b, v);
        BindOther(env, ps, ws, v);
      }
    }
  }

  // ----- steps -----

  /** The original takes the branch that the merge removes. */
  predicate Stutters(m: Merge, st: State)
    requires m.Defined()
  {
    st.At? && st.block == m.p && st.pc == |m.s.blocks[m.p].insts|
  }

  /** Instruction `n` of `c` is instruction `n'` of the block that stands for it. */
  lemma PlaceInst(m: Merge, c: Block, n: nat, n': nat)
    requires m.Defined() && m.p != m.b && c in m.s.blocks && n < |m.s.blocks[c].insts| && n' == Offset(m, c) + n
    ensures Place(m, c) in m.Result().blocks && n' < |m.Result().blocks[Place(m, c)].insts|
    ensures m.Result().blocks[Place(m, c)].insts[n'] == SubstInst(m.Params(), m.Args(), m.s.blocks[c].insts[n])
  {
    var joined := m.s.blocks[m.p].insts + m.s.blocks[m.b].insts;
    if c == m.p || c == m.b {
      assert m.Result().blocks[m.p] == m.Joined();
      assert joined[n'] == m.s.blocks[c].insts[n];
      assert m.Joined().insts == SubstInsts(m.Params(), m.Args(), joined);
    } else {
      assert m.Result().blocks[c] == SubstBlock(m.Params(), m.Args(), m.s.blocks[c]);
    }
  }

  /** A block other than the predecessor ends like the block that stands for it. */
  lemma PlaceEnd(m: Merge, c: Block)
    requires m.Defined() && m.p != m.b && c in m.s.blocks && c != m.p
    ensures Place(m, c) in m.Result().blocks
    ensures |m.Result().blocks[Place(m, c)].insts| == Offset(m, c) + |m.s.blocks[c].insts|
    ensures m.Result().blocks[Place(m, c)].term == SubstTerm(m.Params(), m.Args(), m.s.blocks[c].term)
  {
    if c == m.b {
      assert m.Result().blocks[m.p] == m.Joined();
    }
  }

  lemma PlaceParams(m: Merge, c: Block)
    requires m.Defined() && m.p != m.b && c in m.s.blocks && c != m.b
    ensures c in m.Result().blocks && m.Result().blocks[c].params == m.s.blocks[c].params
  {
    if c == m.p {
      assert m.Result().blocks[m.p] == m.Joined();
    }
  }

  lemma ExecuteMatches(m: Merge, home: Value -> Site, x: Machine, st: State, st': State)
    requires m.Ready(home) && m.Defined() && st.At? && Matches(m, st, st') && st.pc < |m.s.blocks[st.block].insts|
    ensures Matches(m, Step(m.s, x, st), Step(m.Result(), x, st'))
  {
    MergeFacts(m, home);
    PlaceInst(m, st.block, st.pc, st'.pc);
    var inst := m.s.blocks[st.block].insts[st.pc];
    ExecutedMatches(m, home, x, st, st', inst);
    assert Step(m.s, x, st) == Execute(x, inst, st);
    assert Step(m.Result(), x, st') == Execute(x, SubstInst(m.Params(), m.Args(), inst), st');
  }

  lemma ExecutedMatches(m: Merge, home: Value -> Site, x: Machine, st: State, st': State, inst: Inst)
    requires m.Ready(home) && m.Defined() && st.At? && Matches(m, st, st') && st.pc < |m.s.blocks[st.block].insts|
    requires inst == m.s.blocks[st.block].insts[st.pc]
    ensures Matches(m, Execute(x, inst, st), Execute(x, SubstInst(m.Params(), m.Args(), inst), st'))
  {
    var c, n := st.block, st.pc;
    assert BlockOk(m.s, m.g, Elements(m.s.layout), c);
    assert InstOk(Outer(m.s, m.g, Elements(m.s.layout), c), m.s.blocks[c], n);
    AgreeAll(m, c, n, st.env, st'.env, inst.args);
    var args := ReadAll(st.env, inst.args);
    ResultsAgree(m, home, c, n, st.env, st'.env, Results(x, st.trace, inst, args));
  }

  /** The condition and the chosen target. */
  lemma TakenMatches(m: Merge, c: Block, env: Env, env': Env)
    requires m.Defined() && c in m.s.layout && LiveSsa(m.s, m.g) && m.g.Reachable(c) && c in m.s.blocks
    requires Agree(m, c, |m.s.blocks[c].insts|, env, env') && m.s.blocks[c].term.Calls() != []
    ensures Taken(SubstTerm(m.Params(), m.Args(), m.s.blocks[c].term), env') == Taken(m.s.blocks[c].term, env)
  {
    assert BlockOk(m.s, m.g, Elements(m.s.layout), c);
    if m.s.blocks[c].term.Conditional() {
      assert Visible(m.s, m.g, c, |m.s.blocks[c].insts|, m.s.blocks[c].term.cond);
    }
  }

  lemma EnterMatches(m: Merge, home: Value -> Site, c: Block, k: nat, env: Env, env': Env, trace: seq<Event>)
    requires m.Ready(home) && m.Defined() && c in m.s.layout && m.g.Reachable(c) && c != m.p
    requires Agree(m, c, |m.s.blocks[c].insts|, env, env') && k < |m.s.blocks[c].term.Calls()|
    ensures var call := m.s.blocks[c].term.Calls()[k];
            Matches(m, Enter(m.s, call, env, trace),
                    Enter(m.Result(), SubstCall(m.Params(), m.Args(), call), env', trace))
  {
    MergeFacts(m, home);
    var s, g, S := m.s, m.g, Elements(m.s.layout);
    var call := s.blocks[c].term.Calls()[k];
    var t := call.block;
    assert t == s.blocks[c].term.Dests()[k];
    assert g.Edge(c, t);
    assert c in g.Preds(t);
    assert CallsOk(s, g, S, c) && CallOk(s, g, S, c, k);
    EdgeReaches(g, c, t);
    ReachesTransitive(g, g.entry, c, t);
    PlaceParams(m, t);
    ArgsVisible(s, g, c, k);
    AgreeAll(m, c, |s.blocks[c].insts|, env, env', call.args);
    ParamsAgree(m, home, c, t, env, env', ReadAll(env, call.args));
  }

  lemma ArgsVisible(s: Code, g: Cfg, c: Block, k: nat)
    requires LiveSsa(s, g) && c in s.layout && g.Reachable(c) && c in s.blocks && k < |s.blocks[c].term.Calls()|
    ensures forall v :: v in s.blocks[c].term.Calls()[k].args ==> Visible(s, g, c, |s.blocks[c].insts|, v)
  {
    var S := Elements(s.layout);
    assert CallsOk(s, g, S, c) && CallOk(s, g, S, c, k);
    var call := s.blocks[c].term.Calls()[k];
    forall v | v in call.args
      ensures Visible(s, g, c, |s.blocks[c].insts|, v)
    {
      var i :| 0 <= i < |call.args| && call.args[i] == v;
      assert InScope(Outer(s, g, S, c), s.blocks[c], |s.blocks[c].insts|,
                     TypedValue(call.args[i], s.blocks[call.block].params[i].ty));
    }
  }

  lemma BranchMatches(m: Merge, home: Value -> Site, x: Machine, st: State, st': State)
    requires m.Ready(home) && m.Defined() && st.At? && Matches(m, st, st')
    requires st.pc == |m.s.blocks[st.block].insts| && st.block != m.p
    ensures Matches(m, Step(m.s, x, st), Step(m.Result(), x, st'))
  {
    MergeFacts(m, home);
    PlaceEnd(m, st.block);
    EndMatches(m, home, st.block, st.env, st'.env, st.trace);
  }

  lemma EndMatches(m: Merge, home: Value -> Site, c: Block, env: Env, env': Env, trace: seq<Event>)
    requires m.Ready(home) && m.Defined() && c in m.s.layout && c in m.s.blocks && m.g.Reachable(c) && c != m.p
    requires Agree(m, c, |m.s.blocks[c].insts|, env, env')
    ensures var t := m.s.blocks[c].term;
            Matches(m, Branch(m.s, t, env, trace), Branch(m.Result(), SubstTerm(m.Params(), m.Args(), t), env', trace))
  {
    var t := m.s.blocks[c].term;
    assert BlockOk(m.s, m.g, Elements(m.s.layout), c);
    if t.Return? {
      AgreeAll(m, c, |m.s.blocks[c].insts|, env, env', t.values);
    } else if t.Calls() != [] {
      TakenMatches(m, c, env, env');
      EnterMatches(m, home, c, Taken(t, env), env, env', trace);
    }
  }

  /** The removed branch: only the original moves. */
  lemma StutterMatches(m: Merge, home: Value -> Site, x: Machine, st: State, st': State)
    requires m.Ready(home) && m.Defined() && Matches(m, st, st') && Stutters(m, st)
    ensures Matches(m, Step(m.s, x, st), st') && !Stutters(m, Step(m.s, x, st)) && Step(m.s, x, st).At?
  {
    MergeFacts(m, home);
    var t := m.s.blocks[m.p].term;
    assert Taken(t, st.env) == 0;
    MergedAgree(m, home, st.env, st'.env);
  }

  /** One step of the merged code for each step of the original, but for the removed
      branch. */
  lemma StepMatches(m: Merge, home: Value -> Site, x: Machine, st: State, st': State)
    requires m.Ready(home) && m.Defined() && Matches(m, st, st')
    ensures if Stutters(m, st) then Matches(m, Step(m.s, x, st), st')
            else Matches(m, Step(m.s, x, st), Step(m.Result(), x, st'))
  {
    if Stutters(m, st) {
      StutterMatches(m, home, x, st, st');
    } else if st.At? {
      if st.pc < |m.s.blocks[st.block].insts| {
        ExecuteMatches(m, home, x, st, st');
      } else {
        BranchMatches(m, home, x, st, st');
      }
    }
  }

  lemma StartMatches(m: Merge, home: Value -> Site, env: Env)
    requires m.Ready(home) && m.Defined()
    ensures m.Result().layout != [] && Matches(m, Start(m.s, env), Start(m.Result(), env))
  {
    WithoutLaid(m.s.layout, m.b);
    var s, g := m.s, m.g;
    assert g.PathFromTo(g.entry, g.entry, [g.entry]);
    forall v | Visible(s, g, g.entry, 0, v)
      ensures Read(env, v) == Read(env, m.Sub(v))
    {
      VisibleHome(s, g, home, g.entry, 0, v);
      if Names(m.Params(), v) { ParamHome(s, home, m.b, v); }
      SubstOther(m.Params(), m.Args(), v);
    }
  }

  // ----- runs -----

  function Before(m: Merge, x: Machine, env: Env, n: nat): State
    requires m.s.layout != []
  {
    Run(m.s, x, Start(m.s, env), n)
  }

  function After(m: Merge, x: Machine, env: Env, k: nat): State
    requires m.Defined() && m.Result().layout != []
  {
    Run(m.Result(), x, Start(m.Result(), env), k)
  }

  ghost predicate Mergeable(m: Merge, home: Value -> Site) {
    m.Ready(home) && m.Defined() && m.s.layout != [] && m.Result().layout != []
  }

  /** After `n` steps of the original and `k` of the merged code, the states match. */
  ghost predicate Meet(m: Merge, home: Value -> Site, x: Machine, env: Env, n: nat, k: nat) {
    Mergeable(m, home) && Matches(m, Before(m, x, env, n), After(m, x, env, k))
  }

  ghost predicate Pauses(m: Merge, home: Value -> Site, x: Machine, env: Env, n: nat) {
    Mergeable(m, home) && Stutters(m, Before(m, x, env, n))
  }

  lemma MeetStart(m: Merge, home: Value -> Site, x: Machine, env: Env)
    requires m.Ready(home)
    ensures Meet(m, home, x, env, 0, 0)
  {
    MergeFacts(m, home);
    StartMatches(m, home, env);
  }

  lemma MeetStep(m: Merge, home: Value -> Site, x: Machine, env: Env, n: nat, k: nat)
    requires Meet(m, home, x, env, n, k)
    ensures if Pauses(m, home, x, env, n) then Meet(m, home, x, env, n + 1, k) else Meet(m, home, x, env, n + 1, k + 1)
  {
    StepMatches(m, home, x, Before(m, x, env, n), After(m, x, env, k));
  }

  lemma PausesOnce(m: Merge, home: Value -> Site, x: Machine, env: Env, n: nat, k: nat)
    requires Meet(m, home, x, env, n, k) && Pauses(m, home, x, env, n)
    ensures !Pauses(m, home, x, env, n + 1)
  {
    StutterMatches(m, home, x, Before(m, x, env, n), After(m, x, env, k));
  }

  /** Two runs advance together, except that the first pauses the second now and
      then, never twice in a row. */
  ghost predicate Advances(meet: (nat, nat) -> bool, pauses: nat -> bool, n: nat, k: nat) {
    meet(n, k) ==> if pauses(n) then meet(n + 1, k) && !pauses(n + 1) else meet(n + 1, k + 1)
  }

  lemma {:induction false} MeetFromLeft(meet: (nat, nat) -> bool, pauses: nat -> bool, n: nat) returns (k: nat)
    requires meet(0, 0) && forall i: nat, j: nat :: Advances(meet, pauses, i, j)
    ensures k <= n && meet(n, k)
    decreases n
  {
    if n == 0 {
      k := 0;
    } else {
      k := MeetFromLeft(meet, pauses, n - 1);
      assert Advances(meet, pauses, n - 1, k);
      if !pauses(n - 1) { k := k + 1; }
    }
  }

  lemma {:induction false} MeetFromRight(meet: (nat, nat) -> bool, pauses: nat -> bool, k: nat) returns (n: nat)
    requires meet(0, 0) && forall i: nat, j: nat :: Advances(meet, pauses, i, j)
    ensures k <= n <= 2 * k && meet(n, k)
    decreases k
  {
    if k == 0 {
      n := 0;
    } else {
      n := MeetFromRight(meet, pauses, k - 1);
      assert Advances(meet, pauses, n, k - 1) && Advances(meet, pauses, n + 1, k - 1);
      n := if pauses(n) then n + 2 else n + 1;
    }
  }

  ghost function Meeting(m: Merge, home: Value -> Site, x: Machine, env: Env): (nat, nat) -> bool {
    (n: nat, k: nat) => Meet(m, home, x, env, n, k)
  }

  ghost function Pausing(m: Merge, home: Value -> Site, x: Machine, env: Env): nat -> bool {
    (n: nat) => Pauses(m, home, x, env, n)
  }

  lemma RunsAdvance(m: Merge, home: Value -> Site, x: Machine, env: Env, i: nat, j: nat)
    ensures Advances(Meeting(m, home, x, env), Pausing(m, home, x, env), i, j)
  {
    if Meet(m, home, x, env, i, j) {
      MeetStep(m, home, x, env, i, j);
      if Pauses(m, home, x, env, i) { PausesOnce(m, home, x, env, i, j); }
    }
  }

  /** The same instructions have run, on the same words with the same results. */
  predicate SameSoFar(st: State, st': State) {
    st.trace == st'.trace && Observe(st) == Observe(st')
  }

  lemma MeetSame(m: Merge, home: Value -> Site, x: Machine, env: Env, n: nat, k: nat)
    requires Meet(m, home, x, env, n, k)
    ensures SameSoFar(Before(m, x, env, n), After(m, x, env, k))
  {
  }

  /** Some state of `s'` looks like the state of `s` after `n` steps. */
  ghost predicate Matched(s: Code, s': Code, x: Machine, env: Env, n: nat)
    requires s.layout != [] && s'.layout != []
  {
    exists k: nat :: SameSoFar(Run(s, x, Start(s, env), n), Run(s', x, Start(s', env), k))
  }

  /** Everything that can be observed of `s` can be observed of `s'`. */
  ghost predicate Refines(s: Code, s': Code, x: Machine, env: Env) {
    s.layout != [] && s'.layout != [] && forall n: nat :: Matched(s, s', x, env, n)
  }

  lemma Forward(m: Merge, home: Value -> Site, x: Machine, env: Env, n: nat)
    requires Mergeable(m, home)
    ensures Matched(m.s, m.Result(), x, env, n)
  {
    MeetStart(m, home, x, env);
    forall i: nat, j: nat { RunsAdvance(m, home, x, env, i, j); }
    var k := MeetFromLeft(Meeting(m, home, x, env), Pausing(m, home, x, env), n);
    MeetSame(m, home, x, env, n, k);
  }

  lemma Backward(m: Merge, home: Value -> Site, x: Machine, env: Env, k: nat)
    requires Mergeable(m, home)
    ensures Matched(m.Result(), m.s, x, env, k)
  {
    MeetStart(m, home, x, env);
    forall i: nat, j: nat { RunsAdvance(m, home, x, env, i, j); }
    var n := MeetFromRight(Meeting(m, home, x, env), Pausing(m, home, x, env), k);
    MeetSame(m, home, x, env, n, k);
  }

  /** The merge changes nothing that can be observed, in any run on any machine. */
  lemma MergePreservesRuns(m: Merge, home: Value -> Site, x: Machine, env: Env)
    requires m.Ready(home) && m.Defined()
    ensures Refines(m.s, m.Result(), x, env) && Refines(m.Result(), m.s, x, env)
  {
    MeetStart(m, home, x, env);
    forall n: nat
      ensures Matched(m.s, m.Result(), x, env, n) && Matched(m.Result(), m.s, x, env, n)
    {
      Forward(m, home, x, env, n);
      Backward(m, home, x, env, n);
    }
  }
}
