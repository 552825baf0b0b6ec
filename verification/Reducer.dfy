/** The reduction loop around the mutators.  What a mutator proposes is arbitrary;
    the crash check is any function of the code. */
module Reducer {
  import opened Ir

  const PASSES := 100
  const PHASES := 8
  const ITERATIONS := 10000

  datatype Proposal<F> = Exhausted | Skip | Mutated(func: F, shrinks: bool)

  /** What the mutator of one phase answered, call by call. */
  type Phase<F> = seq<Proposal<F>>

  // ----- what the answers lead to -----

  /** The function after one answer: a mutated one that crashes takes its place. */
  function Next<F>(crashes: F -> bool, f: F, proposal: Proposal<F>): F {
    if proposal.Mutated? && crashes(proposal.func) then proposal.func else f
  }

  function AfterPhase<F>(crashes: F -> bool, f: F, phase: Phase<F>): F
    decreases |phase|
  {
    if phase == [] then f
    else Next(crashes, AfterPhase(crashes, f, phase[..|phase| - 1]), phase[|phase| - 1])
  }

  function AfterPass<F>(crashes: F -> bool, f: F, pass: seq<Phase<F>>): F
    decreases |pass|
  {
    if pass == [] then f
    else AfterPhase(crashes, AfterPass(crashes, f, pass[..|pass| - 1]), pass[|pass| - 1])
  }

  function AfterPasses<F>(crashes: F -> bool, f: F, passes: seq<seq<Phase<F>>>): F
    decreases |passes|
  {
    if passes == [] then f
    else AfterPass(crashes, AfterPasses(crashes, f, passes[..|passes| - 1]), passes[|passes| - 1])
  }

  /** A mutation that was kept made the function smaller. */
  ghost predicate Shrank<F>(crashes: F -> bool, phase: Phase<F>) {
    exists i :: 0 <= i < |phase| && phase[i].Mutated? && phase[i].shrinks && crashes(phase[i].func)
  }

  ghost predicate PassShrank<F>(crashes: F -> bool, pass: seq<Phase<F>>) {
    exists i :: 0 <= i < |pass| && Shrank(crashes, pass[i])
  }

  /** The mutator is asked until it is exhausted, or as often as allowed. */
  predicate Complete<F>(phase: Phase<F>) {
    && |phase| <= ITERATIONS && (forall i :: 0 <= i < |phase| - 1 ==> !phase[i].Exhausted?)
    && (|phase| == ITERATIONS || (phase != [] && phase[|phase| - 1].Exhausted?))
  }

  predicate CompletePass<F>(pass: seq<Phase<F>>) {
    |pass| == PHASES && forall i :: 0 <= i < |pass| ==> Complete(pass[i])
  }

  /** Passes follow one another as long as the last one shrank the function, or as often
      as allowed. */
  ghost predicate CompleteRun<F>(crashes: F -> bool, passes: seq<seq<Phase<F>>>) {
    && 0 < |passes| <= PASSES && (forall i :: 0 <= i < |passes| ==> CompletePass(passes[i]))
    && (forall i :: 0 <= i < |passes| - 1 ==> PassShrank(crashes, passes[i]))
    && (|passes| == PASSES || !PassShrank(crashes, passes[|passes| - 1]))
  }

  /** A rewritten function, if it still crashes. */
  function Tried<F>(crashes: F -> bool, rewrite: F -> F, f: F): F {
    if crashes(rewrite(f)) then rewrite(f) else f
  }

  // ----- the function crashes throughout -----

  lemma {:induction false} PhaseCrashes<F>(crashes: F -> bool, f: F, phase: Phase<F>)
    requires crashes(f)
    ensures crashes(AfterPhase(crashes, f, phase))
    decreases |phase|
  {
    if phase != [] { PhaseCrashes(crashes, f, phase[..|phase| - 1]); }
  }

  lemma {:induction false} PassCrashes<F>(crashes: F -> bool, f: F, pass: seq<Phase<F>>)
    requires crashes(f)
    ensures crashes(AfterPass(crashes, f, pass))
    decreases |pass|
  {
    if pass != [] {
      PassCrashes(crashes, f, pass[..|pass| - 1]);
      PhaseCrashes(crashes, AfterPass(crashes, f, pass[..|pass| - 1]), pass[|pass| - 1]);
    }
  }

  /** Whatever has been answered so far, the current function crashes. */
  lemma {:induction false} AlwaysCrashes<F>(crashes: F -> bool, f: F, passes: seq<seq<Phase<F>>>,
                                            pass: seq<Phase<F>>, phase: Phase<F>)
    requires crashes(f)
    ensures crashes(AfterPhase(crashes, AfterPass(crashes, AfterPasses(crashes, f, passes), pass), phase))
    decreases |passes|
  {
    if passes != [] {
      AlwaysCrashes(crashes, f, passes[..|passes| - 1], passes[|passes| - 1], []);
    }
    PassCrashes(crashes, AfterPasses(crashes, f, passes), pass);
    PhaseCrashes(crashes, AfterPass(crashes, AfterPasses(crashes, f, passes), pass), phase);
  }

  // ----- the loops -----

  /** Keeps a rewritten function if it still crashes. */
  method TryKeep<F>(crashes: F -> bool, rewrite: F -> F, f: F) returns (r: F)
    requires crashes(f)
    ensures crashes(r) && r == Tried(crashes, rewrite, f)
  {
    r := rewrite(f);
    if !crashes(r) {
      r := f;
    }
  }

  /** One phase: proposals are kept while the function crashes. */
  method RunPhase<F(0)>(crashes: F -> bool, f: F) returns (r: F, shrank: bool, ghost phase: Phase<F>)
    requires crashes(f)
    ensures crashes(r) && r == AfterPhase(crashes, f, phase) && Complete(phase)
    ensures shrank <==> Shrank(crashes, phase)
  {
    r, shrank, phase := f, false, [];
    for i := 0 to ITERATIONS
      invariant crashes(r) && r == AfterPhase(crashes, f, phase) && |phase| == i
      invariant forall k :: 0 <= k < |phase| ==> !phase[k].Exhausted?
      invariant shrank <==> Shrank(crashes, phase)
    {
      var proposal: Proposal<F> := *;
      ghost var before := phase;
      phase := phase + [proposal];
      PhaseGrows(crashes, f, before, proposal);
      match proposal {
        case Exhausted => break;
        case Skip =>
        case Mutated(g, shrinks) =>
          if crashes(g) {
            r := g;
            shrank := shrank || shrinks;
          }
      }
    }
  }

  lemma PhaseGrows<F>(crashes: F -> bool, f: F, phase: Phase<F>, proposal: Proposal<F>)
    ensures AfterPhase(crashes, f, phase + [proposal]) == Next(crashes, AfterPhase(crashes, f, phase), proposal)
    ensures Shrank(crashes, phase + [proposal]) <==>
            Shrank(crashes, phase) || (proposal.Mutated? && proposal.shrinks && crashes(proposal.func))
  {
    var longer := phase + [proposal];
    assert longer[..|phase|] == phase;
    assert longer[|phase|] == proposal;
    if Shrank(crashes, phase) {
      var i :| 0 <= i < |phase| && phase[i].Mutated? && phase[i].shrinks && crashes(phase[i].func);
      assert longer[i] == phase[i];
    }
  }

  /** All the phases in turn. */
  method RunPass<F(0)>(crashes: F -> bool, f: F) returns (r: F, shrank: bool, ghost pass: seq<Phase<F>>)
    requires crashes(f)
    ensures crashes(r) && r == AfterPass(crashes, f, pass) && CompletePass(pass)
    ensures shrank <==> PassShrank(crashes, pass)
  {
    r, shrank, pass := f, false, [];
    for i := 0 to PHASES
      invariant crashes(r) && r == AfterPass(crashes, f, pass)
      invariant |pass| == i && forall k :: 0 <= k < |pass| ==> Complete(pass[k])
      invariant shrank <==> PassShrank(crashes, pass)
    {
      ghost var before, phase := pass, [];
      var smaller;
      r, smaller, phase := RunPhase(crashes, r);
      pass := pass + [phase];
      assert pass[..i] == before && pass[i] == phase;
      PassGrows(crashes, before, phase);
      shrank := shrank || smaller;
    }
  }

  lemma PassGrows<F>(crashes: F -> bool, pass: seq<Phase<F>>, phase: Phase<F>)
    ensures PassShrank(crashes, pass + [phase]) <==> PassShrank(crashes, pass) || Shrank(crashes, phase)
  {
    var longer := pass + [phase];
    assert longer[|pass|] == phase;
    if PassShrank(crashes, pass) {
      var i :| 0 <= i < |pass| && Shrank(crashes, pass[i]);
      assert longer[i] == pass[i];
    }
  }

  /** Passes until one does not shrink the function. */
  method RunPasses<F(0)>(crashes: F -> bool, f: F) returns (r: F, ghost passes: seq<seq<Phase<F>>>)
    requires crashes(f)
    ensures crashes(r) && r == AfterPasses(crashes, f, passes) && CompleteRun(crashes, passes)
  {
    r, passes := f, [];
    var again := true;
    for i := 0 to PASSES
      invariant crashes(r) && r == AfterPasses(crashes, f, passes) && |passes| == i && again
      invariant forall k :: 0 <= k < |passes| ==> CompletePass(passes[k]) && PassShrank(crashes, passes[k])
    {
      ghost var before, pass := passes, [];
      r, again, pass := RunPass(crashes, r);
      passes := passes + [pass];
      assert passes[..i] == before && passes[i] == pass;
      if !again {
        break;
      }
    }
  }

  /** The reduction of a function that crashes ends with a function that crashes, so
      the last check never succeeds; one that does not crash is refused. */
  method Reduce<F(0)>(crashes: F -> bool, resolve: F -> F, strip: F -> F, func: F)
    returns (r: Option<F>, ghost passes: seq<seq<Phase<F>>>)
    ensures r.Some? <==> crashes(func)
    ensures r.Some? ==>
              && crashes(r.value) && CompleteRun(crashes, passes)
              && var start := Tried(crashes, strip, Tried(crashes, resolve, func));
                 r.value == Tried(crashes, resolve, AfterPasses(crashes, start, passes))
  {
    passes := [];
    if !crashes(func) {
      return None, passes;
    }
    var f := TryKeep(crashes, resolve, func);
    f := TryKeep(crashes, strip, f);
    f, passes := RunPasses(crashes, f);
    f := TryKeep(crashes, resolve, f);
    if !crashes(f) {
      assert false;
    }
    r := Some(f);
  }
}
