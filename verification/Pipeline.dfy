/** A function from nothing to its calls. */
module Pipeline {
  import opened Graphs
  import opened Dominators
  import opened Splicing
  import opened Ir
  import opened Regions
  import opened RegionBuilders
  import opened CfConstruct
  import opened Ssa
  import opened Typing
  import opened Population
  import opened BlockFilling
  import opened FunctionGenerator
  import opened Invocations
  import opened MergeInvariants
  import opened MergeBlocks
  import opened MergePhases

  lemma TwoBlocks(g: Cfg, exit: Block, dom: Table)
    requires Structured(g, exit) && dom == DominatorTable(g)
    ensures |dom.Keys| >= 2
  {
    var two := {g.entry, exit};
    assert |two| == 2 && two <= dom.Keys;
    CardinalityGrows(two, dom.Keys);
  }

  lemma CardinalityGrows(a: set<Block>, b: set<Block>)
    requires a <= b
    ensures |a| <= |b|
  {
    if a != {} {
      var x :| x in a;
      CardinalityGrows(a - {x}, b - {x});
    }
  }

  /** Calls change neither the types of conditions nor those of returned values. */
  lemma TypesSurvive(s: Code, s': Code, g: Cfg, exit: Block, results: seq<Type>)
    requires HasGraph(s, g) && exit in s.layout && Returns(s, g, exit, results) && CondsTyped(s) && KeepsTypes(s, s')
    requires HasGraph(s', g) && ValidSsa(s', g) && Unique(s', g.succ.Keys)
    ensures Returns(s', g, exit, results) && CondsTyped(s')
  {
    CondsKept(s, s');
    ReturnsHaveTypes(s, g, exit, results);
    ReturnsKept(s, s', exit, results);
    TypedReturns(s', g, exit, results);
  }

  /** How a flow graph came about: the first region, its graph, and the replacements. */
  datatype Built = Built(first: Region, graph: Cfg, steps: seq<Step>)

  /** The first region between entry and exit, with a region spliced in at every depth. */
  ghost predicate BuiltTo(built: Built, maxDepth: nat, g: Cfg) {
    && Nonempty(built.first) && Draws(built.first, built.graph)
    && |built.steps| == maxDepth && Chain(built.first, built.steps)
    && GrowsTo(Enclosed(0, built.graph, built.first.Last(), 1), built.steps, g)
  }

  /** Whatever the random choices, the finished function is valid SSA over a flow
      graph with one entry, one exit and only natural loops, grown in as many steps as the
      depth says; its entry takes the parameters of the signature. */
  method BuildFunction(maxDepth: nat, params: seq<Type>, config: seq<Type>, results: seq<Type>,
                       children: seq<(seq<Type>, seq<Type>)>)
    returns (f: Func, ghost g: Cfg, ghost exit: Block, ghost sites: seq<Site>, ghost refs: Defs, ghost built: Built)
    requires results != [] && I64 in Supply(params, config) && I32 in Supply(params, config)
    requires forall ty :: ty in results ==> ty in Supply(params, config)
    requires forall i, ty :: 0 <= i < |children| && ty in children[i].0 ==> ty in Supply(params, config)
    ensures HasGraph(f.State(), g) && Structured(g, exit)
    ensures ValidSsa(f.State(), g) && Unique(f.State(), g.succ.Keys) && Terminated(f.State())
    ensures Returns(f.State(), g, exit, results) && CondsTyped(f.State())
    ensures |sites| == |children| && CallsTyped(f.State(), children, sites)
    ensures Signed(f.blocks, g, params, refs) && BuiltTo(built, maxDepth, g)
  {
    f := new Func();
    ghost var first, R, steps;
    exit, first, R, steps := CfConstruct.CfConstruct(f, maxDepth);
    built := Built(first, R, steps);
    var dom, defs;
    ghost var logs;
    dom, defs, g, refs, logs := GenerateFunction(f, params, config, results, exit);
    TwoBlocks(g, exit, dom);
    ghost var s := f.State();
    var placed;
    placed, sites := InsertInvocations(f, children, dom, defs, g, Supply(params, config));
    TypesSurvive(s, f.State(), g, exit, results);
    SignedKept(s.blocks, f.blocks, g, params, refs);
  }

  /** A generated function is fit for the reducer's merges. */
  lemma GeneratedIsProper(s: Code, g: Cfg, exit: Block) returns (home: Value -> Site)
    requires HasGraph(s, g) && Structured(g, exit) && ValidSsa(s, g) && Unique(s, g.succ.Keys)
    ensures Proper(Aliased(s, []), g, home)
  {
    home :| UniqueBy(s, g.succ.Keys, home);
    GeneratedIsSound(s, g, exit, home);
    assert View(s, []) == s;
  }

  lemma GeneratedIsSound(s: Code, g: Cfg, exit: Block, home: Value -> Site)
    requires HasGraph(s, g) && Structured(g, exit) && ValidSsa(s, g) && UniqueBy(s, g.succ.Keys, home)
    ensures Sound(s, g, home)
  {
    UniqueHomed(s, g, home);
    forall b | b in s.layout
      ensures g.Reachable(b)
    {
      assert b in g.succ;
    }
  }

  lemma UniqueHomed(s: Code, g: Cfg, home: Value -> Site)
    requires HasGraph(s, g) && UniqueBy(s, g.succ.Keys, home)
    ensures Homed(s, home)
  {
    forall b | b in s.layout
      ensures b in s.blocks && HomedBlock(s.blocks[b], b, home)
    {
      assert b in g.succ.Keys;
    }
  }

  /** Generating a function and merging its blocks as long as some check passes: the
      outcome behaves like the generated function. */
  method GenerateAndMerge(maxDepth: nat, params: seq<Type>, config: seq<Type>, results: seq<Type>,
                          children: seq<(seq<Type>, seq<Type>)>, crashes: Aliased -> bool, limit: nat)
    returns (f: Func, merged: Aliased)
    requires results != [] && I64 in Supply(params, config) && I32 in Supply(params, config)
    requires forall ty :: ty in results ==> ty in Supply(params, config)
    requires forall i, ty :: 0 <= i < |children| && ty in children[i].0 ==> ty in Supply(params, config)
    ensures SameBehaviour(f.State(), View(merged.code, merged.log))
  {
    ghost var g, exit, sites, refs, built;
    f, g, exit, sites, refs, built := BuildFunction(maxDepth, params, config, results, children);
    merged := Aliased(f.State(), []);
    BehaviourReflexive(f.State());
    if crashes(merged) {
      ghost var home := GeneratedIsProper(f.State(), g, exit);
      var cursor;
      ghost var g', home', tries;
      merged, cursor, g', home', tries := MergePhase(merged, crashes, limit, g, home);
    }
  }
}
