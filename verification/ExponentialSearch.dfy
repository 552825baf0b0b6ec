/** The search for the largest pool that can be allocated: double the step until an
    attempt fails, then halve it. */
module ExponentialSearch {
  import opened Powers

  newtype u32 = x: int | 0 <= x < 0x1_0000_0000

  /** Where the search is: `Growing(k)` after `k` successes, `Halving(j, f)` with a gap
      of two to the `j` and `f` the least value known to fail, `Last` with nothing left
      to try but a value known to fail. */
  datatype Phase = Growing(k: nat) | Halving(j: nat, f: nat) | Last | Finished

  /** Attempts succeed up to `t`. */
  function Bound(t: nat): nat {
    2 * Log2(t + 1) + 2
  }

  /** The state of the search in each phase, after so many attempts. */
  ghost predicate Searching(phase: Phase, growing: bool, last: int, next: int, t: nat, probes: nat) {
    0 <= last <= next <= 0xffff_ffff &&
    match phase
    case Growing(k) => growing && probes == k && last == Pow2(k) - 1 && next == 2 * Pow2(k) - 1 && last <= t
    case Halving(j, f) =>
      && !growing && probes + j + 2 <= Bound(t) && last <= t < f <= 0xffff_ffff
      && next - last == Pow2(j) && last + 2 * (next - last) == f
    case Last => !growing && probes + 1 <= Bound(t) && last == t && next == t + 1
    case Finished => !growing && probes <= Bound(t) && last == t && next == t
  }

  /** How far the next attempt is from this one. */
  function Diff(growing: bool, last: int, next: int): int {
    if growing then (next - last) * 2 else (next - last + 1) / 2
  }

  lemma Succeeds(phase: Phase, growing: bool, last: int, next: int, t: nat, probes: nat)
    requires t < 0xffff_ffff && Searching(phase, growing, last, next, t, probes) && phase != Finished && next <= t
    ensures 0 <= Diff(growing, last, next) <= next + Diff(growing, last, next) <= 0xffff_ffff
    ensures Searching(NextPhase(phase, next, true), growing, next, next + Diff(growing, last, next), t, probes + 1)
  {
    match phase
    case Growing(k) => GrowingFits(t, k);
    case Halving(j, _) => HalfGap(j);
    case Last =>
  }

  lemma Fails(phase: Phase, growing: bool, last: int, next: int, t: nat, probes: nat)
    requires t < 0xffff_ffff && Searching(phase, growing, last, next, t, probes) && phase != Finished && next > t
    ensures 0 <= Diff(false, last, next) <= next
    ensures Searching(NextPhase(phase, next, false), false, last, next - Diff(false, last, next), t, probes + 1)
  {
    match phase
    case Growing(k) =>
      GrowingFits(t, k);
      HalfGap(k);
    case Halving(j, _) => HalfGap(j);
    case Last =>
  }

  lemma HalfGap(j: nat)
    ensures (Pow2(j) + 1) / 2 == if j == 0 then 1 else Pow2(j - 1)
    ensures j > 0 ==> Pow2(j) == 2 * Pow2(j - 1)
  {
  }

  class ExponentialSearch {
    var growing: bool
    var last: u32
    var next: u32

    ghost predicate In(phase: Phase, t: nat, probes: nat)
      reads this
    {
      Searching(phase, growing, last as int, next as int, t, probes)
    }

    constructor ()
      ensures growing && last == 0 && next == 1
      ensures forall t :: In(Growing(0), t, 0)
    {
      growing, last, next := true, 0, 1;
    }

    function Next(): u32
      reads this
    {
      next
    }

    predicate Done()
      reads this
    {
      last == next
    }

    /** Takes note of an attempt with `next`. */
    method Record(success: bool, ghost t: nat, ghost phase: Phase, ghost probes: nat) returns (ghost phase': Phase)
      requires t < 0xffff_ffff && In(phase, t, probes) && phase != Finished && (success <==> next as int <= t)
      modifies this
      ensures In(phase', t, probes + 1)
      ensures phase'.Growing? ==> phase.Growing? && success
    {
      phase' := NextPhase(phase, next as int, success);
      if success {
        Succeeds(phase, growing, last as int, next as int, t, probes);
      } else {
        Fails(phase, growing, last as int, next as int, t, probes);
      }
      Ordered(phase, growing, last as int, next as int, t, probes);
      if !success {
        growing := false;
      }
      var diff := if growing then (next - last) * 2 else (next - last + 1) / 2;
      if success {
        last := next;
        next := next + diff;
      } else {
        next := next - diff;
      }
    }

    /** No attempt is left unless the search goes on, and it ends on `t`. */
    lemma PhaseFacts(phase: Phase, t: nat, probes: nat)
      requires In(phase, t, probes) && t < 0xffff_ffff
      ensures Done() <==> phase == Finished
      ensures probes <= Bound(t) && (phase != Finished ==> probes < Bound(t))
    {
      if phase.Growing? {
        GrowingFits(t, phase.k);
      }
    }
  }

  lemma Ordered(phase: Phase, growing: bool, last: int, next: int, t: nat, probes: nat)
    requires t < 0xffff_ffff && Searching(phase, growing, last, next, t, probes) && phase != Finished
    ensures last < next && next - last + 1 <= 0xffff_ffff
  {
    if phase.Growing? {
      GrowingFits(t, phase.k);
    }
  }

  lemma GrowingFits(t: nat, k: nat)
    requires t < 0xffff_ffff && Pow2(k) <= t + 1
    ensures k <= Log2(t + 1)
    ensures 2 * Pow2(k) - 1 <= t ==> 4 * Pow2(k) - 1 <= 0xffff_ffff
    ensures 2 * Pow2(k) - 1 > t ==> k == Log2(t + 1)
  {
    if Log2(t + 1) < k { Pow2Grows(Log2(t + 1), k); }
    if 2 * Pow2(k) - 1 > t { Log2Unique(t + 1, k); }
    SmallPowers();
    if 31 < k + 1 { Pow2Grows(31, k + 1); } else if k + 1 < 31 { Pow2Grows(k + 1, 31); }
  }

  ghost function NextPhase(phase: Phase, tried: nat, success: bool): Phase {
    match phase
    case Growing(k) => if success then Growing(k + 1) else if k == 0 then Finished else Halving(k - 1, tried)
    case Halving(j, f) =>
      if j > 0 then Halving(j - 1, if success then f else tried) else if success then Last else Finished
    case Last => Finished
    case Finished => Finished
  }

  /** The probing loop finds the largest size that succeeds, within the bound. */
  method ProbeEngineSize(t: nat) returns (size: u32, ghost probes: nat)
    requires t < 0xffff_ffff
    ensures size as int == t && probes <= 2 * Log2(t + 1) + 2
  {
    var search := new ExponentialSearch();
    probes := 0;
    ghost var phase := Growing(0);
    while !search.Done()
      invariant fresh(search) && search.In(phase, t, probes)
      decreases Bound(t) - probes
    {
      search.PhaseFacts(phase, t, probes);
      var success := search.Next() as int <= t;
      phase := search.Record(success, t, phase, probes);
      probes := probes + 1;
      search.PhaseFacts(phase, t, probes);
    }
    search.PhaseFacts(phase, t, probes);
    size := search.Next();
  }
}
