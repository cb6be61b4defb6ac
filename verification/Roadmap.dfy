/** Distributing the effort estimate over the roadmap's phases. */
module Roadmap {
  import opened Text
  import opened Collections
  import opened Effort
  import opened EffortRounding

  datatype Phase = Phase(name: string, moduleNames: Option<seq<string>>, weeks: Option<Range>)

  // ---------- who builds what ----------

  /** Only a line that carries a module name can be placed in a phase. */
  predicate IsAssignable(l: Line) { l.moduleName.Some? && l.moduleName.value != "" }

  function FoldedNames(names: seq<string>): (r: set<string>)
    ensures forall n :: n in r <==> exists i :: 0 <= i < |names| && Fold(names[i]) == n
  {
    hide Fold;
    set i | 0 <= i < |names| :: Fold(names[i])
  }

  predicate Builds(p: Phase, l: Line) {
    IsAssignable(l) && Fold(l.moduleName.value) in FoldedNames(p.moduleNames.GetOr([]))
  }

  predicate IsClaimed(l: Line, phases: seq<Phase>) {
    exists i :: 0 <= i < |phases| && Builds(phases[i], l)
  }

  // ---------- the sums the allocation works with ----------

  /** The weeks of the lines this phase builds. */
  function Own(lines: seq<Line>, p: Phase, w: Line -> real): real {
    if lines == [] then 0.0
    else Own(lines[..|lines| - 1], p, w) + (if Builds(p, lines[|lines| - 1]) then w(lines[|lines| - 1]) else 0.0)
  }

  /** The weeks of the lines no phase builds. */
  function Pool(lines: seq<Line>, phases: seq<Phase>, w: Line -> real): real {
    if lines == [] then 0.0
    else Pool(lines[..|lines| - 1], phases, w)
         + (if IsClaimed(lines[|lines| - 1], phases) then 0.0 else w(lines[|lines| - 1]))
  }

  function PhaseWeight(lines: seq<Line>, p: Phase): real { Own(lines, p, MaxOf) + 1.0 }

  function PhaseWeights(lines: seq<Line>, phases: seq<Phase>): (r: seq<real>)
    ensures |r| == |phases| && forall i :: 0 <= i < |phases| ==> r[i] == PhaseWeight(lines, phases[i])
  {
    seq(|phases|, i requires 0 <= i < |phases| => PhaseWeight(lines, phases[i]))
  }

  /** What the shares are taken of; a zero total falls back to the number of phases. */
  function Divisor(weights: seq<real>): real {
    if Total(weights) == 0.0 then |weights| as real else Total(weights)
  }

  /** The weeks of phase `i`, before rounding. */
  function Allocated(lines: seq<Line>, phases: seq<Phase>, w: Line -> real, i: nat): real
    requires i < |phases|
  {
    var weights := PhaseWeights(lines, phases);
    DivisorNonZero(weights);
    Own(lines, phases[i], w) + weights[i] / Divisor(weights) * Pool(lines, phases, w)
  }

  lemma DivisorNonZero(weights: seq<real>)
    requires weights != []
    ensures Divisor(weights) != 0.0
  {
  }

  function PlannedPhase(lines: seq<Line>, phases: seq<Phase>, i: nat): Phase
    requires i < |phases|
  {
    phases[i].(weeks := Some(Range(RoundHalf(Allocated(lines, phases, MinOf, i)), RoundHalf(Allocated(lines, phases, MaxOf, i)))))
  }

  function PhaseEffort(lines: seq<Line>, phases: seq<Phase>): (r: seq<Phase>)
    ensures |r| == |phases| && forall i :: 0 <= i < |phases| ==> r[i] == PlannedPhase(lines, phases, i)
  {
    seq(|phases|, i requires 0 <= i < |phases| => PlannedPhase(lines, phases, i))
  }

  // ---------- the distribution as it runs ----------

  method ClaimLines(lines: seq<Line>, p: Phase, claimedBefore: set<string>) returns (own: Range, claimed: set<string>)
    ensures own == Range(Own(lines, p, MinOf), Own(lines, p, MaxOf))
    ensures forall m :: m in claimed <==>
              m in claimedBefore || exists k :: 0 <= k < |lines| && Builds(p, lines[k]) && lines[k].moduleName == Some(m)
  {
    hide Fold;
    var names := FoldedNames(p.moduleNames.GetOr([]));
    var min, max := 0.0, 0.0;
    claimed := claimedBefore;
    for k := 0 to |lines|
      invariant min == Own(lines[..k], p, MinOf) && max == Own(lines[..k], p, MaxOf)
      invariant forall m :: m in claimed <==>
        m in claimedBefore || exists j :: 0 <= j < k && Builds(p, lines[j]) && lines[j].moduleName == Some(m)
    {
      assert lines[..k + 1][..k] == lines[..k];
      if !IsAssignable(lines[k]) { continue; }
      if Fold(lines[k].moduleName.value) in names {
        min := min + lines[k].weeks.min;
        max := max + lines[k].weeks.max;
        claimed := claimed + {lines[k].moduleName.value};
      }
    }
    assert lines[..|lines|] == lines;
    own := Range(min, max);
  }

  /** The claimed modules, as the raw names of the lines. */
  predicate IsClaimedName(m: string, lines: seq<Line>, phases: seq<Phase>) {
    exists k :: 0 <= k < |lines| && lines[k].moduleName == Some(m) && IsClaimed(lines[k], phases)
  }

  lemma ClaimedByName(l: Line, lines: seq<Line>, phases: seq<Phase>)
    requires l in lines
    ensures IsClaimed(l, phases) <==> l.moduleName.Some? && l.moduleName.value != "" && IsClaimedName(l.moduleName.value, lines, phases)
  {
    hide Fold;
    if l.moduleName.Some? && IsClaimedName(l.moduleName.value, lines, phases) {
      var k :| 0 <= k < |lines| && lines[k].moduleName == l.moduleName && IsClaimed(lines[k], phases);
      var i :| 0 <= i < |phases| && Builds(phases[i], lines[k]);
      assert Builds(phases[i], l);
    }
  }

  method BuildPhaseEffort(phases: seq<Phase>, lines: seq<Line>) returns (r: seq<Phase>)
    ensures r == PhaseEffort(lines, phases)
  {
    hide Builds, Own, RoundHalf, IsClaimed, Total;
    if |phases| == 0 {
      return phases;
    }
    var claimed: set<string> := {};
    var perPhase: seq<Range> := [];
    assert phases[..0] == [];
    NobodyClaims(lines);
    for i := 0 to |phases|
      invariant |perPhase| == i
      invariant forall k :: 0 <= k < i ==> perPhase[k] == Range(Own(lines, phases[k], MinOf), Own(lines, phases[k], MaxOf))
      invariant forall m :: m in claimed <==> IsClaimedName(m, lines, phases[..i])
    {
      ghost var before := claimed;
      var own;
      own, claimed := ClaimLines(lines, phases[i], claimed);
      perPhase := perPhase + [own];
      forall m ensures m in claimed <==> IsClaimedName(m, lines, phases[..i + 1]) {
        assert phases[..i + 1] == phases[..i] + [phases[i]];
        ClaimedStep(m, lines, phases[..i], phases[i]);
      }
    }
    assert phases[..|phases|] == phases;
    var fixedMin, fixedMax := 0.0, 0.0;
    for k := 0 to |lines|
      invariant fixedMin == Pool(lines[..k], phases, MinOf) && fixedMax == Pool(lines[..k], phases, MaxOf)
    {
      assert lines[..k + 1][..k] == lines[..k];
      ClaimedByName(lines[k], lines, phases);
      var m := lines[k].moduleName;
      if m.Some? && m.value != "" && m.value in claimed { continue; }
      fixedMin := fixedMin + lines[k].weeks.min;
      fixedMax := fixedMax + lines[k].weeks.max;
    }
    assert lines[..|lines|] == lines;
    var weights := seq(|phases|, i requires 0 <= i < |phases| => perPhase[i].max + 1.0);
    assert weights == PhaseWeights(lines, phases);
    DivisorNonZero(weights);
    var totalWeight := Divisor(weights);
    r := [];
    for i := 0 to |phases|
      invariant |r| == i && forall k :: 0 <= k < i ==> r[k] == PlannedPhase(lines, phases, k)
    {
      var share := weights[i] / totalWeight;
      assert perPhase[i].min + share * fixedMin == Allocated(lines, phases, MinOf, i);
      assert perPhase[i].max + share * fixedMax == Allocated(lines, phases, MaxOf, i);
      r := r + [phases[i].(weeks := Some(Range(
        RoundHalf(perPhase[i].min + share * fixedMin),
        RoundHalf(perPhase[i].max + share * fixedMax))))];
    }
  }

  lemma NobodyClaims(lines: seq<Line>)
    ensures forall m :: !IsClaimedName(m, lines, [])
  {
  }

  lemma ClaimedStep(m: string, lines: seq<Line>, phases: seq<Phase>, p: Phase)
    ensures IsClaimedName(m, lines, phases + [p]) <==>
              IsClaimedName(m, lines, phases)
              || exists k :: 0 <= k < |lines| && Builds(p, lines[k]) && lines[k].moduleName == Some(m)
  {
    hide Builds;
    var more := phases + [p];
    forall k | 0 <= k < |lines|
      ensures IsClaimed(lines[k], more) <==> IsClaimed(lines[k], phases) || Builds(p, lines[k])
    {
      if IsClaimed(lines[k], phases) {
        var i :| 0 <= i < |phases| && Builds(phases[i], lines[k]);
        assert Builds(more[i], lines[k]);
      }
      if Builds(p, lines[k]) {
        assert Builds(more[|phases|], lines[k]);
      }
    }
  }

  // ---------- nothing is lost, nothing is invented ----------

  /** How many phases build this line. */
  function Claims(l: Line, phases: seq<Phase>): nat {
    if phases == [] then 0
    else Claims(l, phases[..|phases| - 1]) + (if Builds(phases[|phases| - 1], l) then 1 else 0)
  }

  lemma {:induction false} ClaimedIffCounted(l: Line, phases: seq<Phase>)
    ensures IsClaimed(l, phases) <==> Claims(l, phases) > 0
  {
    hide Builds;
    if phases != [] {
      var front := phases[..|phases| - 1];
      ClaimedIffCounted(l, front);
      if IsClaimed(l, front) {
        var i :| 0 <= i < |front| && Builds(front[i], l);
        assert Builds(phases[i], l);
      }
      if IsClaimed(l, phases) {
        var i :| 0 <= i < |phases| && Builds(phases[i], l);
        if i < |front| { assert Builds(front[i], l); }
      }
    }
  }

  /** Each line counted once for every phase that builds it, and once if none does. */
  function Counted(lines: seq<Line>, phases: seq<Phase>, w: Line -> real): real {
    if lines == [] then 0.0
    else
      var l := lines[|lines| - 1];
      Counted(lines[..|lines| - 1], phases, w) + AtLeastOnce(Claims(l, phases)) * w(l)
  }

  function AtLeastOnce(k: nat): real { if k == 0 then 1.0 else k as real }

  /** The weeks the phases build themselves. */
  function OwnTotal(lines: seq<Line>, phases: seq<Phase>, w: Line -> real): real {
    if phases == [] then 0.0
    else OwnTotal(lines, phases[..|phases| - 1], w) + Own(lines, phases[|phases| - 1], w)
  }

  lemma {:induction false} OwnTotalOfNone(phases: seq<Phase>, w: Line -> real)
    ensures OwnTotal([], phases, w) == 0.0
  {
    if phases != [] {
      OwnTotalOfNone(phases[..|phases| - 1], w);
    }
  }

  /** One more line adds its weeks once for every phase that builds it. */
  lemma {:induction false} OwnTotalGrows(lines: seq<Line>, l: Line, phases: seq<Phase>, w: Line -> real)
    ensures OwnTotal(lines + [l], phases, w) == OwnTotal(lines, phases, w) + Claims(l, phases) as real * w(l)
  {
    hide Builds;
    if phases != [] {
      var front, p := phases[..|phases| - 1], phases[|phases| - 1];
      OwnTotalGrows(lines, l, front, w);
      assert (lines + [l])[..|lines|] == lines;
      OneMore(Claims(l, front), w(l));
    }
  }

  lemma OneMore(k: nat, x: real)
    ensures (k + 1) as real * x == k as real * x + x
  {
  }

  /** Double counting: by phase, or by line. */
  lemma {:induction false} OwnAndPool(lines: seq<Line>, phases: seq<Phase>, w: Line -> real)
    ensures OwnTotal(lines, phases, w) + Pool(lines, phases, w) == Counted(lines, phases, w)
  {
    hide IsClaimed, Claims, Own;
    if lines == [] {
      OwnTotalOfNone(phases, w);
    } else {
      var front, l := lines[..|lines| - 1], lines[|lines| - 1];
      OwnAndPool(front, phases, w);
      OwnTotalGrows(front, l, phases, w);
      assert front + [l] == lines;
      ClaimedIffCounted(l, phases);
    }
  }

  /** The weeks of the first `n` phases, before rounding. */
  function AllocatedTotal(lines: seq<Line>, phases: seq<Phase>, w: Line -> real, n: nat): real
    requires n <= |phases|
  {
    if n == 0 then 0.0 else AllocatedTotal(lines, phases, w, n - 1) + Allocated(lines, phases, w, n - 1)
  }

  lemma ShareAdds(a: real, b: real, divisor: real, pool: real)
    requires divisor != 0.0
    ensures (a + b) / divisor * pool == a / divisor * pool + b / divisor * pool
  {
    assert (a + b) / divisor == a / divisor + b / divisor;
  }

  lemma {:induction false} SharesAdd(lines: seq<Line>, phases: seq<Phase>, w: Line -> real, n: nat)
    requires n <= |phases| && phases != []
    requires Divisor(PhaseWeights(lines, phases)) != 0.0
    ensures AllocatedTotal(lines, phases, w, n) ==
              OwnTotal(lines, phases[..n], w)
              + Total(PhaseWeights(lines, phases)[..n]) / Divisor(PhaseWeights(lines, phases)) * Pool(lines, phases, w)
  {
    hide Divisor, Own, Pool, PhaseWeight;
    if n > 0 {
      SharesAdd(lines, phases, w, n - 1);
      var weights := PhaseWeights(lines, phases);
      assert phases[..n][..n - 1] == phases[..n - 1] && weights[..n][..n - 1] == weights[..n - 1];
      ShareAdds(Total(weights[..n - 1]), weights[n - 1], Divisor(weights), Pool(lines, phases, w));
    }
  }

  /** Before rounding the phases hold every line's weeks exactly: a line `k` phases build is
      there `k` times, a line nobody builds once, through the shared pool. Only a zero total
      weight, which takes negative weeks, loses the pool. */
  lemma AllocationIsExact(lines: seq<Line>, phases: seq<Phase>, w: Line -> real)
    requires phases != []
    ensures AllocatedTotal(lines, phases, w, |phases|) == Counted(lines, phases, w)
            <==> Total(PhaseWeights(lines, phases)) != 0.0 || Pool(lines, phases, w) == 0.0
  {
    hide Own, Pool, PhaseWeight, Total, OwnTotal, Counted;
    var weights, pool := PhaseWeights(lines, phases), Pool(lines, phases, w);
    SharesAdd(lines, phases, w, |phases|);
    assert phases[..|phases|] == phases && weights[..|phases|] == weights;
    OwnAndPool(lines, phases, w);
    if Total(weights) != 0.0 {
      assert Total(weights) / Divisor(weights) == 1.0;
    } else {
      assert Total(weights) / Divisor(weights) == 0.0;
      assert 0.0 * pool == 0.0;
    }
  }

  /** No two phases build the same line. */
  predicate IsDisjoint(lines: seq<Line>, phases: seq<Phase>) {
    forall i :: 0 <= i < |lines| ==> Claims(lines[i], phases) <= 1
  }

  lemma {:induction false} CountedOnce(lines: seq<Line>, phases: seq<Phase>, w: Line -> real)
    requires IsDisjoint(lines, phases)
    ensures Counted(lines, phases, w) == Sum(lines, w)
  {
    hide Claims;
    if lines != [] {
      var front := lines[..|lines| - 1];
      CountedOnce(front, phases, w);
      assert Weights(lines, w)[..|front|] == Weights(front, w);
      assert AtLeastOnce(Claims(lines[|lines| - 1], phases)) == 1.0;
    }
  }

  /** With non-negative weeks every phase weighs at least one. */
  lemma {:induction false} OwnNonNegative(lines: seq<Line>, p: Phase, w: Line -> real)
    requires AreRanges(lines) && (w == MinOf || w == MaxOf)
    ensures Own(lines, p, w) >= 0.0
  {
    hide Builds;
    if lines != [] {
      OwnNonNegative(lines[..|lines| - 1], p, w);
    }
  }

  lemma {:induction false} PoolNonNegative(lines: seq<Line>, phases: seq<Phase>, w: Line -> real)
    requires AreRanges(lines) && (w == MinOf || w == MaxOf)
    ensures Pool(lines, phases, w) >= 0.0
  {
    hide IsClaimed;
    if lines != [] {
      PoolNonNegative(lines[..|lines| - 1], phases, w);
    }
  }

  lemma {:induction false} TotalAtLeast(xs: seq<real>)
    requires forall i :: 0 <= i < |xs| ==> xs[i] >= 1.0
    ensures Total(xs) >= |xs| as real
  {
    if xs != [] {
      TotalAtLeast(xs[..|xs| - 1]);
    }
  }

  lemma WeightsArePositive(lines: seq<Line>, phases: seq<Phase>)
    requires AreRanges(lines)
    ensures forall i :: 0 <= i < |phases| ==> PhaseWeights(lines, phases)[i] >= 1.0
    ensures Total(PhaseWeights(lines, phases)) >= |phases| as real
  {
    hide Own;
    forall i | 0 <= i < |phases| ensures PhaseWeights(lines, phases)[i] >= 1.0 {
      OwnNonNegative(lines, phases[i], MaxOf);
    }
    TotalAtLeast(PhaseWeights(lines, phases));
  }

  // ---------- after rounding ----------

  /** The planned weeks of the first `n` phases. */
  function Planned(phases: seq<Phase>, n: nat): Range
    requires n <= |phases| && forall i :: 0 <= i < n ==> phases[i].weeks.Some?
  {
    if n == 0 then Range(0.0, 0.0)
    else
      var before, p := Planned(phases, n - 1), phases[n - 1].weeks.value;
      Range(before.min + p.min, before.max + p.max)
  }

  lemma {:induction false} PlannedNear(lines: seq<Line>, phases: seq<Phase>, n: nat)
    requires n <= |phases|
    ensures var planned := Planned(PhaseEffort(lines, phases), n);
            && IsWithin(planned.min, AllocatedTotal(lines, phases, MinOf, n), n as real * 0.25)
            && IsWithin(planned.max, AllocatedTotal(lines, phases, MaxOf, n), n as real * 0.25)
  {
    hide Allocated, RoundHalf;
    if n > 0 {
      PlannedNear(lines, phases, n - 1);
      RoundHalfNear(Allocated(lines, phases, MinOf, n - 1));
      RoundHalfNear(Allocated(lines, phases, MaxOf, n - 1));
      OneMore(n - 1, 0.25);
    }
  }

  /** Conservation: when no module sits in two phases, the phases add up to the estimate's
      lines within a quarter of a week each. */
  lemma PhasesConserveEffort(lines: seq<Line>, phases: seq<Phase>)
    requires phases != [] && AreRanges(lines) && IsDisjoint(lines, phases)
    ensures var planned, slack := Planned(PhaseEffort(lines, phases), |phases|), |phases| as real * 0.25;
            IsWithin(planned.min, Sum(lines, MinOf), slack) && IsWithin(planned.max, Sum(lines, MaxOf), slack)
  {
    hide Planned, IsWithin, AllocatedTotal, Total, Counted, IsDisjoint;
    WeightsArePositive(lines, phases);
    PlannedNear(lines, phases, |phases|);
    AllocationIsExact(lines, phases, MinOf);
    AllocationIsExact(lines, phases, MaxOf);
    CountedOnce(lines, phases, MinOf);
    CountedOnce(lines, phases, MaxOf);
  }

  lemma {:induction false} OwnOrdered(lines: seq<Line>, p: Phase)
    requires AreRanges(lines)
    ensures Own(lines, p, MinOf) <= Own(lines, p, MaxOf)
  {
    hide Builds;
    if lines != [] {
      OwnOrdered(lines[..|lines| - 1], p);
    }
  }

  lemma {:induction false} PoolOrdered(lines: seq<Line>, phases: seq<Phase>)
    requires AreRanges(lines)
    ensures Pool(lines, phases, MinOf) <= Pool(lines, phases, MaxOf)
  {
    hide IsClaimed;
    if lines != [] {
      PoolOrdered(lines[..|lines| - 1], phases);
    }
  }

  lemma ShareOrdered(share: real, a: real, b: real)
    requires share >= 0.0 && 0.0 <= a <= b
    ensures 0.0 <= share * a <= share * b
  {
  }

  lemma ShareOfPart(part: real, whole: real)
    requires part >= 0.0 && whole > 0.0
    ensures part / whole >= 0.0
  {
  }

  /** Every phase runs from a smaller to a larger non-negative number of half weeks. */
  lemma PhasesAreOrdered(lines: seq<Line>, phases: seq<Phase>, i: nat)
    requires i < |phases| && AreRanges(lines)
    ensures var weeks := PhaseEffort(lines, phases)[i].weeks;
            weeks.Some? && IsRange(weeks.value) && IsHalfWeeks(weeks.value.min) && IsHalfWeeks(weeks.value.max)
  {
    hide Own, Pool, RoundHalf, IsHalfWeeks, Total, PhaseWeight, Builds;
    var weights := PhaseWeights(lines, phases);
    WeightsArePositive(lines, phases);
    OwnOrdered(lines, phases[i]);
    OwnNonNegative(lines, phases[i], MinOf);
    PoolOrdered(lines, phases);
    PoolNonNegative(lines, phases, MinOf);
    ShareOfPart(weights[i], Divisor(weights));
    ShareOrdered(weights[i] / Divisor(weights), Pool(lines, phases, MinOf), Pool(lines, phases, MaxOf));
    RoundHalfNear(Allocated(lines, phases, MinOf, i));
    RoundHalfNear(Allocated(lines, phases, MaxOf, i));
    RoundHalfMonotone(Allocated(lines, phases, MinOf, i), Allocated(lines, phases, MaxOf, i));
  }

  /** From the requirements to the plan: the phases of an estimate add up to its totals. */
  lemma PlanMatchesEstimate(services: seq<Service>, ds: seq<Decision>, model: EffortModel, phases: seq<Phase>)
    requires phases != [] && IsModel(model)
    requires IsDisjoint(EffortEstimate(services, ds, model).lineItems, phases)
    ensures var e := EffortEstimate(services, ds, model);
            var planned, slack := Planned(PhaseEffort(e.lineItems, phases), |phases|), |phases| as real * 0.25;
            IsWithin(planned.min, e.weeks.min, slack) && IsWithin(planned.max, e.weeks.max, slack)
  {
    hide EffortEstimate, Planned, IsWithin, IsDisjoint;
    EstimateAddsUp(services, ds, model);
    EstimateIsOrdered(services, ds, model);
    PhasesConserveEffort(EffortEstimate(services, ds, model).lineItems, phases);
  }
}
