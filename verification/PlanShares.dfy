/** The weeks of each phase of a plan, written out. */
module PlanShares {
  import opened Text
  import opened Collections
  import opened Effort
  import opened EffortRounding
  import opened Roadmap

  /** The phase lists the module of the line, up to case and white space around the name. */
  predicate IsFor(p: Phase, l: Line) {
    && l.moduleName.Some? && l.moduleName.value != "" && p.moduleNames.Some?
    && exists k :: 0 <= k < |p.moduleNames.value| && Lower(Trim(p.moduleNames.value[k])) == Lower(Trim(l.moduleName.value))
  }

  predicate IsForNone(phases: seq<Phase>, l: Line) {
    forall i :: 0 <= i < |phases| ==> !IsFor(phases[i], l)
  }

  lemma BuildsIff(p: Phase, l: Line)
    ensures Builds(p, l) <==> IsFor(p, l)
  {
    hide Lower, Trim;
  }

  /** The lines of a phase, and those of no phase. */
  function LinesFor(lines: seq<Line>, p: Phase): seq<Line> { Kept(lines, (l: Line) => IsFor(p, l)) }

  function LooseLines(lines: seq<Line>, phases: seq<Phase>): seq<Line> { Kept(lines, (l: Line) => IsForNone(phases, l)) }

  lemma SumSnoc(lines: seq<Line>, l: Line, w: Line -> real)
    ensures Sum(lines + [l], w) == Sum(lines, w) + w(l)
  {
    SumAppend(lines, [l], w);
    var one: seq<real> := [w(l)];
    assert Weights([l], w) == one && one[..0] == [];
    assert Total(one) == Total([]) + w(l);
  }

  lemma NoSum(w: Line -> real)
    ensures Sum([], w) == 0.0
  {
  }

  lemma {:induction false} OwnIsSum(lines: seq<Line>, p: Phase, w: Line -> real)
    ensures Own(lines, p, w) == Sum(LinesFor(lines, p), w)
  {
    hide Builds, IsFor, Sum;
    NoSum(w);
    if lines != [] {
      var front, last := lines[..|lines| - 1], lines[|lines| - 1];
      OwnIsSum(front, p, w);
      BuildsIff(p, last);
      KeptSnoc(front, last, (l: Line) => IsFor(p, l));
      SumSnoc(LinesFor(front, p), last, w);
      assert lines == front + [last] && LinesFor(front, p) + [] == LinesFor(front, p);
    }
  }

  lemma ClaimedIff(l: Line, phases: seq<Phase>)
    ensures IsClaimed(l, phases) <==> !IsForNone(phases, l)
  {
    hide Builds, IsFor;
    forall i | 0 <= i < |phases| ensures Builds(phases[i], l) <==> IsFor(phases[i], l) {
      BuildsIff(phases[i], l);
    }
  }

  lemma {:induction false} PoolIsSum(lines: seq<Line>, phases: seq<Phase>, w: Line -> real)
    ensures Pool(lines, phases, w) == Sum(LooseLines(lines, phases), w)
  {
    hide IsClaimed, IsForNone, Sum;
    NoSum(w);
    if lines != [] {
      var front, last := lines[..|lines| - 1], lines[|lines| - 1];
      PoolIsSum(front, phases, w);
      ClaimedIff(last, phases);
      KeptSnoc(front, last, (l: Line) => IsForNone(phases, l));
      SumSnoc(LooseLines(front, phases), last, w);
      assert lines == front + [last] && LooseLines(front, phases) + [] == LooseLines(front, phases);
    }
  }

  /** A phase weighs the larger figure of its own lines, and one. */
  function Weight(lines: seq<Line>, p: Phase): real { 1.0 + Sum(LinesFor(lines, p), MaxOf) }

  function WeightSum(lines: seq<Line>, phases: seq<Phase>): real {
    if phases == [] then 0.0 else Weight(lines, phases[0]) + WeightSum(lines, phases[1..])
  }

  lemma {:induction false} WeightsAre(lines: seq<Line>, phases: seq<Phase>)
    ensures Total(PhaseWeights(lines, phases)) == WeightSum(lines, phases)
  {
    hide Weight, PhaseWeight;
    if phases == [] {
    } else {
      WeightsAre(lines, phases[1..]);
      WeightIs(lines, phases[0]);
      var first: seq<real> := [PhaseWeight(lines, phases[0])];
      TotalAppend(first, PhaseWeights(lines, phases[1..]));
      assert PhaseWeights(lines, phases) == first + PhaseWeights(lines, phases[1..]);
      assert first[..0] == [];
    }
  }

  lemma WeightIs(lines: seq<Line>, p: Phase)
    ensures PhaseWeight(lines, p) == Weight(lines, p)
  {
    OwnIsSum(lines, p, MaxOf);
  }

  /** The part of what no phase claims that goes to a phase; should the weights cancel out, they are taken
      for the number of phases. */
  function ShareOf(lines: seq<Line>, phases: seq<Phase>, i: nat): real
    requires i < |phases|
  {
    Weight(lines, phases[i]) / (if WeightSum(lines, phases) == 0.0 then |phases| as real else WeightSum(lines, phases))
  }

  /** Weeks to the nearest half. */
  function NearestHalf(x: real): real { (2.0 * x + 0.5).Floor as real / 2.0 }

  lemma AllocatedIs(lines: seq<Line>, phases: seq<Phase>, w: Line -> real, i: nat)
    requires i < |phases|
    ensures Allocated(lines, phases, w, i) ==
              Sum(LinesFor(lines, phases[i]), w) + ShareOf(lines, phases, i) * Sum(LooseLines(lines, phases), w)
  {
    hide LinesFor, LooseLines, Sum, Total, Own, Pool, Weight, PhaseWeight, WeightSum;
    OwnIsSum(lines, phases[i], w);
    PoolIsSum(lines, phases, w);
    WeightIs(lines, phases[i]);
    WeightsAre(lines, phases);
    assert ShareOf(lines, phases, i) == PhaseWeights(lines, phases)[i] / Divisor(PhaseWeights(lines, phases));
  }

  /** The weeks a phase should have. */
  function WeeksOf(lines: seq<Line>, phases: seq<Phase>, w: Line -> real, i: nat): real
    requires i < |phases|
  {
    NearestHalf(Sum(LinesFor(lines, phases[i]), w) + ShareOf(lines, phases, i) * Sum(LooseLines(lines, phases), w))
  }

  lemma WeeksAre(lines: seq<Line>, phases: seq<Phase>, w: Line -> real, i: nat)
    requires i < |phases|
    ensures RoundHalf(Allocated(lines, phases, w, i)) == WeeksOf(lines, phases, w, i)
  {
    hide LinesFor, LooseLines, Sum, Allocated, ShareOf, RoundHalf, NearestHalf;
    AllocatedIs(lines, phases, w, i);
    RoundIsNearest(Allocated(lines, phases, w, i));
  }

  /** A phase gets the weeks of its own lines and its share of the rest, to the nearest half week; nothing else
      of it changes. */
  lemma PlanIsWrittenOut(lines: seq<Line>, phases: seq<Phase>, i: nat)
    requires i < |phases|
    ensures var planned := PhaseEffort(lines, phases);
            && |planned| == |phases|
            && planned[i].name == phases[i].name && planned[i].moduleNames == phases[i].moduleNames
            && planned[i].weeks == Some(Range(WeeksOf(lines, phases, MinOf, i), WeeksOf(lines, phases, MaxOf, i)))
  {
    hide Allocated, WeeksOf, RoundHalf, PhaseEffort;
    WeeksAre(lines, phases, MinOf, i);
    WeeksAre(lines, phases, MaxOf, i);
  }

  lemma RoundIsNearest(x: real)
    ensures RoundHalf(x) == NearestHalf(x)
  {
    assert x * 2.0 == 2.0 * x;
  }
}
