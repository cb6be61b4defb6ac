/** Rounding to half weeks: what it costs, and what it keeps. */
module EffortRounding {
  import opened Collections
  import opened Effort

  // ---------- one figure ----------

  lemma RoundHalfNear(n: real)
    ensures IsHalfWeeks(RoundHalf(n)) && IsWithin(RoundHalf(n), n, 0.25)
    ensures n >= 0.0 ==> RoundHalf(n) >= 0.0
  {
    var k := (n * 2.0 + 0.5).Floor;
    assert RoundHalf(n) * 2.0 == k as real;
  }

  lemma RoundHalfMonotone(a: real, b: real)
    requires a <= b
    ensures RoundHalf(a) <= RoundHalf(b)
  {
    assert (a * 2.0 + 0.5).Floor <= (b * 2.0 + 0.5).Floor;
  }

  lemma RoundHalfFixed(n: real)
    requires IsHalfWeeks(n)
    ensures RoundHalf(n) == n
  {
    assert (n * 2.0 + 0.5).Floor == (n * 2.0).Floor;
  }

  // ---------- sums ----------

  lemma HalfWeeksAdd(a: real, b: real)
    requires IsHalfWeeks(a) && IsHalfWeeks(b)
    ensures IsHalfWeeks(a + b)
  {
    var j, k := (a * 2.0).Floor, (b * 2.0).Floor;
    assert (a + b) * 2.0 == (j + k) as real;
  }

  lemma {:induction false} TotalOfHalfWeeks(xs: seq<real>)
    requires forall i :: 0 <= i < |xs| ==> IsHalfWeeks(xs[i])
    ensures IsHalfWeeks(Total(xs))
  {
    hide IsHalfWeeks;
    if xs == [] {
      ZeroIsHalfWeeks();
    } else {
      TotalOfHalfWeeks(xs[..|xs| - 1]);
      HalfWeeksAdd(Total(xs[..|xs| - 1]), xs[|xs| - 1]);
    }
  }

  lemma ZeroIsHalfWeeks()
    ensures IsHalfWeeks(0.0)
  {
  }

  lemma {:induction false} TotalWithin(xs: seq<real>, ys: seq<real>, slack: real)
    requires |xs| == |ys| && forall i :: 0 <= i < |xs| ==> IsWithin(xs[i], ys[i], slack)
    ensures IsWithin(Total(xs), Total(ys), |xs| as real * slack)
  {
    if xs != [] {
      var n := |xs| - 1;
      TotalWithin(xs[..n], ys[..n], slack);
      assert |xs| as real * slack == n as real * slack + slack;
    }
  }

  lemma {:induction false} TotalOrdered(xs: seq<real>, ys: seq<real>)
    requires |xs| == |ys| && forall i :: 0 <= i < |xs| ==> xs[i] <= ys[i]
    ensures Total(xs) <= Total(ys)
  {
    if xs != [] {
      TotalOrdered(xs[..|xs| - 1], ys[..|ys| - 1]);
    }
  }

  lemma {:induction false} TotalNonNegative(xs: seq<real>)
    requires forall i :: 0 <= i < |xs| ==> xs[i] >= 0.0
    ensures Total(xs) >= 0.0
  {
    if xs != [] {
      TotalNonNegative(xs[..|xs| - 1]);
    }
  }

  lemma {:induction false} TotalAppend(xs: seq<real>, ys: seq<real>)
    ensures Total(xs + ys) == Total(xs) + Total(ys)
  {
    if ys == [] {
      assert xs + ys == xs;
    } else {
      var n := |ys| - 1;
      TotalAppend(xs, ys[..n]);
      assert (xs + ys)[..|xs + ys| - 1] == xs + ys[..n];
    }
  }

  lemma SumAppend(a: seq<Line>, b: seq<Line>, w: Line -> real)
    ensures Sum(a + b, w) == Sum(a, w) + Sum(b, w)
  {
    assert Weights(a + b, w) == Weights(a, w) + Weights(b, w);
    TotalAppend(Weights(a, w), Weights(b, w));
  }

  // ---------- the estimate ----------

  predicate IsRange(r: Range) { 0.0 <= r.min <= r.max }

  /** Ranges the right way round and no negative figure. */
  predicate IsModel(m: EffortModel) {
    && (forall c: Complexity :: IsRange(m.Of(c))) && IsRange(m.buyIntegrationFlat)
    && m.buyIntegrationFactor >= 0.0 && m.qaTestingPct >= 0.0 && m.bufferPct >= 0.0
    && m.projectSetupWeeks >= 0.0 && m.deploymentDevopsWeeks >= 0.0
  }

  lemma DefaultIsModel()
    ensures IsModel(EFFORT_MODEL)
  {
  }

  predicate AreRanges(lines: seq<Line>) { forall i :: 0 <= i < |lines| ==> IsRange(lines[i].weeks) }

  lemma ScaleIsRange(r: Range, factor: real)
    requires IsRange(r) && factor >= 0.0
    ensures IsRange(Scale(r, factor))
  {
  }

  lemma {:induction false} BuildIsRanges(services: seq<Service>, ds: seq<Decision>, model: EffortModel)
    requires IsModel(model)
    ensures AreRanges(BuildLines(services, ds, model))
  {
    hide Target, IsRange, Scale, ComplexityOf, CapabilityLabel;
    if ds != [] {
      var lines := BuildLines(services, ds[..|ds| - 1], model);
      BuildIsRanges(services, ds[..|ds| - 1], model);
      var t := Target(lines, ds[|ds| - 1].capability);
      if t < |lines| {
        ScaleIsRange(lines[t].weeks, model.buyIntegrationFactor);
      }
    }
  }

  lemma SubtotalIsRange(lines: seq<Line>)
    requires AreRanges(lines)
    ensures IsRange(Subtotal(lines))
  {
    TotalNonNegative(Weights(lines, MinOf));
    TotalOrdered(Weights(lines, MinOf), Weights(lines, MaxOf));
  }

  lemma RawIsRanges(services: seq<Service>, ds: seq<Decision>, model: EffortModel)
    requires IsModel(model)
    ensures AreRanges(RawLines(services, ds, model))
  {
    hide BuildLines, Subtotal, Scale;
    var build := BuildLines(services, ds, model);
    BuildIsRanges(services, ds, model);
    SubtotalIsRange(build);
    ScaleIsRange(Subtotal(build), model.qaTestingPct);
    ScaleIsRange(Subtotal(build), model.bufferPct);
  }

  /** Every figure of the estimate is a whole number of half weeks, and the totals are the
      exact sums of the lines shown. */
  lemma EstimateAddsUp(services: seq<Service>, ds: seq<Decision>, model: EffortModel)
    ensures var e := EffortEstimate(services, ds, model);
            && (forall i :: 0 <= i < |e.lineItems| ==> IsHalfWeeks(e.lineItems[i].weeks.min) && IsHalfWeeks(e.lineItems[i].weeks.max))
            && e.weeks == Subtotal(e.lineItems)
            && e.weeks == Range(Sum(e.lineItems, MinOf), Sum(e.lineItems, MaxOf))
  {
    hide RawLines, RoundHalf, IsHalfWeeks, Total;
    var raw, e := RawLines(services, ds, model), EffortEstimate(services, ds, model);
    forall i | 0 <= i < |raw|
      ensures IsHalfWeeks(e.lineItems[i].weeks.min) && IsHalfWeeks(e.lineItems[i].weeks.max)
    {
      RoundHalfNear(raw[i].weeks.min);
      RoundHalfNear(raw[i].weeks.max);
    }
    TotalOfHalfWeeks(Weights(e.lineItems, MinOf));
    TotalOfHalfWeeks(Weights(e.lineItems, MaxOf));
    RoundHalfFixed(Sum(e.lineItems, MinOf));
    RoundHalfFixed(Sum(e.lineItems, MaxOf));
  }

  /** With a sensible model every line runs from a smaller to a larger non-negative figure. */
  lemma EstimateIsOrdered(services: seq<Service>, ds: seq<Decision>, model: EffortModel)
    requires IsModel(model)
    ensures var e := EffortEstimate(services, ds, model); AreRanges(e.lineItems) && IsRange(e.weeks)
  {
    hide RawLines, RoundHalf, Subtotal;
    var raw, e := RawLines(services, ds, model), EffortEstimate(services, ds, model);
    RawIsRanges(services, ds, model);
    forall i | 0 <= i < |raw| ensures IsRange(e.lineItems[i].weeks) {
      RoundHalfNear(raw[i].weeks.min);
      RoundHalfMonotone(raw[i].weeks.min, raw[i].weeks.max);
    }
    EstimateAddsUp(services, ds, model);
    SubtotalIsRange(e.lineItems);
  }

  /** The build weeks with the two percentages and the two flat figures on top. */
  function WithOverhead(build: real, model: EffortModel): real {
    build * (1.0 + model.qaTestingPct + model.bufferPct) + (model.projectSetupWeeks + model.deploymentDevopsWeeks)
  }

  /** The totals are the build subtotal with its overhead, up to a quarter of a week a line. */
  lemma EstimateIsNear(services: seq<Service>, ds: seq<Decision>, model: EffortModel)
    ensures var e, build := EffortEstimate(services, ds, model), Subtotal(BuildLines(services, ds, model));
            var slack := |e.lineItems| as real * 0.25;
            && IsWithin(e.weeks.min, WithOverhead(build.min, model), slack)
            && IsWithin(e.weeks.max, WithOverhead(build.max, model), slack)
  {
    hide BuildLines, RoundHalf, IsWithin, Total, WithOverhead;
    var raw, e := RawLines(services, ds, model), EffortEstimate(services, ds, model);
    EstimateAddsUp(services, ds, model);
    RoundedNear(raw, MinOf);
    RoundedNear(raw, MaxOf);
    var build := BuildLines(services, ds, model);
    OverheadAdds(build, model, MinOf);
    OverheadAdds(build, model, MaxOf);
  }

  lemma OverheadAdds(build: seq<Line>, model: EffortModel, w: Line -> real)
    requires w == MinOf || w == MaxOf
    ensures Sum(build + FixedLines(Subtotal(build), model), w) == WithOverhead(Sum(build, w), model)
  {
    hide Sum;
    var fixed, base := FixedLines(Subtotal(build), model), Sum(build, w);
    SumAppend(build, fixed, w);
    SumOfFour(fixed, w);
    Percentages(base, model.qaTestingPct, model.bufferPct);
    assert w(fixed[1]) == base * model.qaTestingPct && w(fixed[3]) == base * model.bufferPct;
  }

  lemma Percentages(base: real, a: real, b: real)
    ensures base * (1.0 + a + b) == base + base * a + base * b
  {
  }

  lemma SumOfFour(lines: seq<Line>, w: Line -> real)
    requires |lines| == 4
    ensures Sum(lines, w) == w(lines[0]) + w(lines[1]) + w(lines[2]) + w(lines[3])
  {
    var xs := Weights(lines, w);
    assert xs == [xs[0], xs[1], xs[2], xs[3]];
    assert Total(xs[..0]) == 0.0;
    assert xs[..1][..0] == xs[..0] && xs[..2][..1] == xs[..1] && xs[..3][..2] == xs[..2];
    assert Total(xs[..1]) == xs[0];
    assert Total(xs[..2]) == xs[0] + xs[1];
    assert Total(xs[..3]) == xs[0] + xs[1] + xs[2];
  }

  lemma RoundedNear(lines: seq<Line>, w: Line -> real)
    requires w == MinOf || w == MaxOf
    ensures IsWithin(Sum(RoundedLines(lines), w), Sum(lines, w), |lines| as real * 0.25)
  {
    hide RoundHalf, IsWithin, Total;
    var rounded := RoundedLines(lines);
    forall i | 0 <= i < |lines| ensures IsWithin(Weights(rounded, w)[i], Weights(lines, w)[i], 0.25) {
      RoundHalfNear(lines[i].weeks.min);
      RoundHalfNear(lines[i].weeks.max);
    }
    TotalWithin(Weights(rounded, w), Weights(lines, w), 0.25);
  }

  // ---------- the buys that find no module ----------

  /** The module is not taken yet, and the capability covers it. */
  predicate IsFree(services: seq<Service>, taken: set<nat>, c: Capability, i: nat) {
    i < |services| && i !in taken && services[i].name != "" && Covers(c, services[i].name)
  }

  /** The first module from `k` on that a bought capability can take, or the number of modules. */
  function FirstFree(services: seq<Service>, taken: set<nat>, c: Capability, k: nat): (r: nat)
    requires k <= |services|
    ensures k <= r <= |services| && (r < |services| ==> IsFree(services, taken, c, r))
    ensures forall i :: k <= i < r ==> !IsFree(services, taken, c, i)
    decreases |services| - k
  {
    hide IsFree;
    if k == |services| || IsFree(services, taken, c, k) then k else FirstFree(services, taken, c, k + 1)
  }

  /** The modules taken by the buys, each by the first buy that can. */
  function Taken(services: seq<Service>, ds: seq<Decision>): set<nat> {
    if ds == [] then {}
    else
      var before, d := Taken(services, ds[..|ds| - 1]), ds[|ds| - 1];
      var i := FirstFree(services, before, d.capability, 0);
      if d.recommendation == Buy && i < |services| then before + {i} else before
  }

  /** The buys that come too late, or cover no module at all. */
  function Unmatched(services: seq<Service>, ds: seq<Decision>): nat {
    if ds == [] then 0
    else
      var front, d := ds[..|ds| - 1], ds[|ds| - 1];
      Unmatched(services, front)
      + (if d.recommendation == Buy && FirstFree(services, Taken(services, front), d.capability, 0) == |services| then 1 else 0)
  }

  predicate Mirrors(lines: seq<Line>, services: seq<Service>, taken: set<nat>) {
    && |lines| >= |services|
    && (forall i :: 0 <= i < |services| ==> lines[i].moduleName == Some(services[i].name) && (lines[i].kind == ModuleLine <==> i !in taken))
    && (forall i :: |services| <= i < |lines| ==> lines[i].kind != ModuleLine)
  }

  lemma TargetIsFirstFree(lines: seq<Line>, services: seq<Service>, taken: set<nat>, c: Capability)
    requires Mirrors(lines, services, taken)
    ensures var i := FirstFree(services, taken, c, 0); Target(lines, c) == if i < |services| then i else |lines|
  {
    hide Covers;
    var t, i := Target(lines, c), FirstFree(services, taken, c, 0);
    assert t < |lines| ==> IsFree(services, taken, c, t);
    assert i < |services| ==> IsConvertible(lines[i], c);
  }

  lemma {:induction false} LinesMirrorModules(services: seq<Service>, ds: seq<Decision>, model: EffortModel)
    ensures var lines := BuildLines(services, ds, model);
            Mirrors(lines, services, Taken(services, ds)) && |lines| == |services| + Unmatched(services, ds)
  {
    hide Target, FirstFree, IsFree, CapabilityLabel, ComplexityOf, Scale;
    if ds != [] {
      var front, d := ds[..|ds| - 1], ds[|ds| - 1];
      LinesMirrorModules(services, front, model);
      TargetIsFirstFree(BuildLines(services, front, model), services, Taken(services, front), d.capability);
    }
  }

  /** One line a service, exactly one for each buy that found no module, and the four fixed ones;
      and as many integration lines as buys. */
  lemma LinesAreCounted(services: seq<Service>, ds: seq<Decision>, model: EffortModel)
    ensures var e := EffortEstimate(services, ds, model);
            && |e.lineItems| == |services| + Unmatched(services, ds) + 4
            && Conversions(e.lineItems) == Buys(ds)
  {
    hide BuildLines, IsLineOf, Target, Total, CapabilityLabel, Unmatched, Taken;
    var build := BuildLines(services, ds, model);
    LinesMirrorModules(services, ds, model);
    BuyingIsOneForOne(services, ds, model);
    ConversionsOfRounded(RawLines(services, ds, model));
    FixedDoNotConvert(build, model);
  }

  lemma {:induction false} ConversionsOfRounded(lines: seq<Line>)
    ensures Conversions(RoundedLines(lines)) == Conversions(lines)
  {
    if lines != [] {
      var n := |lines| - 1;
      ConversionsOfRounded(lines[..n]);
      assert RoundedLines(lines)[..n] == RoundedLines(lines[..n]);
    }
  }

  lemma FixedDoNotConvert(build: seq<Line>, model: EffortModel)
    ensures Conversions(build + FixedLines(Subtotal(build), model)) == Conversions(build)
  {
    hide Subtotal, Conversions;
    var all := build + FixedLines(Subtotal(build), model);
    assert all[..|build|] == build;
    TailDoesNotConvert(all, |build|);
  }

  lemma {:induction false} TailDoesNotConvert(lines: seq<Line>, n: nat)
    requires n <= |lines| && forall i :: n <= i < |lines| ==> lines[i].kind != Integration
    ensures Conversions(lines) == Conversions(lines[..n])
  {
    if n == |lines| {
      assert lines[..n] == lines;
    } else {
      var front := lines[..|lines| - 1];
      TailDoesNotConvert(front, n);
      assert front[..n] == lines[..n];
    }
  }
}
