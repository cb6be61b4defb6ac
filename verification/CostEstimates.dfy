/** The whole cost comparison: every provider, every scale, and the decision read off it. */
module CostEstimates {
  import opened Collections
  import opened Cost
  import opened Hosting

  const USER_SCALES: seq<nat> := [100, 1000, 10000]

  /** The scale whose bills the decision compares: the middle one. */
  const COMPARE_AT: nat := 1

  datatype ProviderEstimate = ProviderEstimate(provider: Provider, name: string, fit: Fit, costs: seq<Bill>)

  datatype CostEstimate = CostEstimate(
    providers: seq<ProviderEstimate>,
    cheapestByScale: seq<Provider>,
    recommended: Provider,
    hosting: Option<Recommendation>)

  // ---------- the table ----------

  function CostsOf(p: Pricing, w: Workload): (r: seq<Bill>)
    ensures |r| == |USER_SCALES| && forall s :: 0 <= s < |r| ==> r[s] == BillOf(p, USER_SCALES[s], w)
  {
    seq(|USER_SCALES|, s requires 0 <= s < |USER_SCALES| => BillOf(p, USER_SCALES[s], w))
  }

  function EstimateOf(p: Pricing, w: Workload, runtime: Runtime): ProviderEstimate {
    ProviderEstimate(p.id, p.name, ProviderFit(p.id, p.hosting, runtime), CostsOf(p, w))
  }

  function PricedTable(w: Workload, runtime: Runtime): (r: seq<ProviderEstimate>)
    ensures |r| == |PRICING| && forall i :: 0 <= i < |r| ==> r[i] == EstimateOf(PRICING[i], w, runtime)
  {
    seq(|PRICING|, i requires 0 <= i < |PRICING| => EstimateOf(PRICING[i], w, runtime))
  }

  function TotalUsd(costs: seq<Bill>): nat {
    if costs == [] then 0 else TotalUsd(costs[..|costs| - 1]) + costs[|costs| - 1].monthlyUsd
  }

  function CandidateOf(p: ProviderEstimate): Candidate
    requires |p.costs| > COMPARE_AT
  {
    Candidate(p.provider, p.name, p.costs[COMPARE_AT].monthlyUsd as real, p.fit)
  }

  function CandidatesOf(ps: seq<ProviderEstimate>): (r: seq<Candidate>)
    requires forall i :: 0 <= i < |ps| ==> |ps[i].costs| > COMPARE_AT
    ensures |r| == |ps| && forall i :: 0 <= i < |ps| ==> r[i] == CandidateOf(ps[i])
  {
    seq(|ps|, i requires 0 <= i < |ps| => CandidateOf(ps[i]))
  }

  // ---------- picking the best ----------

  /** The first position holding the least value. */
  predicate IsFirstLeast(xs: seq<nat>, k: nat) {
    && k < |xs|
    && (forall i :: 0 <= i < |xs| ==> xs[k] <= xs[i])
    && (forall i :: 0 <= i < k ==> xs[k] < xs[i])
  }

  /** The provider whose figure is the first of the least ones. */
  predicate IsLeastProvider(p: Provider, ps: seq<ProviderEstimate>, figures: seq<nat>) {
    exists k :: 0 <= k < |ps| && IsFirstLeast(figures, k) && p == ps[k].provider
  }

  function UsdAt(ps: seq<ProviderEstimate>, s: nat): (r: seq<nat>)
    requires forall i :: 0 <= i < |ps| ==> s < |ps[i].costs|
    ensures |r| == |ps| && forall i :: 0 <= i < |ps| ==> r[i] == ps[i].costs[s].monthlyUsd
  {
    seq(|ps|, i requires 0 <= i < |ps| => ps[i].costs[s].monthlyUsd)
  }

  function TotalsOf(ps: seq<ProviderEstimate>): (r: seq<nat>)
    ensures |r| == |ps| && forall i :: 0 <= i < |ps| ==> r[i] == TotalUsd(ps[i].costs)
  {
    seq(|ps|, i requires 0 <= i < |ps| => TotalUsd(ps[i].costs))
  }

  method CheapestAtScale(ps: seq<ProviderEstimate>, s: nat) returns (best: nat)
    requires ps != [] && forall i :: 0 <= i < |ps| ==> s < |ps[i].costs|
    ensures IsFirstLeast(UsdAt(ps, s), best)
  {
    best := 0;
    for i := 0 to |ps|
      invariant best < |ps| && best <= i
      invariant forall k :: 0 <= k < i ==> ps[best].costs[s].monthlyUsd <= ps[k].costs[s].monthlyUsd
      invariant forall k :: 0 <= k < best ==> ps[best].costs[s].monthlyUsd < ps[k].costs[s].monthlyUsd
    {
      if ps[i].costs[s].monthlyUsd < ps[best].costs[s].monthlyUsd {
        best := i;
      }
    }
  }

  method BestValue(ps: seq<ProviderEstimate>) returns (best: nat)
    requires ps != []
    ensures IsFirstLeast(TotalsOf(ps), best)
  {
    hide TotalUsd;
    best := 0;
    for i := 0 to |ps|
      invariant best < |ps| && best <= i
      invariant forall k :: 0 <= k < i ==> TotalUsd(ps[best].costs) <= TotalUsd(ps[k].costs)
      invariant forall k :: 0 <= k < best ==> TotalUsd(ps[best].costs) < TotalUsd(ps[k].costs)
    {
      if TotalUsd(ps[i].costs) < TotalUsd(ps[best].costs) {
        best := i;
      }
    }
  }

  method EstimateCosts(w: Workload, runtime: Runtime, choice: Choice, constrained: bool) returns (r: CostEstimate)
    ensures r.providers == PricedTable(w, runtime)
    ensures |r.cheapestByScale| == |USER_SCALES|
    ensures forall s :: 0 <= s < |USER_SCALES| ==>
              IsLeastProvider(r.cheapestByScale[s], r.providers, UsdAt(r.providers, s))
    ensures IsLeastProvider(r.recommended, r.providers, TotalsOf(r.providers))
    ensures r.hosting == Decision(CandidatesOf(r.providers), choice, constrained)
  {
    hide Decision, IsFirstLeast, TotalUsd, BillOf, ProviderFit, PRICING;
    var providers: seq<ProviderEstimate> := [];
    SomePricing();
    for i := 0 to |PRICING|
      invariant |providers| == i && forall k :: 0 <= k < i ==> providers[k] == EstimateOf(PRICING[k], w, runtime)
    {
      var costs := PriceAtScales(PRICING[i], w);
      providers := providers + [ProviderEstimate(PRICING[i].id, PRICING[i].name, ProviderFit(PRICING[i].id, PRICING[i].hosting, runtime), costs)];
    }
    assert providers == PricedTable(w, runtime);
    var cheapest: seq<Provider> := [];
    for s := 0 to |USER_SCALES|
      invariant |cheapest| == s
      invariant forall t :: 0 <= t < s ==>
        IsLeastProvider(cheapest[t], providers, UsdAt(providers, t))
    {
      var best := CheapestAtScale(providers, s);
      LeastIsThere(UsdAt(providers, s), best);
      cheapest := cheapest + [providers[best].provider];
    }
    var best := BestValue(providers);
    LeastIsThere(TotalsOf(providers), best);
    var hosting := ReconcileHosting(CandidatesOf(providers), choice, constrained);
    r := CostEstimate(providers, cheapest, providers[best].provider, hosting);
  }

  lemma SomePricing()
    ensures PRICING != []
  {
  }

  lemma LeastIsThere(xs: seq<nat>, k: nat)
    requires IsFirstLeast(xs, k)
    ensures k < |xs|
  {
  }

  method PriceAtScales(p: Pricing, w: Workload) returns (costs: seq<Bill>)
    ensures costs == CostsOf(p, w)
  {
    hide BillOf;
    costs := [];
    for s := 0 to |USER_SCALES|
      invariant |costs| == s && forall t :: 0 <= t < s ==> costs[t] == BillOf(p, USER_SCALES[t], w)
    {
      var bill := ProviderCostAtScale(p, USER_SCALES[s], w);
      costs := costs + [bill];
    }
  }

  // ---------- the decision, end to end ----------

  function Table(w: Workload, runtime: Runtime): seq<Candidate> { CandidatesOf(PricedTable(w, runtime)) }

  lemma EveryProviderIsPriced(p: Provider) returns (i: nat)
    ensures i < |PRICING| && PRICING[i].id == p
  {
    match p
    case Aws => i := 0;
    case Azure => i := 1;
    case Gcp => i := 2;
    case DigitalOcean => i := 3;
    case Railway => i := 4;
    case Render => i := 5;
    case Vercel => i := 6;
    case Cloudflare => i := 7;
    case FlyIo => i := 8;
    case Heroku => i := 9;
    case Vps => i := 10;
  }

  lemma PricingIdsAreDistinct()
    ensures forall i, j :: 0 <= i < j < |PRICING| ==> PRICING[i].id != PRICING[j].id
  {
  }

  lemma ProvidersAreDistinct(w: Workload, runtime: Runtime)
    ensures DistinctProviders(Table(w, runtime))
  {
    hide BillOf, ProviderFit, PRICING;
    PricingIdsAreDistinct();
  }

  /** Whatever the workload, the runtime and the choice, a host is always recommended and it can
      run the design; the recommendation claims that the design names no host exactly when it
      names none; and an alternative is offered exactly when some caveat-free host costs at least
      fifteen whole dollars less, in which case it is a cheapest such host and the saving is exact. */
  lemma HostingIsDecided(w: Workload, runtime: Runtime, choice: Choice, constrained: bool)
    ensures var cs := Table(w, runtime);
            var r := Decision(cs, choice, constrained);
            && r.Some?
            && (exists c :: c in cs && IsViable(c) && c.provider == r.value.provider && c == Primary(cs, choice))
            && (r.value.source == CheapestViable <==> choice == NoHost)
            && (r.value.alternative.Some? <==>
                  exists c :: c in cs && IsSwitchable(c) && c.monthlyUsd + 15.0 <= Primary(cs, choice).monthlyUsd)
            && (r.value.alternative.Some? ==> IsTrueSaving(r.value.alternative.value, Primary(cs, choice), cs))
  {
    hide Primary, AlternativeTo, Only, Rounded, SourceFor, Table, IsViable, IsSwitchable, IsCheapestSwitch, LabelFor, IsTrueSaving;
    var cs := Table(w, runtime);
    VpsIsViable(w, runtime);
    DecisionIsViable(cs, choice, constrained);
    ProvidersAreDistinct(w, runtime);
    if choice.Priced? {
      PickIsPriced(w, runtime, choice);
    }
    PrimaryIsCandidate(cs, choice);
    AlternativeIsExact(cs, choice);
    var primary := Primary(cs, choice);
    forall c | c in cs ensures IsBetter(c, primary) <==> IsSwitchable(c) && c.monthlyUsd + 15.0 <= primary.monthlyUsd {
      BetterInDollars(w, runtime, c, primary);
    }
    if AlternativeTo(primary, cs).Some? {
      TrueSaving(w, runtime, AlternativeTo(primary, cs).value, primary);
    }
  }

  lemma PickIsPriced(w: Workload, runtime: Runtime, choice: Choice)
    requires choice.Priced?
    ensures exists c :: c in Table(w, runtime) && c.provider == choice.provider
  {
    hide BillOf, PRICING, ProviderFit;
    var i := EveryProviderIsPriced(choice.provider);
    assert Table(w, runtime)[i].provider == choice.provider;
  }

  lemma BetterInDollars(w: Workload, runtime: Runtime, c: Candidate, from: Candidate)
    requires c in Table(w, runtime) && from in Table(w, runtime)
    ensures IsBetter(c, from) <==> IsSwitchable(c) && c.monthlyUsd + 15.0 <= from.monthlyUsd
    ensures Rounded(from.monthlyUsd - c.monthlyUsd) as real == from.monthlyUsd - c.monthlyUsd
  {
    hide Table, Rounded, IsSwitchable;
    WholeDollars(w, runtime, c);
    WholeDollars(w, runtime, from);
    RoundedIsExact(from.monthlyUsd, c.monthlyUsd);
  }

  lemma TrueSaving(w: Workload, runtime: Runtime, a: Alternative, from: Candidate)
    requires from in Table(w, runtime) && IsAlternative(a, from, Table(w, runtime))
    ensures IsTrueSaving(a, from, Table(w, runtime))
  {
    hide Table, Rounded, IsSwitchable, IsCheapestSwitch, IsBetter;
    var cs := Table(w, runtime);
    var c :| c in cs && IsBetter(c, from) && IsCheapestSwitch(c, cs)
             && a == Alternative(c.provider, Rounded(from.monthlyUsd - c.monthlyUsd));
    BetterInDollars(w, runtime, c, from);
  }

  predicate IsTrueSaving(a: Alternative, from: Candidate, cs: seq<Candidate>) {
    exists c :: c in cs && c.provider == a.provider && IsCheapestSwitch(c, cs)
                && a.monthlySavingUsd as real == from.monthlyUsd - c.monthlyUsd
  }

  lemma VpsIsViable(w: Workload, runtime: Runtime)
    ensures exists c :: c in Table(w, runtime) && IsViable(c)
  {
    hide BillOf;
    var i := EveryProviderIsPriced(Vps);
    var c := Table(w, runtime)[i];
    assert c in Table(w, runtime) && IsViable(c);
  }

  predicate IsWhole(x: real) { x.Floor as real == x }

  lemma WholeDollars(w: Workload, runtime: Runtime, c: Candidate)
    requires c in Table(w, runtime)
    ensures IsWhole(c.monthlyUsd)
  {
    hide BillOf, PRICING, ProviderFit;
    var i :| 0 <= i < |Table(w, runtime)| && Table(w, runtime)[i] == c;
  }

  lemma RoundedIsExact(a: real, b: real)
    requires IsWhole(a) && IsWhole(b)
    ensures Rounded(a - b) as real == a - b
  {
    WholePlusHalf(a.Floor - b.Floor, a - b);
  }

  lemma WholePlusHalf(k: int, x: real)
    requires x == k as real
    ensures (x + 0.5).Floor == k
  {
  }

  /** A design that runs as a long-lived server is never sent to a host that cannot run it, and
      never told to switch to one that comes with a caveat. */
  lemma NeverSentToWorkers(w: Workload, choice: Choice, constrained: bool)
    ensures var r := Decision(Table(w, LongRunning), choice, constrained);
            && r.Some? && r.value.provider != Cloudflare
            && (r.value.alternative.Some? ==> r.value.alternative.value.provider !in {Cloudflare, Vercel, Vps})
            && (choice == NoHost ==> r.value.provider !in {Cloudflare, Vercel, Vps})
  {
    hide Primary, AlternativeTo, Only, BillOf, Rounded, SourceFor, PRICING;
    var cs := Table(w, LongRunning);
    HostingIsDecided(w, LongRunning, choice, constrained);
    forall c | c in cs
      ensures c.provider == Cloudflare ==> !IsViable(c)
      ensures c.provider in {Cloudflare, Vercel, Vps} ==> !IsSwitchable(c)
    {
      LongRunningFits(w, c);
    }
    if choice == NoHost {
      var i := EveryProviderIsPriced(Aws);
      AwsIsSwitchable(w, i);
      ReplacementForNoHost(cs, cs[i]);
    }
  }

  lemma LongRunningFits(w: Workload, c: Candidate)
    requires c in Table(w, LongRunning)
    ensures c.provider == Cloudflare ==> !IsViable(c)
    ensures c.provider in {Cloudflare, Vercel, Vps} ==> !IsSwitchable(c)
  {
    hide BillOf;
    var i :| 0 <= i < |Table(w, LongRunning)| && Table(w, LongRunning)[i] == c;
    assert PRICING[6].id == Vercel && PRICING[6].hosting == Serverless;
  }

  lemma AwsIsSwitchable(w: Workload, i: nat)
    requires i < |PRICING| && PRICING[i].id == Aws
    ensures IsSwitchable(Table(w, LongRunning)[i])
  {
    hide BillOf;
  }

  lemma ReplacementForNoHost(cs: seq<Candidate>, c: Candidate)
    requires c in cs && IsSwitchable(c)
    ensures Only(cs, IsViable) != [] && IsSwitchable(Primary(cs, NoHost))
  {
    hide Cheapest;
    assert c in Only(cs, IsViable);
    ReplacementIsCheapest(cs, NoHost, c);
  }
}
