/** Reconciling the cost comparison with the host the system design already chose. */
module Hosting {
  import opened Collections
  import opened Cost

  // ---------- can the provider run the design ----------

  datatype Runtime = LongRunning | RequestScoped | Unknown

  /** A caveat is a trade-off, not a veto. */
  datatype Fit = Fit(viable: bool, caveat: bool)

  function ProviderFit(provider: Provider, hosting: HostingModel, runtime: Runtime): Fit {
    if provider == Vps then Fit(true, true)
    else if runtime != LongRunning then Fit(true, false)
    else if provider == Cloudflare then Fit(false, false)
    else if hosting == Serverless then Fit(true, true)
    else Fit(true, false)
  }

  // ---------- the decision ----------

  datatype Candidate = Candidate(provider: Provider, name: string, monthlyUsd: real, fit: Fit)

  /** What the system design decided. */
  datatype Choice = Priced(provider: Provider, name: Option<string>) | Unpriced(wording: string) | NoHost

  datatype Source = SystemDesign | DesignNotViable | DesignUnpriced | CheapestViable

  datatype Alternative = Alternative(provider: Provider, monthlySavingUsd: int)

  datatype Recommendation = Recommendation(
    provider: Provider, source: Source, chosenLabel: Option<string>, alternative: Option<Alternative>, constraintNote: bool)

  const MEANINGFUL_SAVING_USD: int := 15

  function Rounded(x: real): int { (x + 0.5).Floor }

  predicate IsViable(c: Candidate) { c.fit.viable }

  /** Fit to be recommended as something to switch to. */
  predicate IsSwitchable(c: Candidate) { c.fit.viable && !c.fit.caveat }

  function Only(cs: seq<Candidate>, p: Candidate -> bool): (r: seq<Candidate>)
    ensures forall c :: c in r <==> c in cs && p(c)
  {
    if cs == [] then [] else (if p(cs[0]) then [cs[0]] else []) + Only(cs[1..], p)
  }

  /** The first of the least expensive. */
  function Cheapest(pool: seq<Candidate>): (r: Candidate)
    requires pool != []
    ensures r in pool && forall c :: c in pool ==> r.monthlyUsd <= c.monthlyUsd
  {
    var last := pool[|pool| - 1];
    if |pool| == 1 then last
    else
      var best := Cheapest(pool[..|pool| - 1]);
      if last.monthlyUsd < best.monthlyUsd then last else best
  }

  /** The candidate the design picked, if it is priced. */
  function Pick(cs: seq<Candidate>, choice: Choice): (r: Option<Candidate>)
    ensures r.Some? ==> r.value in cs && choice.Priced? && r.value.provider == choice.provider
    ensures r.None? && choice.Priced? ==> forall c :: c in cs ==> c.provider != choice.provider
  {
    if cs == [] || !choice.Priced? then None
    else if cs[0].provider == choice.provider then Some(cs[0])
    else Pick(cs[1..], choice)
  }

  function LabelFor(choice: Choice, pick: Option<Candidate>): Option<string> {
    var text := match choice
      case NoHost => ""
      case Unpriced(wording) => wording
      case Priced(_, Some(name)) => name
      case Priced(_, None) => if pick.Some? then pick.value.name else "";
    if text == "" then None else Some(text)
  }

  function Fallback(cs: seq<Candidate>): Candidate
    requires Only(cs, IsViable) != []
  {
    if Only(cs, IsSwitchable) != [] then Cheapest(Only(cs, IsSwitchable)) else Cheapest(Only(cs, IsViable))
  }

  function SourceFor(choice: Choice, pick: Option<Candidate>): Source {
    if pick.Some? then (if pick.value.fit.viable then SystemDesign else DesignNotViable)
    else if choice.Unpriced? then DesignUnpriced
    else CheapestViable
  }

  function Primary(cs: seq<Candidate>, choice: Choice): Candidate
    requires Only(cs, IsViable) != []
  {
    var pick := Pick(cs, choice);
    if pick.Some? && pick.value.fit.viable then pick.value else Fallback(cs)
  }

  function AlternativeTo(primary: Candidate, cs: seq<Candidate>): Option<Alternative> {
    var pool := Only(cs, IsSwitchable);
    if pool == [] then None
    else
      var best := Cheapest(pool);
      var saving := Rounded(primary.monthlyUsd - best.monthlyUsd);
      if best.provider != primary.provider && saving >= MEANINGFUL_SAVING_USD then Some(Alternative(best.provider, saving))
      else None
  }

  function Decision(cs: seq<Candidate>, choice: Choice, constrained: bool): Option<Recommendation> {
    if Only(cs, IsViable) == [] then None
    else
      var pick, primary := Pick(cs, choice), Primary(cs, choice);
      Some(Recommendation(primary.provider, SourceFor(choice, pick), LabelFor(choice, pick),
                          AlternativeTo(primary, cs), constrained && choice != NoHost))
  }

  method ReconcileHosting(cs: seq<Candidate>, choice: Choice, constrained: bool)
    returns (r: Option<Recommendation>)
    ensures r == Decision(cs, choice, constrained)
  {
    var viable := Only(cs, IsViable);
    if viable == [] {
      return None;
    }
    var switchable := Only(cs, IsSwitchable);
    var cheapestSwitchable := if switchable != [] then Some(Cheapest(switchable)) else None;
    var spare := if cheapestSwitchable.Some? then cheapestSwitchable.value else Cheapest(viable);
    var pick := Pick(cs, choice);
    var primary, source := spare, CheapestViable;
    if pick.Some? && pick.value.fit.viable {
      primary := pick.value;
      source := SystemDesign;
    } else if pick.Some? {
      source := DesignNotViable;
    } else if choice.Unpriced? {
      source := DesignUnpriced;
    }
    var saving := if cheapestSwitchable.Some? then Rounded(primary.monthlyUsd - cheapestSwitchable.value.monthlyUsd) else 0;
    var alternative := None;
    if cheapestSwitchable.Some? && cheapestSwitchable.value.provider != primary.provider && saving >= MEANINGFUL_SAVING_USD {
      alternative := Some(Alternative(cheapestSwitchable.value.provider, saving));
    }
    r := Some(Recommendation(primary.provider, source, LabelFor(choice, pick), alternative, constrained && choice != NoHost));
  }

  // ---------- what the decision guarantees ----------

  predicate DistinctProviders(cs: seq<Candidate>) {
    forall i, j :: 0 <= i < j < |cs| ==> cs[i].provider != cs[j].provider
  }

  /** Switching from `from` to `c` would save a meaningful amount and nothing speaks against it. */
  predicate IsBetter(c: Candidate, from: Candidate) {
    IsSwitchable(c) && Rounded(from.monthlyUsd - c.monthlyUsd) >= MEANINGFUL_SAVING_USD
  }

  /** A decision is made exactly when some candidate can run the design, and then it is one of
      those; the design's own viable choice always wins, whatever it costs. */
  lemma DecisionIsViable(cs: seq<Candidate>, choice: Choice, constrained: bool)
    ensures var r := Decision(cs, choice, constrained);
            && (r.Some? <==> exists c :: c in cs && IsViable(c))
            && (r.Some? ==>
                  && (exists c :: c in cs && IsViable(c) && c == Primary(cs, choice) && c.provider == r.value.provider)
                  && (r.value.source == SystemDesign ==> choice.Priced? && r.value.provider == choice.provider)
                  && (r.value.source == CheapestViable <==>
                        choice.NoHost? || (choice.Priced? && forall c :: c in cs ==> c.provider != choice.provider)))
  {
    hide Cheapest, Only, Primary, AlternativeTo, IsViable, LabelFor, Pick;
    OnlyEmpty(cs, IsViable);
    if Only(cs, IsViable) != [] {
      PrimaryIsCandidate(cs, choice);
      if SourceFor(choice, Pick(cs, choice)) == SystemDesign {
        OwnChoiceWins(cs, choice);
      }
    }
  }

  lemma OwnChoiceWins(cs: seq<Candidate>, choice: Choice)
    requires Only(cs, IsViable) != [] && SourceFor(choice, Pick(cs, choice)) == SystemDesign
    ensures choice.Priced? && Primary(cs, choice).provider == choice.provider
  {
  }

  lemma OnlyEmpty(cs: seq<Candidate>, p: Candidate -> bool)
    ensures Only(cs, p) == [] <==> !exists c :: c in cs && p(c)
  {
    hide Only;
    if Only(cs, p) != [] {
      var c := Only(cs, p)[0];
      assert c in Only(cs, p);
    }
  }

  /** When the design's choice cannot be followed, the replacement is the least expensive host
      one could switch to, and only when there is none the least expensive viable one. */
  lemma ReplacementIsCheapest(cs: seq<Candidate>, choice: Choice, c: Candidate)
    requires Only(cs, IsViable) != [] && SourceFor(choice, Pick(cs, choice)) != SystemDesign
    requires c in cs && IsViable(c)
    ensures var primary := Primary(cs, choice);
            && (IsSwitchable(c) ==> IsSwitchable(primary) && primary.monthlyUsd <= c.monthlyUsd)
            && (!IsSwitchable(primary) ==> primary.monthlyUsd <= c.monthlyUsd)
  {
    hide Cheapest;
    assert IsSwitchable(c) ==> c in Only(cs, IsSwitchable);
    assert c in Only(cs, IsViable);
  }

  lemma RoundedGrows(a: real, b: real)
    requires a <= b
    ensures Rounded(a) <= Rounded(b)
  {
    assert (a + 0.5).Floor <= (b + 0.5).Floor;
  }

  lemma SameProviderSameCandidate(cs: seq<Candidate>, a: Candidate, b: Candidate)
    requires DistinctProviders(cs) && a in cs && b in cs && a.provider == b.provider
    ensures a == b
  {
    var i :| 0 <= i < |cs| && cs[i] == a;
    var j :| 0 <= j < |cs| && cs[j] == b;
  }

  lemma BetterMeansAlternative(cs: seq<Candidate>, primary: Candidate, c: Candidate)
    requires DistinctProviders(cs) && primary in cs && c in cs && IsBetter(c, primary)
    ensures AlternativeTo(primary, cs).Some?
  {
    hide Cheapest, Rounded, Only, DistinctProviders;
    var pool := Only(cs, IsSwitchable);
    assert c in pool;
    var best := Cheapest(pool);
    RoundedGrows(primary.monthlyUsd - c.monthlyUsd, primary.monthlyUsd - best.monthlyUsd);
    if best.provider == primary.provider {
      NoSavingOnItself(primary);
      SameProviderSameCandidate(cs, best, primary);
    }
  }

  lemma AlternativeIsBest(cs: seq<Candidate>, primary: Candidate) returns (best: Candidate)
    requires AlternativeTo(primary, cs).Some?
    ensures best in cs && IsBetter(best, primary) && IsCheapestSwitch(best, cs)
    ensures AlternativeTo(primary, cs) == Some(Alternative(best.provider, Rounded(primary.monthlyUsd - best.monthlyUsd)))
  {
    hide Cheapest, Rounded, Only;
    best := Cheapest(Only(cs, IsSwitchable));
  }

  /** An alternative is offered exactly when some host without a caveat would save at least the
      meaningful amount; then it is the least expensive such host, at its true rounded saving. */
  lemma AlternativeIsExact(cs: seq<Candidate>, choice: Choice)
    requires DistinctProviders(cs) && Only(cs, IsViable) != []
    ensures var primary := Primary(cs, choice);
            var r := AlternativeTo(primary, cs);
            && (r.Some? <==> exists c :: c in cs && IsBetter(c, primary))
            && (r.Some? ==> IsAlternative(r.value, primary, cs))
  {
    hide Cheapest, Rounded, Only, AlternativeTo, Primary, IsBetter, IsCheapestSwitch, DistinctProviders;
    var primary := Primary(cs, choice);
    PrimaryIsCandidate(cs, choice);
    if exists c :: c in cs && IsBetter(c, primary) {
      var c :| c in cs && IsBetter(c, primary);
      BetterMeansAlternative(cs, primary, c);
    }
    if AlternativeTo(primary, cs).Some? {
      var best := AlternativeIsBest(cs, primary);
    }
  }

  predicate IsAlternative(a: Alternative, from: Candidate, cs: seq<Candidate>) {
    exists c :: c in cs && IsBetter(c, from) && IsCheapestSwitch(c, cs)
                && a == Alternative(c.provider, Rounded(from.monthlyUsd - c.monthlyUsd))
  }

  predicate IsCheapestSwitch(c: Candidate, cs: seq<Candidate>) {
    IsSwitchable(c) && forall o :: o in cs && IsSwitchable(o) ==> c.monthlyUsd <= o.monthlyUsd
  }

  lemma PrimaryIsCandidate(cs: seq<Candidate>, choice: Choice)
    requires Only(cs, IsViable) != []
    ensures Primary(cs, choice) in cs && IsViable(Primary(cs, choice))
  {
    hide Cheapest;
  }

  lemma NoSavingOnItself(c: Candidate)
    ensures Rounded(c.monthlyUsd - c.monthlyUsd) == 0
  {
  }
}
