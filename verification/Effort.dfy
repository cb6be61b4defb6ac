/** The effort estimate: person-weeks from module complexity and build-or-buy decisions. */
module Effort {
  import opened Text
  import opened Collections

  // ---------- half weeks ----------

  /** Nearest half, halves upward (`Math.round` of the double, halved). */
  function RoundHalf(n: real): real {
    (n * 2.0 + 0.5).Floor as real / 2.0
  }

  predicate IsHalfWeeks(n: real) { (n * 2.0).Floor as real == n * 2.0 }

  predicate IsWithin(a: real, b: real, slack: real) { b - slack <= a <= b + slack }

  function Total(xs: seq<real>): real {
    if xs == [] then 0.0 else Total(xs[..|xs| - 1]) + xs[|xs| - 1]
  }

  // ---------- the model ----------

  datatype Range = Range(min: real, max: real)

  datatype Complexity = S | M | L | XL

  datatype EffortModel = EffortModel(
    small: Range, medium: Range, large: Range, extraLarge: Range,
    buyIntegrationFactor: real,
    buyIntegrationFlat: Range,
    projectSetupWeeks: real, qaTestingPct: real, deploymentDevopsWeeks: real, bufferPct: real)
  {
    function Of(c: Complexity): Range {
      match c
      case S => small
      case M => medium
      case L => large
      case XL => extraLarge
    }
  }

  const EFFORT_MODEL := EffortModel(
    Range(0.5, 1.0), Range(1.0, 2.5), Range(2.5, 5.0), Range(5.0, 8.0),
    0.25, Range(0.5, 1.0), 1.0, 0.2, 1.0, 0.15)

  /** An absent or unknown size counts as medium. */
  function ComplexityOf(text: Option<string>): Complexity {
    match text
    case Some("S") => S
    case Some("L") => L
    case Some("XL") => XL
    case _ => M
  }

  datatype Service = Service(name: string, complexity: Option<string>)

  datatype Capability = Auth | Payments | Notifications | FileStorage | MapsGeo | Search

  datatype Recommendation = Build | Buy

  datatype Decision = Decision(capability: Capability, recommendation: Recommendation)

  /** `word` stands at `i`, with no word character next to it. */
  predicate IsWordAt(s: string, word: string, i: nat) {
    && i + |word| <= |s| && s[i..i + |word|] == word
    && (i == 0 || !IsWordChar(s[i - 1]))
    && (i + |word| == |s| || !IsWordChar(s[i + |word|]))
  }

  predicate ContainsWord(s: string, word: string) {
    exists i :: 0 <= i <= |s| && IsWordAt(s, word, i)
  }

  /** The capability, if bought, covers a module of this name. */
  predicate Covers(capability: Capability, moduleName: string) {
    var low := Lower(moduleName);
    match capability
    case Auth => ContainsAny(low, ["auth", "login", "identity", "account"])
    case Payments => ContainsAny(low, ["payment", "billing", "checkout", "invoice", "payout", "wallet"])
    case Notifications =>
      ContainsAny(low, ["notif", "messaging", "alert"]) || ContainsWord(low, "email") || ContainsWord(low, "sms")
    case FileStorage => ContainsAny(low, ["file", "storage", "media", "upload", "asset", "document"])
    case MapsGeo => ContainsAny(low, ["maps", "geo", "location", "route", "track"]) || ContainsWord(low, "map")
    case Search => ContainsAny(low, ["search", "index", "discovery"])
  }

  function CapabilityLabel(capability: Capability): string {
    match capability
    case Auth => "authentication"
    case Payments => "payments"
    case Notifications => "notifications"
    case FileStorage => "file storage"
    case MapsGeo => "maps / geolocation"
    case Search => "search"
  }

  datatype LineKind = ModuleLine | Integration | Fixed

  datatype Line = Line(kind: LineKind, title: string, weeks: Range, moduleName: Option<string>)

  datatype Estimate = Estimate(lineItems: seq<Line>, weeks: Range)

  // ---------- what the estimate is ----------

  function ModuleLineOf(s: Service, model: EffortModel): Line {
    Line(ModuleLine, s.name, model.Of(ComplexityOf(s.complexity)), Some(s.name))
  }

  function ModuleLines(services: seq<Service>, model: EffortModel): (r: seq<Line>)
    ensures |r| == |services| && forall i :: 0 <= i < |services| ==> r[i] == ModuleLineOf(services[i], model)
  {
    seq(|services|, i requires 0 <= i < |services| => ModuleLineOf(services[i], model))
  }

  predicate IsConvertible(l: Line, capability: Capability) {
    l.kind == ModuleLine && l.moduleName.Some? && l.moduleName.value != "" && Covers(capability, l.moduleName.value)
  }

  /** The first line a bought capability takes over, or the number of lines. */
  function Target(lines: seq<Line>, capability: Capability): (t: nat)
    ensures t <= |lines|
    ensures t < |lines| ==> IsConvertible(lines[t], capability)
    ensures forall i :: 0 <= i < t ==> !IsConvertible(lines[i], capability)
  {
    if lines == [] then 0
    else if IsConvertible(lines[0], capability) then 0
    else 1 + Target(lines[1..], capability)
  }

  function Scale(r: Range, factor: real): Range { Range(r.min * factor, r.max * factor) }

  function Converted(l: Line, model: EffortModel): Line {
    l.(kind := Integration, weeks := Scale(l.weeks, model.buyIntegrationFactor))
  }

  function FlatLine(capability: Capability, model: EffortModel): Line {
    Line(Integration, "Integrate " + CapabilityLabel(capability), model.buyIntegrationFlat, None)
  }

  function ApplyDecision(lines: seq<Line>, d: Decision, model: EffortModel): seq<Line> {
    if d.recommendation != Buy then lines
    else
      var t := Target(lines, d.capability);
      if t < |lines| then lines[t := Converted(lines[t], model)] else lines + [FlatLine(d.capability, model)]
  }

  function ApplyDecisions(lines: seq<Line>, ds: seq<Decision>, model: EffortModel): seq<Line> {
    if ds == [] then lines
    else ApplyDecision(ApplyDecisions(lines, ds[..|ds| - 1], model), ds[|ds| - 1], model)
  }

  function MinOf(l: Line): real { l.weeks.min }

  function MaxOf(l: Line): real { l.weeks.max }

  function Weights(lines: seq<Line>, w: Line -> real): (r: seq<real>)
    ensures |r| == |lines| && forall i :: 0 <= i < |lines| ==> r[i] == w(lines[i])
  {
    seq(|lines|, i requires 0 <= i < |lines| => w(lines[i]))
  }

  function Sum(lines: seq<Line>, w: Line -> real): real { Total(Weights(lines, w)) }

  function FixedLines(build: Range, model: EffortModel): seq<Line> {
    [ Line(Fixed, "Project setup", Range(model.projectSetupWeeks, model.projectSetupWeeks), None),
      Line(Fixed, "QA & testing", Scale(build, model.qaTestingPct), None),
      Line(Fixed, "Deployment & DevOps", Range(model.deploymentDevopsWeeks, model.deploymentDevopsWeeks), None),
      Line(Fixed, "Contingency buffer", Scale(build, model.bufferPct), None) ]
  }

  function BuildLines(services: seq<Service>, ds: seq<Decision>, model: EffortModel): seq<Line> {
    ApplyDecisions(ModuleLines(services, model), ds, model)
  }

  function Subtotal(lines: seq<Line>): Range { Range(Sum(lines, MinOf), Sum(lines, MaxOf)) }

  /** Every line, before rounding. */
  function RawLines(services: seq<Service>, ds: seq<Decision>, model: EffortModel): seq<Line> {
    var build := BuildLines(services, ds, model);
    build + FixedLines(Subtotal(build), model)
  }

  function RoundRange(r: Range): Range { Range(RoundHalf(r.min), RoundHalf(r.max)) }

  function RoundedLine(l: Line): Line { l.(weeks := RoundRange(l.weeks)) }

  function RoundedLines(lines: seq<Line>): (r: seq<Line>)
    ensures |r| == |lines| && forall i :: 0 <= i < |lines| ==> r[i] == RoundedLine(lines[i])
  {
    seq(|lines|, i requires 0 <= i < |lines| => RoundedLine(lines[i]))
  }

  function EffortEstimate(services: seq<Service>, ds: seq<Decision>, model: EffortModel): Estimate {
    var rounded := RoundedLines(RawLines(services, ds, model));
    Estimate(rounded, RoundRange(Subtotal(rounded)))
  }

  // ---------- the estimate as it runs ----------

  method BuildEffortEstimate(services: seq<Service>, ds: seq<Decision>, model: EffortModel) returns (r: Estimate)
    ensures r == EffortEstimate(services, ds, model)
  {
    hide Covers, Total;
    var lines: seq<Line> := [];
    for i := 0 to |services|
      invariant |lines| == i && forall k :: 0 <= k < i ==> lines[k] == ModuleLineOf(services[k], model)
    {
      var s := services[i];
      lines := lines + [Line(ModuleLine, s.name, model.Of(ComplexityOf(s.complexity)), Some(s.name))];
    }
    assert lines == ModuleLines(services, model);
    for i := 0 to |ds|
      invariant lines == ApplyDecisions(ModuleLines(services, model), ds[..i], model)
    {
      assert ds[..i + 1][..i] == ds[..i];
      if ds[i].recommendation != Buy { continue; }
      var t := 0;
      while t < |lines| && !IsConvertible(lines[t], ds[i].capability)
        invariant t <= |lines| && forall k :: 0 <= k < t ==> !IsConvertible(lines[k], ds[i].capability)
      {
        t := t + 1;
      }
      assert t == Target(lines, ds[i].capability);
      if t < |lines| {
        var line := lines[t].(kind := Integration);
        line := line.(weeks := Scale(line.weeks, model.buyIntegrationFactor));
        lines := lines[t := line];
      } else {
        lines := lines + [FlatLine(ds[i].capability, model)];
      }
    }
    assert ds[..|ds|] == ds;
    var build := Subtotal(lines);
    lines := lines + [Line(Fixed, "Project setup", Range(model.projectSetupWeeks, model.projectSetupWeeks), None)];
    lines := lines + [Line(Fixed, "QA & testing", Scale(build, model.qaTestingPct), None)];
    lines := lines + [Line(Fixed, "Deployment & DevOps", Range(model.deploymentDevopsWeeks, model.deploymentDevopsWeeks), None)];
    lines := lines + [Line(Fixed, "Contingency buffer", Scale(build, model.bufferPct), None)];
    assert lines == RawLines(services, ds, model);
    var rounded := RoundedLines(lines);
    r := Estimate(rounded, RoundRange(Subtotal(rounded)));
  }

  // ---------- buying: one line at a time, no module twice ----------

  function Buys(ds: seq<Decision>): nat {
    if ds == [] then 0 else Buys(ds[..|ds| - 1]) + (if ds[|ds| - 1].recommendation == Buy then 1 else 0)
  }

  function Conversions(lines: seq<Line>): nat {
    if lines == [] then 0 else Conversions(lines[..|lines| - 1]) + (if lines[|lines| - 1].kind == Integration then 1 else 0)
  }

  predicate IsBought(ds: seq<Decision>, capability: Capability) { Decision(capability, Buy) in ds }

  /** The line of service `s`: untouched, or turned into integration once, at the reduced weight. */
  predicate IsLineOf(l: Line, s: Service, ds: seq<Decision>, model: EffortModel) {
    var whole := ModuleLineOf(s, model);
    || l == whole
    || (l == Converted(whole, model) && exists c :: IsBought(ds, c) && Covers(c, s.name))
  }

  /** A flat line, for a capability that was bought and has no module left to take over. */
  predicate IsFlatLine(l: Line, lines: seq<Line>, ds: seq<Decision>, model: EffortModel) {
    exists c :: IsBought(ds, c) && l == FlatLine(c, model) && Target(lines, c) == |lines|
  }

  predicate IsBuildOf(lines: seq<Line>, services: seq<Service>, ds: seq<Decision>, model: EffortModel) {
    var n := |services|;
    && |lines| >= n
    && (forall i :: 0 <= i < n ==> IsLineOf(lines[i], services[i], ds, model))
    && (forall i :: n <= i < |lines| ==> IsFlatLine(lines[i], lines, ds, model))
    && Conversions(lines) == Buys(ds)
  }

  lemma {:induction false} ConversionsUpdate(lines: seq<Line>, t: nat, l: Line)
    requires t < |lines| && lines[t].kind == ModuleLine && l.kind == Integration
    ensures Conversions(lines[t := l]) == Conversions(lines) + 1
  {
    var n, after := |lines| - 1, lines[t := l];
    if t == n {
      assert after[..n] == lines[..n];
    } else {
      assert after[..n] == lines[..n][t := l];
      ConversionsUpdate(lines[..n], t, l);
    }
  }

  lemma {:induction false} NoConversions(services: seq<Service>, model: EffortModel)
    ensures Conversions(ModuleLines(services, model)) == 0
  {
    if services != [] {
      var front := services[..|services| - 1];
      NoConversions(front, model);
      assert ModuleLines(services, model)[..|front|] == ModuleLines(front, model);
    }
  }

  /** Converting a line leaves no more targets than before. */
  lemma ExhaustedStays(lines: seq<Line>, t: nat, model: EffortModel, c: Capability)
    requires t < |lines| && Target(lines, c) == |lines|
    ensures var after := lines[t := Converted(lines[t], model)]; Target(after, c) == |after|
  {
    hide Covers;
  }

  lemma ExhaustedPlusFlat(lines: seq<Line>, flat: Capability, model: EffortModel, c: Capability)
    requires Target(lines, c) == |lines|
    ensures var after := lines + [FlatLine(flat, model)]; Target(after, c) == |after|
  {
    hide Covers;
  }

  lemma StepConverts(lines: seq<Line>, services: seq<Service>, ds: seq<Decision>, c: Capability, model: EffortModel)
    requires IsBuildOf(lines, services, ds, model) && Target(lines, c) < |lines|
    ensures IsBuildOf(ApplyDecision(lines, Decision(c, Buy), model), services, ds + [Decision(c, Buy)], model)
  {
    hide Covers, ModuleLineOf, Buys, Conversions;
    var t, d := Target(lines, c), Decision(c, Buy);
    var after, all := ApplyDecision(lines, d, model), ds + [d];
    assert all[..|all| - 1] == ds;
    CountsOne(ds, d);
    ConversionsUpdate(lines, t, Converted(lines[t], model));
    forall i | |services| <= i < |after| ensures IsFlatLine(after[i], after, all, model) {
      var f :| IsBought(ds, f) && lines[i] == FlatLine(f, model) && Target(lines, f) == |lines|;
      ExhaustedStays(lines, t, model, f);
      assert IsBought(all, f);
    }
    forall i | 0 <= i < |services| ensures IsLineOf(after[i], services[i], all, model) {
      ConvertsOnce(lines[i], services[i], ds, d, model);
    }
  }

  lemma CountsOne(ds: seq<Decision>, d: Decision)
    ensures Buys(ds + [d]) == Buys(ds) + (if d.recommendation == Buy then 1 else 0)
  {
    assert (ds + [d])[..|ds|] == ds;
  }

  lemma ConvertsOnce(l: Line, s: Service, ds: seq<Decision>, d: Decision, model: EffortModel)
    requires IsLineOf(l, s, ds, model)
    ensures IsLineOf(l, s, ds + [d], model)
    ensures d.recommendation == Buy && IsConvertible(l, d.capability) ==> IsLineOf(Converted(l, model), s, ds + [d], model)
  {
    hide Covers;
    if l != ModuleLineOf(s, model) {
      var c :| IsBought(ds, c) && Covers(c, s.name);
      assert IsBought(ds + [d], c);
    } else {
      assert d.recommendation == Buy ==> IsBought(ds + [d], d.capability);
    }
  }

  lemma StepAddsFlat(lines: seq<Line>, services: seq<Service>, ds: seq<Decision>, c: Capability, model: EffortModel)
    requires IsBuildOf(lines, services, ds, model) && Target(lines, c) == |lines|
    ensures IsBuildOf(ApplyDecision(lines, Decision(c, Buy), model), services, ds + [Decision(c, Buy)], model)
  {
    hide Covers, ModuleLineOf, Buys, CapabilityLabel;
    var d := Decision(c, Buy);
    var after, all := ApplyDecision(lines, d, model), ds + [d];
    CountsOne(ds, d);
    assert after[..|after| - 1] == lines;
    ExhaustedPlusFlat(lines, c, model, c);
    assert IsBought(all, c);
    forall i | |services| <= i < |after| ensures IsFlatLine(after[i], after, all, model) {
      if i < |lines| {
        var f :| IsBought(ds, f) && lines[i] == FlatLine(f, model) && Target(lines, f) == |lines|;
        ExhaustedPlusFlat(lines, c, model, f);
        assert IsBought(all, f);
      }
    }
    forall i | 0 <= i < |services| ensures IsLineOf(after[i], services[i], all, model) {
      ConvertsOnce(lines[i], services[i], ds, d, model);
    }
  }

  /** Every "buy" does exactly one thing, so conversions plus flat lines number the buys; a
      module is converted at most once, only for a bought capability that covers it; and a flat
      line appears only when no module is left to take over. */
  lemma {:induction false} BuyingIsOneForOne(services: seq<Service>, ds: seq<Decision>, model: EffortModel)
    ensures IsBuildOf(BuildLines(services, ds, model), services, ds, model)
  {
    hide IsBuildOf, ApplyDecision, Target;
    if ds == [] {
      StartIsBuild(services, model);
    } else {
      var front, d := ds[..|ds| - 1], ds[|ds| - 1];
      BuyingIsOneForOne(services, front, model);
      assert front + [d] == ds;
      var lines := BuildLines(services, front, model);
      if d.recommendation == Build {
        StepBuilds(lines, services, front, d, model);
      } else if Target(lines, d.capability) < |lines| {
        StepConverts(lines, services, front, d.capability, model);
      } else {
        StepAddsFlat(lines, services, front, d.capability, model);
      }
    }
  }

  lemma StartIsBuild(services: seq<Service>, model: EffortModel)
    ensures IsBuildOf(ModuleLines(services, model), services, [], model)
  {
    hide Covers;
    NoConversions(services, model);
  }

  lemma StepBuilds(lines: seq<Line>, services: seq<Service>, ds: seq<Decision>, d: Decision, model: EffortModel)
    requires IsBuildOf(lines, services, ds, model) && d.recommendation == Build
    ensures IsBuildOf(ApplyDecision(lines, d, model), services, ds + [d], model)
  {
    hide Covers, ModuleLineOf, CapabilityLabel, Target, Buys;
    CountsOne(ds, d);
    forall i | 0 <= i < |services| ensures IsLineOf(lines[i], services[i], ds + [d], model) {
      ConvertsOnce(lines[i], services[i], ds, d, model);
    }
    forall i | |services| <= i < |lines| ensures IsFlatLine(lines[i], lines, ds + [d], model) {
      var f :| IsBought(ds, f) && lines[i] == FlatLine(f, model) && Target(lines, f) == |lines|;
      assert IsBought(ds + [d], f);
    }
  }
}
