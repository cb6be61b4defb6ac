/** An estimate with the shipped figures, written out line by line. */
module EffortSizes {
  import opened Text
  import opened TextLaws
  import opened Collections
  import opened Effort

  // ---------- which modules a purchase covers ----------

  predicate Mentions(name: string, part: string) {
    exists i :: 0 <= i <= |name| && StandsAt(Lower(name), part, i)
  }

  predicate IsBoundary(c: char) { !('a' <= c <= 'z') && !('A' <= c <= 'Z') && !('0' <= c <= '9') && c != '_' }

  /** The part is a word of its own. */
  predicate MentionsWord(name: string, word: string) {
    var low := Lower(name);
    exists i :: 0 <= i <= |low| && StandsAt(low, word, i) && (i == 0 || IsBoundary(low[i - 1]))
                && (i + |word| == |low| || IsBoundary(low[i + |word|]))
  }

  /** What a module a capability covers may be called. */
  predicate IsModuleFor(c: Capability, name: string) {
    match c
    case Auth => Mentions(name, "auth") || Mentions(name, "login") || Mentions(name, "identity") || Mentions(name, "account")
    case Payments =>
      || Mentions(name, "payment") || Mentions(name, "billing") || Mentions(name, "checkout")
      || Mentions(name, "invoice") || Mentions(name, "payout") || Mentions(name, "wallet")
    case Notifications =>
      || Mentions(name, "notif") || Mentions(name, "messaging") || Mentions(name, "alert")
      || MentionsWord(name, "email") || MentionsWord(name, "sms")
    case FileStorage =>
      || Mentions(name, "file") || Mentions(name, "storage") || Mentions(name, "media")
      || Mentions(name, "upload") || Mentions(name, "asset") || Mentions(name, "document")
    case MapsGeo =>
      || Mentions(name, "maps") || Mentions(name, "geo") || Mentions(name, "location")
      || Mentions(name, "route") || Mentions(name, "track") || MentionsWord(name, "map")
    case Search => Mentions(name, "search") || Mentions(name, "index") || Mentions(name, "discovery")
  }

  lemma MentionsIff(name: string, part: string)
    ensures Contains(Lower(name), part) <==> Mentions(name, part)
  {
    ContainsIff(Lower(name), part);
  }

  lemma WordIff(name: string, word: string)
    ensures ContainsWord(Lower(name), word) <==> MentionsWord(name, word)
  {
    var low := Lower(name);
    forall i: nat | i <= |low|
      ensures IsWordAt(low, word, i) <==> StandsAt(low, word, i) && (i == 0 || IsBoundary(low[i - 1]))
                                          && (i + |word| == |low| || IsBoundary(low[i + |word|]))
    {
    }
    if i :| 0 <= i <= |low| && StandsAt(low, word, i) && (i == 0 || IsBoundary(low[i - 1]))
            && (i + |word| == |low| || IsBoundary(low[i + |word|])) {
      assert IsWordAt(low, word, i);
    }
  }

  /** A name contains one of the parts exactly when it mentions one. */
  lemma AnyIff(name: string, parts: seq<string>)
    ensures ContainsAny(Lower(name), parts) <==> exists i :: 0 <= i < |parts| && Mentions(name, parts[i])
  {
    hide Contains, Mentions, Lower;
    forall i | 0 <= i < |parts| ensures Contains(Lower(name), parts[i]) <==> Mentions(name, parts[i]) {
      MentionsIff(name, parts[i]);
    }
  }

  lemma CoversIff(c: Capability, name: string)
    ensures Covers(c, name) <==> IsModuleFor(c, name)
  {
    hide ContainsAny, ContainsWord, Mentions, MentionsWord, Lower;
    match c
    case Auth =>
      FourOf(name, "auth", "login", "identity", "account");
    case Payments =>
      SixOf(name, "payment", "billing", "checkout", "invoice", "payout", "wallet");
    case Notifications =>
      ThreeOf(name, "notif", "messaging", "alert");
      WordIff(name, "email");
      WordIff(name, "sms");
    case FileStorage =>
      SixOf(name, "file", "storage", "media", "upload", "asset", "document");
    case MapsGeo =>
      FiveOf(name, "maps", "geo", "location", "route", "track");
      WordIff(name, "map");
    case Search =>
      ThreeOf(name, "search", "index", "discovery");
  }

  lemma ThreeOf(name: string, a: string, b: string, c: string)
    ensures ContainsAny(Lower(name), [a, b, c]) <==> Mentions(name, a) || Mentions(name, b) || Mentions(name, c)
  {
    hide Mentions, Contains, Lower;
    var parts := [a, b, c];
    AnyIff(name, parts);
    assert parts[0] == a && parts[1] == b && parts[2] == c;
  }

  lemma FourOf(name: string, a: string, b: string, c: string, d: string)
    ensures ContainsAny(Lower(name), [a, b, c, d]) <==> Mentions(name, a) || Mentions(name, b) || Mentions(name, c) || Mentions(name, d)
  {
    hide Mentions, Contains, Lower;
    var parts := [a, b, c, d];
    AnyIff(name, parts);
    assert parts[0] == a && parts[1] == b && parts[2] == c && parts[3] == d;
  }

  lemma FiveOf(name: string, a: string, b: string, c: string, d: string, e: string)
    ensures ContainsAny(Lower(name), [a, b, c, d, e])
            <==> Mentions(name, a) || Mentions(name, b) || Mentions(name, c) || Mentions(name, d) || Mentions(name, e)
  {
    hide Mentions, Contains, Lower;
    var parts := [a, b, c, d, e];
    AnyIff(name, parts);
    assert parts[0] == a && parts[1] == b && parts[2] == c && parts[3] == d && parts[4] == e;
  }

  lemma SixOf(name: string, a: string, b: string, c: string, d: string, e: string, f: string)
    ensures ContainsAny(Lower(name), [a, b, c, d, e, f])
            <==> || Mentions(name, a) || Mentions(name, b) || Mentions(name, c)
                 || Mentions(name, d) || Mentions(name, e) || Mentions(name, f)
  {
    hide Mentions, Contains, Lower;
    var parts := [a, b, c, d, e, f];
    AnyIff(name, parts);
    assert parts[0] == a && parts[1] == b && parts[2] == c && parts[3] == d && parts[4] == e && parts[5] == f;
  }

  // ---------- one module ----------

  /** The whole weeks of a size in the shipped model; an unknown size counts as medium. */
  function WeeksOf(size: Option<string>): Range {
    if size == Some("S") then Range(0.5, 1.0)
    else if size == Some("L") then Range(2.5, 5.0)
    else if size == Some("XL") then Range(5.0, 8.0)
    else Range(1.0, 2.5)
  }

  /** What is left of them when the module is bought: a quarter, in half weeks. */
  function BoughtWeeksOf(size: Option<string>): Range {
    if size == Some("S") then Range(0.0, 0.5)
    else if size == Some("L") then Range(0.5, 1.5)
    else if size == Some("XL") then Range(1.5, 2.0)
    else Range(0.5, 0.5)
  }

  lemma SizesAre(s: Service)
    ensures RoundRange(ModuleLineOf(s, EFFORT_MODEL).weeks) == WeeksOf(s.complexity)
    ensures RoundRange(Scale(ModuleLineOf(s, EFFORT_MODEL).weeks, EFFORT_MODEL.buyIntegrationFactor)) == BoughtWeeksOf(s.complexity)
  {
    HalvesStay();
    QuartersRound();
    match ComplexityOf(s.complexity)
    case S =>
    case M =>
    case L =>
    case XL =>
  }

  lemma HalvesStay()
    ensures RoundHalf(0.5) == 0.5 && RoundHalf(1.0) == 1.0 && RoundHalf(2.5) == 2.5 && RoundHalf(5.0) == 5.0 && RoundHalf(8.0) == 8.0
  {
  }

  lemma QuartersRound()
    ensures RoundHalf(0.125) == 0.0 && RoundHalf(0.25) == 0.5 && RoundHalf(0.625) == 0.5 && RoundHalf(1.25) == 1.5 && RoundHalf(2.0) == 2.0
  {
  }

  /** The line of a module: its whole weeks, or when it was bought what is left of them. */
  predicate IsModuleRow(l: Line, s: Service, ds: seq<Decision>) {
    && l.title == s.name && l.moduleName == Some(s.name)
    && ( || (l.kind == ModuleLine && l.weeks == WeeksOf(s.complexity))
         || (l.kind == Integration && l.weeks == BoughtWeeksOf(s.complexity)
             && exists c :: Decision(c, Buy) in ds && IsModuleFor(c, s.name)))
  }

  // ---------- a purchase without a module ----------

  function NameOf(c: Capability): string {
    "Integrate " + match c
    case Auth => "authentication"
    case Payments => "payments"
    case Notifications => "notifications"
    case FileStorage => "file storage"
    case MapsGeo => "maps / geolocation"
    case Search => "search"
  }

  predicate IsFlatRow(l: Line, ds: seq<Decision>) {
    && l.kind == Integration && l.moduleName == None && l.weeks == Range(0.5, 1.0)
    && exists c :: Decision(c, Buy) in ds && l.title == NameOf(c)
  }

  lemma TitleIs(c: Capability)
    ensures "Integrate " + CapabilityLabel(c) == NameOf(c)
  {
  }

  lemma FlatIs(c: Capability)
    ensures FlatLine(c, EFFORT_MODEL).title == NameOf(c) && RoundRange(FlatLine(c, EFFORT_MODEL).weeks) == Range(0.5, 1.0)
  {
    hide NameOf, CapabilityLabel;
    TitleIs(c);
    HalvesStay();
  }

  // ---------- the whole estimate ----------

  predicate IsFixedRow(l: Line, title: string, weeks: Range) {
    l.kind == Fixed && l.moduleName == None && l.title == title && l.weeks == weeks
  }

  /** A part of the build, in half weeks. */
  function PartOf(build: Range, part: real): Range {
    Range(((2.0 * build.min * part + 0.5).Floor as real) / 2.0, ((2.0 * build.max * part + 0.5).Floor as real) / 2.0)
  }

  lemma PartIs(build: Range, part: real)
    ensures RoundRange(Scale(build, part)) == PartOf(build, part)
  {
    assert build.min * part * 2.0 == 2.0 * build.min * part;
    assert build.max * part * 2.0 == 2.0 * build.max * part;
  }

  lemma ModuleRowIs(l: Line, s: Service, ds: seq<Decision>)
    requires IsLineOf(l, s, ds, EFFORT_MODEL)
    ensures IsModuleRow(RoundedLine(l), s, ds)
  {
    hide Covers, IsModuleFor, WeeksOf, BoughtWeeksOf, RoundRange;
    SizesAre(s);
    if l != ModuleLineOf(s, EFFORT_MODEL) {
      var c :| IsBought(ds, c) && Covers(c, s.name);
      CoversIff(c, s.name);
    }
  }

  lemma FlatRowIs(l: Line, lines: seq<Line>, ds: seq<Decision>)
    requires IsFlatLine(l, lines, ds, EFFORT_MODEL)
    ensures IsFlatRow(RoundedLine(l), ds)
  {
    hide Covers, NameOf, CapabilityLabel, RoundRange;
    var c :| IsBought(ds, c) && l == FlatLine(c, EFFORT_MODEL) && Target(lines, c) == |lines|;
    FlatIs(c);
  }

  /** With the shipped figures: one row a service, a row for each purchase without a module, and the four fixed
      ones, a week each for setup and deployment, a fifth of the build for testing and 15 percent in reserve. */
  lemma EstimateIsWrittenOut(services: seq<Service>, ds: seq<Decision>)
    ensures var build, rows := BuildLines(services, ds, EFFORT_MODEL), EffortEstimate(services, ds, EFFORT_MODEL).lineItems;
            var n := |build|;
            && |services| <= n && |rows| == n + 4
            && (forall i :: 0 <= i < |services| ==> IsModuleRow(rows[i], services[i], ds))
            && (forall i :: |services| <= i < n ==> IsFlatRow(rows[i], ds))
            && IsFixedRow(rows[n], "Project setup", Range(1.0, 1.0))
            && IsFixedRow(rows[n + 1], "QA & testing", PartOf(Subtotal(build), 0.2))
            && IsFixedRow(rows[n + 2], "Deployment & DevOps", Range(1.0, 1.0))
            && IsFixedRow(rows[n + 3], "Contingency buffer", PartOf(Subtotal(build), 0.15))
  {
    hide IsLineOf, IsFlatLine, IsModuleRow, IsFlatRow, Subtotal, BuildLines, PartOf, Conversions, Buys;
    var build, raw := BuildLines(services, ds, EFFORT_MODEL), RawLines(services, ds, EFFORT_MODEL);
    BuyingIsOneForOne(services, ds, EFFORT_MODEL);
    HalvesStay();
    PartIs(Subtotal(build), 0.2);
    PartIs(Subtotal(build), 0.15);
    forall i | 0 <= i < |services| ensures IsModuleRow(RoundedLine(raw[i]), services[i], ds) {
      ModuleRowIs(build[i], services[i], ds);
    }
    forall i | |services| <= i < |build| ensures IsFlatRow(RoundedLine(raw[i]), ds) {
      FlatRowIs(build[i], build, ds);
    }
  }

  // ---------- who gets a module several purchases cover ----------

  lemma {:induction false} ConvertedStays(lines: seq<Line>, ds: seq<Decision>, model: EffortModel, i: nat)
    requires i < |lines| && lines[i].kind == Integration
    ensures var after := ApplyDecisions(lines, ds, model); i < |after| && after[i] == lines[i]
  {
    hide Covers, CapabilityLabel;
    if ds != [] {
      ConvertedStays(lines, ds[..|ds| - 1], model, i);
    }
  }

  lemma {:induction false} DecisionsAppend(lines: seq<Line>, a: seq<Decision>, b: seq<Decision>, model: EffortModel)
    ensures ApplyDecisions(lines, a + b, model) == ApplyDecisions(ApplyDecisions(lines, a, model), b, model)
  {
    hide ApplyDecision;
    if b == [] {
      assert a + b == a;
    } else {
      DecisionsAppend(lines, a, b[..|b| - 1], model);
      assert (a + b)[..|a + b| - 1] == a + b[..|b| - 1];
    }
  }

  /** Purchases are taken in order, and each takes the first module still to be built that it covers. */
  lemma EarlierPurchaseTakesFirst(services: seq<Service>, before: seq<Decision>, c: Capability, after: seq<Decision>, model: EffortModel, i: nat)
    requires var lines := BuildLines(services, before, model);
             && |lines| >= |services| && i < |services| && lines[i].kind == ModuleLine && services[i].name != "" && IsModuleFor(c, services[i].name)
             && forall j :: 0 <= j < i ==> lines[j].kind == Integration || !IsModuleFor(c, services[j].name)
    ensures var all := BuildLines(services, before + [Decision(c, Buy)] + after, model);
            i < |all| && all[i] == Converted(BuildLines(services, before, model)[i], model)
  {
    hide Covers, IsModuleFor, IsLineOf, IsFlatLine, Conversions, Buys, CapabilityLabel;
    var lines := BuildLines(services, before, model);
    BuyingIsOneForOne(services, before, model);
    forall j | 0 <= j <= i ensures IsConvertible(lines[j], c) <==> j == i {
      LineIsNamed(lines[j], services[j], before, model);
      CoversIff(c, services[j].name);
    }
    assert Target(lines, c) == i;
    var one := [Decision(c, Buy)];
    assert one[..0] == [];
    assert ApplyDecisions(lines, one, model) == ApplyDecision(lines, one[0], model);
    DecisionsAppend(ModuleLines(services, model), before, one, model);
    DecisionsAppend(ModuleLines(services, model), before + one, after, model);
    ConvertedStays(ApplyDecisions(lines, one, model), after, model, i);
  }

  lemma LineIsNamed(l: Line, s: Service, ds: seq<Decision>, model: EffortModel)
    requires IsLineOf(l, s, ds, model)
    ensures l.moduleName == Some(s.name) && l.kind in [ModuleLine, Integration]
  {
  }
}
