/** Coercing an untrusted API design to a complete shape, at both boundaries it crosses. */
module Normalize {
  import opened Text
  import opened Collections
  import opened Schema
  import opened StatusCodes

  // ---------- the untrusted design: any field may be missing or of the wrong type ----------

  datatype RawEndpoint = RawEndpoint(
    verb: Option<string>, path: Option<string>, summary: Option<string>,
    requestSchema: Option<seq<SchemaField>>, responseSchema: Option<seq<SchemaField>>, statusCodes: Raw)

  datatype RawModule = RawModule(
    name: Option<string>, basePath: Option<string>, endpoints: Option<seq<RawEndpoint>>,
    coveredEntities: Option<seq<Option<string>>>, source: Option<string>)

  datatype RawExclusion = RawExclusion(entity: Option<string>, reason: Option<string>)

  datatype RawDesign = RawDesign(
    sessionId: string, generatedAt: string,
    modules: Option<seq<RawModule>>, excludedEntities: Option<seq<RawExclusion>>)

  // ---------- names of verbs and sources ----------

  function VerbName(v: HttpMethod): string {
    match v
    case GET => "GET"
    case POST => "POST"
    case PUT => "PUT"
    case PATCH => "PATCH"
    case DELETE => "DELETE"
  }

  function Upper(s: string): (r: string)
    ensures |r| == |s| && forall i :: 0 <= i < |s| ==> r[i] == UpperChar(s[i])
  {
    seq(|s|, i requires 0 <= i < |s| => UpperChar(s[i]))
  }

  function ParseVerb(raw: Option<string>): HttpMethod {
    var name := Upper(raw.GetOr(""));
    if name == "POST" then POST
    else if name == "PUT" then PUT
    else if name == "PATCH" then PATCH
    else if name == "DELETE" then DELETE
    else GET
  }

  function SourceName(s: ModuleSource): string {
    match s
    case Llm => "llm"
    case LlmRepair => "llm-repair"
    case GeneratedFallback => "generated-fallback"
  }

  function ParseSource(raw: Option<string>): Option<ModuleSource> {
    match raw
    case None => None
    case Some(s) =>
      if s == "llm" then Some(Llm)
      else if s == "llm-repair" then Some(LlmRepair)
      else if s == "generated-fallback" then Some(GeneratedFallback)
      else None
  }

  // ---------- paths ----------

  function DropTrailingSlashes(s: string): string {
    if s != "" && s[|s| - 1] == '/' then DropTrailingSlashes(s[..|s| - 1]) else s
  }

  function DropLeadingSlashes(s: string): string {
    if s != "" && s[0] == '/' then DropLeadingSlashes(s[1..]) else s
  }

  /** The last non-empty segment. */
  function LastSegment(segments: seq<string>): Option<string> {
    if segments == [] then None
    else if segments[|segments| - 1] != "" then Some(segments[|segments| - 1])
    else LastSegment(segments[..|segments| - 1])
  }

  /** The absolute form of a path under its group's base. */
  function AbsolutePath(raw: Option<string>, basePath: string): string {
    var path := Trim(raw.GetOr(""));
    if path == "" then basePath
    else if "/api" <= path then path
    else if basePath == "" then (if "/" <= path then path else "/" + path)
    else if path == "/" then basePath
    else if basePath <= path then path
    else
      var base := DropTrailingSlashes(basePath);
      var rest := Split(DropLeadingSlashes(path), '/');
      var kept := if LastSegment(Split(base, '/')) == Some(rest[0]) then rest[1..] else rest;
      if kept == [] then base else base + "/" + Join(kept, "/")
  }

  // ---------- endpoints, modules, designs ----------

  function NormalEndpoint(e: RawEndpoint, basePath: string): ApiEndpoint {
    ApiEndpoint(ParseVerb(e.verb), AbsolutePath(e.path, basePath), e.summary.GetOr(""),
                e.requestSchema.GetOr([]), e.responseSchema.GetOr([]), StatusCodesOf(e.statusCodes))
  }

  function NormalEndpoints(es: seq<RawEndpoint>, basePath: string): (r: seq<ApiEndpoint>)
    ensures |r| == |es| && forall i :: 0 <= i < |es| ==> r[i] == NormalEndpoint(es[i], basePath)
  {
    seq(|es|, i requires 0 <= i < |es| => NormalEndpoint(es[i], basePath))
  }

  function RouteOf(e: ApiEndpoint): string { VerbName(e.verb) + " " + e.path }

  function NameOf(m: ApiModule): string { m.name }

  function PresentNames(names: seq<Option<string>>): seq<string> {
    if names == [] then []
    else (if names[0].Some? && Trim(names[0].value) != "" then [names[0].value] else []) + PresentNames(names[1..])
  }

  function NormalModule(m: RawModule): ApiModule {
    var basePath := m.basePath.GetOr("");
    ApiModule(m.name.GetOr(""), basePath,
              DedupedBy(NormalEndpoints(m.endpoints.GetOr([]), basePath), RouteOf),
              if m.coveredEntities.Some? then Some(PresentNames(m.coveredEntities.value)) else None,
              ParseSource(m.source))
  }

  function NormalModules(ms: seq<RawModule>): (r: seq<ApiModule>)
    ensures |r| == |ms| && forall i :: 0 <= i < |ms| ==> r[i] == NormalModule(ms[i])
  {
    seq(|ms|, i requires 0 <= i < |ms| => NormalModule(ms[i]))
  }

  predicate IsShaped(e: RawExclusion) {
    e.entity.Some? && Trim(e.entity.value) != "" && e.reason.Some? && Trim(e.reason.value) != ""
  }

  function NormalExclusions(es: seq<RawExclusion>): (r: seq<ExcludedEntity>)
    ensures forall i :: 0 <= i < |r| ==> Trim(r[i].reason) != "" && Trim(r[i].entity) != ""
  {
    if es == [] then []
    else
      var rest := NormalExclusions(es[1..]);
      if IsShaped(es[0]) then
        TrimIdempotent(es[0].entity.value);
        TrimIdempotent(es[0].reason.value);
        [ExcludedEntity(Trim(es[0].entity.value), Trim(es[0].reason.value))] + rest
      else rest
  }

  function NormalDesign(d: RawDesign): ApiDesign {
    ApiDesign(d.sessionId, d.generatedAt, DedupedBy(NormalModules(d.modules.GetOr([])), NameOf),
              if d.excludedEntities.Some? then Some(NormalExclusions(d.excludedEntities.value)) else None)
  }

  method NormalizeApiModule(m: RawModule) returns (r: ApiModule)
    ensures r == NormalModule(m)
  {
    var basePath := m.basePath.GetOr("");
    var endpoints := DedupeBy(NormalEndpoints(m.endpoints.GetOr([]), basePath), RouteOf);
    r := ApiModule(m.name.GetOr(""), basePath, endpoints, None, None);
    if m.coveredEntities.Some? {
      r := r.(coveredEntities := Some(PresentNames(m.coveredEntities.value)));
    }
    if ParseSource(m.source).Some? {
      r := r.(source := ParseSource(m.source));
    }
  }

  method NormalizeApiDesign(d: RawDesign) returns (r: ApiDesign)
    ensures r == NormalDesign(d)
  {
    hide NormalModule, NormalExclusions;
    var raw, ms := d.modules.GetOr([]), [];
    for i := 0 to |raw|
      invariant ms == NormalModules(raw)[..i]
    {
      var m := NormalizeApiModule(raw[i]);
      ms := ms + [m];
    }
    assert ms == NormalModules(raw);
    ms := DedupeBy(ms, NameOf);
    r := ApiDesign(d.sessionId, d.generatedAt, ms, None);
    if d.excludedEntities.Some? {
      r := r.(excludedEntities := Some(NormalExclusions(d.excludedEntities.value)));
    }
  }

  // ---------- a stored design, read back ----------

  function RawOfEndpoint(e: ApiEndpoint): RawEndpoint {
    RawEndpoint(Some(VerbName(e.verb)), Some(e.path), Some(e.summary),
                Some(e.requestSchema), Some(e.responseSchema), AsRaw(e.statusCodes))
  }

  function RawOfModule(m: ApiModule): RawModule {
    var claims := m.Claims();
    RawModule(Some(m.name), Some(m.basePath),
              Some(seq(|m.endpoints|, i requires 0 <= i < |m.endpoints| => RawOfEndpoint(m.endpoints[i]))),
              if m.coveredEntities.Some? then Some(seq(|claims|, i requires 0 <= i < |claims| => Some(claims[i]))) else None,
              if m.source.Some? then Some(SourceName(m.source.value)) else None)
  }

  function RawOfExclusions(es: seq<ExcludedEntity>): seq<RawExclusion> {
    seq(|es|, i requires 0 <= i < |es| => RawExclusion(Some(es[i].entity), Some(es[i].reason)))
  }

  function RawOfModules(ms: seq<ApiModule>): (r: seq<RawModule>)
    ensures |r| == |ms| && forall i :: 0 <= i < |ms| ==> r[i] == RawOfModule(ms[i])
  {
    seq(|ms|, i requires 0 <= i < |ms| => RawOfModule(ms[i]))
  }

  function RawOfDesign(d: ApiDesign): RawDesign {
    RawDesign(d.sessionId, d.generatedAt, Some(RawOfModules(d.modules)),
              if d.excludedEntities.Some? then Some(RawOfExclusions(d.excludedEntities.value)) else None)
  }

  // ---------- what normalizing guarantees ----------

  predicate CleanEndpoints(es: seq<ApiEndpoint>) {
    DistinctKeys(es, RouteOf) && forall i :: 0 <= i < |es| ==> Clean(es[i].statusCodes)
  }

  lemma NormalModuleIsClean(m: RawModule)
    ensures CleanEndpoints(NormalModule(m).endpoints)
  {
    hide Clean, RouteOf, Fold, StatusCodesOf;
    var es := NormalEndpoints(m.endpoints.GetOr([]), m.basePath.GetOr(""));
    DedupedByDistinct(es, RouteOf);
    var out := NormalModule(m).endpoints;
    forall i | 0 <= i < |out| ensures Clean(out[i].statusCodes) {
      var j := DedupedByKeepsFirsts(es, RouteOf, i);
      StatusCodesClean(m.endpoints.GetOr([])[j].statusCodes);
    }
  }

  /** No route repeats within a group, no group name repeats, every exclusion has a reason,
      and every status code is a distinct HTTP integer. */
  lemma NormalDesignIsClean(d: RawDesign)
    ensures var r := NormalDesign(d);
            && DistinctKeys(r.modules, NameOf)
            && (forall i :: 0 <= i < |r.modules| ==> CleanEndpoints(r.modules[i].endpoints))
            && (forall i :: 0 <= i < |r.Exclusions()| ==> Trim(r.Exclusions()[i].reason) != "")
  {
    hide CleanEndpoints, NormalModule, Fold, Trim;
    var ms := NormalModules(d.modules.GetOr([]));
    DedupedByDistinct(ms, NameOf);
    forall i | 0 <= i < |NormalDesign(d).modules| ensures CleanEndpoints(NormalDesign(d).modules[i].endpoints) {
      var j := DedupedByKeepsFirsts(ms, NameOf, i);
      NormalModuleIsClean(d.modules.GetOr([])[j]);
    }
  }

  lemma {:induction false} DropTrailingKeepsFront(s: string)
    requires s != "" && s[0] == '/'
    ensures DropTrailingSlashes(s) <= s
    ensures "/api" <= s ==> "/api" <= DropTrailingSlashes(s)
  {
    if s[|s| - 1] == '/' && |s| > 1 {
      DropTrailingKeepsFront(s[..|s| - 1]);
      if "/api" <= s {
        assert s[3] == "/api"[3];
        assert |s| > 4;
        assert s[..4] == s[..|s| - 1][..4];
      }
    }
  }

  /** Under a base below `/api`, every endpoint path ends up below `/api`. */
  lemma PathsBecomeAbsolute(raw: Option<string>, basePath: string)
    requires "/api" <= basePath
    ensures "/api" <= AbsolutePath(raw, basePath)
  {
    hide Trim, Split, LastSegment, DropLeadingSlashes, Join;
    assert basePath[0] == "/api"[0];
    DropTrailingKeepsFront(basePath);
  }

  /** Visible at the end, if not empty. */
  predicate EndsVisible(s: string) { s == "" || !IsSpace(s[|s| - 1]) }

  lemma {:induction false} DropLeadingEndsVisible(s: string)
    requires EndsVisible(s)
    ensures EndsVisible(DropLeadingSlashes(s))
  {
    if s != "" && s[0] == '/' {
      DropLeadingEndsVisible(s[1..]);
    }
  }

  lemma KeptEndsVisible(path: string, drop: bool)
    requires EndsVisible(path)
    ensures var rest := Split(path, '/'); var kept := if drop then rest[1..] else rest;
            EndsVisible(Join(kept, "/"))
  {
    hide Split, IsSpace;
    var rest := Split(path, '/');
    JoinSplit(path, '/');
    if drop && |rest| > 1 {
      var tail := Join(rest[1..], "/");
      assert Join(rest, "/") == rest[0] + "/" + tail;
      if tail != "" { assert path[|path| - 1] == tail[|tail| - 1]; }
    }
  }

  lemma SlashIsVisible()
    ensures !IsSpace('/')
  {
  }

  lemma SplitVersioned()
    ensures Split("/v/o", '/') == ["", "v", "o"] && Split("v/o", '/') == ["v", "o"] && Split("o", '/') == ["o"]
    ensures LastSegment(["", "v", "o"]) == Some("o") && DropTrailingSlashes("/v/o/") == "/v/o"
  {
    var v: string, o: string := "v", "o";
    assert "v/o" == v + ['/'] + o && "/v/o" == "" + ['/'] + "v/o";
    SplitNone(o, '/');
    SplitPrefix(v, '/', o);
    SplitPrefix("", '/', "v/o");
    assert ("/v/o/")[..4] == "/v/o";
    assert DropTrailingSlashes("/v/o") == "/v/o";
  }

  /** A base with a trailing slash is not a fixed point: the path of the collection itself is
      joined to its base a second time when the stored design is read back. */
  lemma TrailingSlashDoublesThePath()
    ensures var once := AbsolutePath(Some("o"), "/v/o/");
            once == "/v/o" && AbsolutePath(Some(once), "/v/o/") == "/v/o/v/o"
  {
    hide Split, LastSegment, DropTrailingSlashes, Trim;
    SplitVersioned();
    TrimOfTrimmed("o");
    TrimOfTrimmed("/v/o");
    assert DropLeadingSlashes("o") == "o";
    assert ("/v/o")[1..] == "v/o" && DropLeadingSlashes("v/o") == "v/o";
    assert DropLeadingSlashes("/v/o") == "v/o";
    var rest: seq<string> := ["v", "o"];
    assert ["o"][1..] == [] && rest[1..] == ["o"];
    assert Join(rest, "/") == "v" + "/" + Join(["o"], "/") == "v/o";
    assert !("/v/o/" <= "o") && !("/v/o/" <= "/v/o");
    assert !("/api" <= "o") && "/v/o"[1] != "/api"[1] && !("/api" <= "/v/o");
  }
}
