/** Naming the handlers of a generated controller, and the paths they answer to. */
module Handlers {
  import opened Text
  import opened Numerals
  import opened Schema

  // ---------- paths ----------

  predicate IsSafeChar(c: char) {
    'A' <= c <= 'Z' || 'a' <= c <= 'z' || '0' <= c <= '9' || c in ['_', '-', '.', '/', ':', '{', '}', '~']
  }

  function SafePath(p: string): string {
    if p == "" then "" else (if IsSafeChar(p[0]) then [p[0]] else []) + SafePath(p[1..])
  }

  function StripPrefix(p: string): string {
    if |p| >= 4 && p[0] == '/' && Lower(p[1..4]) == "api" then p[4..]
    else if |p| >= 3 && Lower(p[..3]) == "api" then p[3..]
    else p
  }

  function StripLeading(p: string): string {
    if p != "" && p[0] == '/' then StripLeading(p[1..]) else p
  }

  function StripTrailing(p: string): string {
    if p != "" && p[|p| - 1] == '/' then StripTrailing(p[..|p| - 1]) else p
  }

  /** The path without `/api` and without slashes at either end. */
  function StripApi(p: string): string { StripTrailing(StripLeading(StripPrefix(SafePath(p)))) }

  function NonEmpty(parts: seq<string>): seq<string> {
    if parts == [] then [] else (if parts[0] == "" then [] else [parts[0]]) + NonEmpty(parts[1..])
  }

  /** The path below the resource, which is the controller's own base. */
  function RelativePath(p: string): string {
    var segments := NonEmpty(Split(StripApi(p), '/'));
    if segments == [] then "" else Join(segments[1..], "/")
  }

  function LeadingWord(s: string): (r: string)
    ensures r <= s
  {
    if s != "" && IsWordChar(s[0]) then [s[0]] + LeadingWord(s[1..]) else ""
  }

  /** The names after a colon, in order. */
  function PathParams(s: string): seq<string>
    decreases |s|
  {
    if s == "" then []
    else if s[0] == ':' && LeadingWord(s[1..]) != "" then
      [LeadingWord(s[1..])] + PathParams(s[1 + |LeadingWord(s[1..])|..])
    else PathParams(s[1..])
  }

  // ---------- names ----------

  function BaseName(verb: HttpMethod, hasId: bool): string {
    match verb
    case GET => if hasId then "findOne" else "findAll"
    case POST => "create"
    case PUT => "update"
    case PATCH => "update"
    case DELETE => "remove"
  }

  function BaseOf(e: ApiEndpoint): string { BaseName(e.verb, PathParams(RelativePath(e.path)) != []) }

  datatype Handler = Handler(endpoint: ApiEndpoint, name: string, subPath: string, params: seq<string>)

  /** How many of these endpoints have this base name. */
  function CountBase(es: seq<ApiEndpoint>, base: string): nat {
    if es == [] then 0
    else CountBase(es[..|es| - 1], base) + (if BaseOf(es[|es| - 1]) == base then 1 else 0)
  }

  /** The counter form: the first endpoint of a base carries it bare, the k-th adds k. */
  function HandlerAt(es: seq<ApiEndpoint>, i: nat): Handler
    requires i < |es|
  {
    var sub := RelativePath(es[i].path);
    Handler(es[i], Candidate(BaseOf(es[i]), "", CountBase(es[..i], BaseOf(es[i])) + 1), sub, PathParams(sub))
  }

  predicate DigitFree(s: string) { forall i :: 0 <= i < |s| ==> !IsDigit(s[i]) }

  lemma BasesAreDigitFree(e: ApiEndpoint)
    ensures DigitFree(BaseOf(e))
  {
    hide RelativePath, PathParams;
  }

  /** Numbered names of different bases never meet. */
  lemma BasesNeverMeet(a: string, b: string, j: nat, k: nat)
    requires DigitFree(a) && DigitFree(b) && a != b
    ensures Candidate(a, "", j) != Candidate(b, "", k)
  {
    hide Decimal;
    var x, y := Candidate(a, "", j), Candidate(b, "", k);
    assert a == x[..|a|] && b == y[..|b|];
    if |a| < |b| {
      LongerBaseDiffers(a, b, j, k);
    } else if |b| < |a| {
      LongerBaseDiffers(b, a, k, j);
    }
  }

  lemma LongerBaseDiffers(a: string, b: string, j: nat, k: nat)
    requires DigitFree(b) && |a| < |b|
    ensures Candidate(a, "", j) != Candidate(b, "", k)
  {
    hide Decimal;
    var x, y := Candidate(a, "", j), Candidate(b, "", k);
    if j > 1 {
      assert x[|a|] == Decimal(j)[0];
      assert y[|a|] == b[|a|];
    }
  }

  /** The names given out so far: for each base, its first so many candidates. */
  predicate IsGiven(name: string, es: seq<ApiEndpoint>) {
    exists i :: 0 <= i < |es| && name == HandlerAt(es, i).name
  }

  lemma {:induction false} CandidatesGiven(es: seq<ApiEndpoint>, base: string, k: nat) returns (i: nat)
    requires 1 <= k <= CountBase(es, base)
    ensures i < |es| && HandlerAt(es, i).name == Candidate(base, "", k)
  {
    hide BaseOf, Candidate, RelativePath, PathParams;
    var n := |es| - 1;
    if BaseOf(es[n]) == base && CountBase(es[..n], base) + 1 == k {
      i := n;
    } else {
      i := CandidatesGiven(es[..n], base, k);
      assert es[..n][..i] == es[..i];
    }
  }

  lemma {:induction false} CountGrows(es: seq<ApiEndpoint>, i: nat, base: string)
    requires i <= |es|
    ensures CountBase(es[..i], base) <= CountBase(es, base)
  {
    hide BaseOf;
    if i == |es| {
      assert es[..i] == es;
    } else {
      var front := es[..|es| - 1];
      CountGrows(front, i, base);
      assert front[..i] == es[..i];
    }
  }

  lemma CountPassed(es: seq<ApiEndpoint>, i: nat)
    requires i < |es|
    ensures CountBase(es[..i], BaseOf(es[i])) < CountBase(es, BaseOf(es[i]))
  {
    assert es[..i + 1][..i] == es[..i];
    CountGrows(es, i + 1, BaseOf(es[i]));
  }

  /** The next candidate of a base has not been given out. */
  lemma NextIsFree(es: seq<ApiEndpoint>, base: string, i: nat)
    requires i < |es| && DigitFree(base)
    ensures HandlerAt(es, i).name != Candidate(base, "", CountBase(es, base) + 1)
  {
    hide BaseOf, Decimal, Candidate, PathParams, RelativePath;
    var own := BaseOf(es[i]);
    BasesAreDigitFree(es[i]);
    if own == base {
      CountPassed(es, i);
      CandidatesDiffer(base, "", CountBase(es[..i], base) + 1, CountBase(es, base) + 1);
    } else {
      BasesNeverMeet(own, base, CountBase(es[..i], own) + 1, CountBase(es, base) + 1);
    }
  }

  /** Searching for a free name finds the counter form. */
  lemma SearchIsCounter(es: seq<ApiEndpoint>, used: set<string>, e: ApiEndpoint)
    requires forall name :: name in used <==> IsGiven(name, es)
    ensures FreeIndex(BaseOf(e), "", used, 1) == CountBase(es, BaseOf(e)) + 1
  {
    hide BaseOf, Candidate, HandlerAt, FreeIndex;
    var base := BaseOf(e);
    var next := CountBase(es, base) + 1;
    BasesAreDigitFree(e);
    forall i | 0 <= i < |es| ensures HandlerAt(es, i).name != Candidate(base, "", next) {
      NextIsFree(es, base, i);
    }
    forall k | 1 <= k < next ensures Candidate(base, "", k) in used {
      var i := CandidatesGiven(es, base, k);
    }
    FirstFreeIsUnique(base, "", used, next);
  }

  method AssignHandlers(es: seq<ApiEndpoint>) returns (hs: seq<Handler>)
    ensures |hs| == |es| && forall i :: 0 <= i < |es| ==> hs[i] == HandlerAt(es, i)
  {
    hide BaseName, RelativePath, PathParams, Candidate, FreeIndex, CountBase;
    var used: set<string> := {};
    hs := [];
    for i := 0 to |es|
      invariant |hs| == i && forall k :: 0 <= k < i ==> hs[k] == HandlerAt(es, k)
      invariant forall name :: name in used <==> IsGiven(name, es[..i])
    {
      var subPath := RelativePath(es[i].path);
      var params := PathParams(subPath);
      SearchIsCounter(es[..i], used, es[i]);
      var name := PickFreeName(BaseName(es[i].verb, |params| > 0), "", used);
      GivenGrows(es, i);
      used := used + {name};
      hs := hs + [Handler(es[i], name, subPath, params)];
    }
  }

  lemma GivenGrows(es: seq<ApiEndpoint>, i: nat)
    requires i < |es|
    ensures forall name :: IsGiven(name, es[..i + 1]) <==> IsGiven(name, es[..i]) || name == HandlerAt(es, i).name
  {
    hide BaseOf, RelativePath, PathParams, Candidate, CountBase;
    var more, fewer := es[..i + 1], es[..i];
    forall k | 0 <= k <= i ensures HandlerAt(more, k) == HandlerAt(es, k) {
      assert more[..k] == es[..k];
    }
    forall k | 0 <= k < i ensures HandlerAt(fewer, k) == HandlerAt(es, k) {
      assert fewer[..k] == es[..k];
    }
    forall name | IsGiven(name, fewer) ensures IsGiven(name, more) {
      var k :| 0 <= k < |fewer| && name == HandlerAt(fewer, k).name;
      assert name == HandlerAt(more, k).name;
    }
    assert HandlerAt(more, i).name == HandlerAt(es, i).name;
    forall name | IsGiven(name, more) && name != HandlerAt(es, i).name ensures IsGiven(name, fewer) {
      var k :| 0 <= k < |more| && name == HandlerAt(more, k).name;
      assert name == HandlerAt(fewer, k).name;
    }
  }

  /** No two handlers of a module share a name. */
  lemma HandlerNamesAreDistinct(es: seq<ApiEndpoint>, i: nat, j: nat)
    requires i < j < |es|
    ensures HandlerAt(es, i).name != HandlerAt(es, j).name
  {
    hide BaseOf, RelativePath, PathParams, Candidate, CountBase;
    BasesAreDigitFree(es[j]);
    NextIsFree(es[..j], BaseOf(es[j]), i);
    assert es[..j][..i] == es[..i];
  }

  // ---------- the path is what stands below the resource ----------

  predicate IsSegment(s: string) {
    s != "" && forall c :: c in s ==> IsSafeChar(c) && c != '/'
  }

  predicate AreSegments(parts: seq<string>) { forall i :: 0 <= i < |parts| ==> IsSegment(parts[i]) }

  lemma {:induction false} SafePathKeeps(p: string)
    requires forall c :: c in p ==> IsSafeChar(c)
    ensures SafePath(p) == p
  {
    if p != "" {
      assert p[0] in p;
      SafePathKeeps(p[1..]);
      assert [p[0]] + p[1..] == p;
    }
  }

  lemma {:induction false} JoinIsSafe(parts: seq<string>)
    requires AreSegments(parts)
    ensures forall c :: c in Join(parts, "/") ==> IsSafeChar(c)
    ensures parts != [] ==> var j := Join(parts, "/"); j != "" && j[0] != '/' && j[|j| - 1] != '/'
  {
    if |parts| == 1 {
      EndsAreNotSlashes(parts[0]);
    } else if parts != [] {
      JoinIsSafe(parts[1..]);
      EndsAreNotSlashes(parts[0]);
      var rest := Join(parts[1..], "/");
      var all := Join(parts, "/");
      assert all == parts[0] + "/" + rest;
      assert all[|all| - 1] == rest[|rest| - 1];
      forall c | c in all ensures IsSafeChar(c) {
        assert c in parts[0] || c == '/' || c in rest;
      }
    }
  }

  lemma EndsAreNotSlashes(s: string)
    requires IsSegment(s)
    ensures s[0] != '/' && s[|s| - 1] != '/'
  {
    assert s[0] in s && s[|s| - 1] in s;
  }

  lemma {:induction false} SplitJoin(parts: seq<string>)
    requires AreSegments(parts) && parts != []
    ensures Split(Join(parts, "/"), '/') == parts
  {
    hide IsSafeChar;
    assert '/' !in parts[0];
    if |parts| == 1 {
      SplitNone(parts[0], '/');
    } else {
      SplitJoin(parts[1..]);
      SplitPrefix(parts[0], '/', Join(parts[1..], "/"));
      assert Join(parts, "/") == parts[0] + ['/'] + Join(parts[1..], "/");
    }
  }

  lemma {:induction false} NonEmptyKeeps(parts: seq<string>)
    requires AreSegments(parts)
    ensures NonEmpty(parts) == parts
  {
    if parts != [] {
      NonEmptyKeeps(parts[1..]);
    }
  }

  /** Below `/api/<resource>` the handler answers to exactly the remaining segments. */
  lemma RelativePathIsTheRest(resource: string, rest: seq<string>)
    requires IsSegment(resource) && AreSegments(rest)
    ensures RelativePath("/api/" + Join([resource] + rest, "/")) == Join(rest, "/")
  {
    hide Split, Join, SafePath;
    var parts := [resource] + rest;
    var j := Join(parts, "/");
    var p := "/api/" + j;
    JoinIsSafe(parts);
    SafePathKeeps(p);
    assert p[1..4] == "api" && Lower("api") == "api";
    assert p[4..] == "/" + j;
    assert StripPrefix(p) == "/" + j;
    assert ("/" + j)[1..] == j;
    assert StripLeading("/" + j) == StripLeading(j) == j;
    assert StripTrailing(j) == j;
    SplitJoin(parts);
    NonEmptyKeeps(parts);
    assert parts[1..] == rest;
  }
}
