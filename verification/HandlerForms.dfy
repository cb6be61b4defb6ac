/** What a handler is called and which path it answers to, written out. */
module HandlerForms {
  import opened Text
  import opened Collections
  import opened Numerals
  import opened Schema
  import opened Handlers

  // ---------- paths ----------

  predicate IsAllowed(c: char) {
    || 'a' <= c <= 'z' || 'A' <= c <= 'Z' || '0' <= c <= '9'
    || c == '_' || c == '-' || c == '.' || c == '/' || c == ':' || c == '{' || c == '}' || c == '~'
  }

  /** Exactly the characters allowed in a path are kept. */
  lemma {:induction false} SafeIsKept(p: string)
    ensures SafePath(p) == Kept(p, (c: char) => IsAllowed(c))
  {
    if p != "" {
      SafeIsKept(p[1..]);
      assert IsSafeChar(p[0]) <==> IsAllowed(p[0]);
    }
  }

  /** `api` at the start goes, in any case and with or without a slash before it; nothing else does. */
  lemma PrefixIs(api: string, rest: string)
    requires Lower(api) == "api"
    ensures StripPrefix("/" + api + rest) == rest && StripPrefix(api + rest) == rest
  {
    var p, q := "/" + api + rest, api + rest;
    assert |api| == 3 && p[1..4] == api && p[4..] == rest && q[..3] == api && q[3..] == rest;
    assert Lower(api)[0] == 'a';
    assert q[0] == api[0] != '/' by { assert LowerChar(api[0]) == 'a'; }
  }

  lemma NoPrefix(p: string)
    requires |p| < 3 || Lower(p[..3]) != "api"
    requires |p| < 4 || p[0] != '/' || Lower(p[1..4]) != "api"
    ensures StripPrefix(p) == p
  {
  }

  lemma NothingBelow()
    ensures RelativePath("") == "" && RelativePath("/api") == ""
  {
    var api: string := "/api";
    assert SafePath(api) == api by {
      assert api[1..] == "api" && "api"[1..] == "pi" && "pi"[1..] == "i" && "i"[1..] == "";
      assert SafePath("") == "" && SafePath("i") == "i" && SafePath("pi") == "pi" && SafePath("api") == "api";
    }
    assert Lower("api") == "api" && api == "/" + "api" + "";
    PrefixIs("api", "");
    assert StripApi(api) == "" && StripApi("") == "";
    assert Split("", '/') == [""] && NonEmpty([""]) == [""][..0] + NonEmpty([""][1..]);
  }

  // ---------- parameters ----------

  /** A path without a colon has no parameter. */
  lemma {:induction false} NoParameter(s: string)
    requires ':' !in s
    ensures PathParams(s) == []
  {
    if s != "" {
      assert s[0] in s && forall c :: c in s[1..] ==> c in s;
      NoParameter(s[1..]);
    }
  }

  predicate IsNameChar(c: char) { 'a' <= c <= 'z' || 'A' <= c <= 'Z' || '0' <= c <= '9' || c == '_' }

  lemma {:induction false} WordEnds(word: string, rest: string)
    requires (forall i :: 0 <= i < |word| ==> IsNameChar(word[i])) && (rest == "" || !IsNameChar(rest[0]))
    ensures LeadingWord(word + rest) == word
  {
    if word == "" {
      assert word + rest == rest;
    } else {
      WordEnds(word[1..], rest);
      assert (word + rest)[1..] == word[1..] + rest;
      assert [word[0]] + word[1..] == word;
    }
  }

  /** The word behind a colon is a parameter, and the path goes on behind it. */
  lemma {:induction false} ParameterIs(front: string, word: string, rest: string)
    requires ':' !in front && (forall i :: 0 <= i < |word| ==> IsNameChar(word[i])) && (rest == "" || !IsNameChar(rest[0]))
    ensures PathParams(front + ":" + word + rest) == (if word == "" then [] else [word]) + PathParams(rest)
  {
    var s := front + ":" + word + rest;
    if front == "" {
      WordEnds(word, rest);
      assert s[1..] == word + rest && s[1 + |word|..] == rest;
    } else {
      assert front[0] in front && forall c :: c in front[1..] ==> c in front;
      ParameterIs(front[1..], word, rest);
      assert s[1..] == front[1..] + ":" + word + rest;
    }
  }

  // ---------- names ----------

  /** What a handler does: a read of one or of all, a creation, an update, a removal. */
  function VerbOf(verb: HttpMethod, one: bool): string {
    if verb == POST then "create"
    else if verb == DELETE then "remove"
    else if verb == PUT || verb == PATCH then "update"
    else if one then "findOne"
    else "findAll"
  }

  lemma VerbIs(e: ApiEndpoint)
    ensures BaseOf(e) == VerbOf(e.verb, PathParams(RelativePath(e.path)) != [])
  {
    hide RelativePath, PathParams;
  }

  lemma {:induction false} CountIs(es: seq<ApiEndpoint>, base: string)
    ensures CountBase(es, base) == |Kept(es, (e: ApiEndpoint) => BaseOf(e) == base)|
  {
    hide BaseOf;
    if es != [] {
      var front, last := es[..|es| - 1], es[|es| - 1];
      CountIs(front, base);
      KeptSnoc(front, last, (e: ApiEndpoint) => BaseOf(e) == base);
      assert es == front + [last];
    }
  }

  /** The first endpoint that does something is called after it; each later one adds how many do it so far. */
  lemma HandlerIs(es: seq<ApiEndpoint>, i: nat)
    requires i < |es|
    ensures var h, path := HandlerAt(es, i), RelativePath(es[i].path);
            var verb := VerbOf(es[i].verb, PathParams(path) != []);
            var before := |Kept(es[..i], (e: ApiEndpoint) => BaseOf(e) == verb)|;
            && h.endpoint == es[i] && h.subPath == path && h.params == PathParams(path)
            && h.name == if before == 0 then verb else verb + Decimal(before + 1)
  {
    hide RelativePath, PathParams, BaseOf, Decimal;
    VerbIs(es[i]);
    CountIs(es[..i], BaseOf(es[i]));
    var base := BaseOf(es[i]);
    assert base + "" == base;
  }
}
