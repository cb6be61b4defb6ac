/** What normalizing makes of each part of an untrusted design, written out. */
module NormalForms {
  import opened Text
  import opened Segments
  import opened Collections
  import opened Schema
  import opened StatusCodes
  import opened Normalize

  // ---------- verbs and sources ----------

  lemma UpperIff(s: string, name: string)
    requires forall c :: c in name ==> 'A' <= c <= 'Z'
    ensures Upper(s) == name <==> Lower(s) == Lower(name)
  {
    if |s| == |name| {
      forall i | 0 <= i < |s| ensures Upper(s)[i] == name[i] <==> Lower(s)[i] == Lower(name)[i] {
        assert name[i] in name;
      }
      assert Upper(s) == name ==> forall i :: 0 <= i < |s| ==> Upper(s)[i] == name[i];
      assert Lower(s) == Lower(name) ==> forall i :: 0 <= i < |s| ==> Lower(s)[i] == Lower(name)[i];
    }
  }

  lemma LowerNames()
    ensures Lower("POST") == "post" && Lower("PUT") == "put" && Lower("PATCH") == "patch" && Lower("DELETE") == "delete"
  {
  }

  /** A verb in any case is that verb; anything else, and a missing one, is a GET. */
  lemma VerbIs(raw: Option<string>)
    ensures ParseVerb(raw) ==
              if raw.Some? && Lower(raw.value) == "post" then POST
              else if raw.Some? && Lower(raw.value) == "put" then PUT
              else if raw.Some? && Lower(raw.value) == "patch" then PATCH
              else if raw.Some? && Lower(raw.value) == "delete" then DELETE
              else GET
  {
    hide Lower;
    LowerNames();
    var text := raw.GetOr("");
    UpperIff(text, "POST");
    UpperIff(text, "PUT");
    UpperIff(text, "PATCH");
    UpperIff(text, "DELETE");
  }

  /** The three places a group may come from, by their stored names; any other name is dropped. */
  lemma SourceIs(raw: Option<string>)
    ensures ParseSource(raw) == Some(Llm) <==> raw == Some("llm")
    ensures ParseSource(raw) == Some(LlmRepair) <==> raw == Some("llm-repair")
    ensures ParseSource(raw) == Some(GeneratedFallback) <==> raw == Some("generated-fallback")
  {
  }

  // ---------- paths ----------

  /** Slashes only. */
  predicate AreSlashes(s: string) { forall i :: 0 <= i < |s| ==> s[i] == '/' }

  lemma {:induction false} LeadingDropped(slashes: string, path: string)
    requires AreSlashes(slashes) && (path == "" || path[0] != '/')
    ensures DropLeadingSlashes(slashes + path) == path
  {
    if slashes == "" {
      assert slashes + path == path;
    } else {
      LeadingDropped(slashes[1..], path);
      assert (slashes + path)[1..] == slashes[1..] + path;
    }
  }

  lemma {:induction false} TrailingDropped(base: string, slashes: string)
    requires AreSlashes(slashes) && (base == "" || base[|base| - 1] != '/')
    ensures DropTrailingSlashes(base + slashes) == base
  {
    if slashes == "" {
      assert base + slashes == base;
    } else {
      TrailingDropped(base, slashes[..|slashes| - 1]);
      assert (base + slashes)[..|base + slashes| - 1] == base + slashes[..|slashes| - 1];
    }
  }

  /** No path is the base; an absolute one, or one below the base, stays; without a base a path starts at the root. */
  lemma PathIs(raw: Option<string>, basePath: string)
    ensures var path, once := Trim(raw.GetOr("")), AbsolutePath(raw, basePath);
            && (path == "" ==> once == basePath)
            && (path != "" && "/api" <= path ==> once == path)
            && (path != "" && !("/api" <= path) && basePath == "" ==> once == if path[0] == '/' then path else "/" + path)
            && (path != "" && !("/api" <= path) && basePath != "" && path == "/" ==> once == basePath)
            && (path != "" && !("/api" <= path) && basePath != "" && path != "/" && basePath <= path ==> once == path)
  {
    hide Trim, Split, LastSegment, DropLeadingSlashes, DropTrailingSlashes, Join;
  }

  lemma {:induction false} LastPiece(stem: string, resource: string)
    requires '/' !in resource
    ensures var pieces := Split(stem + "/" + resource, '/'); |pieces| >= 2 && pieces[|pieces| - 1] == resource
  {
    var s := stem + "/" + resource;
    if stem == "" {
      assert s[1..] == resource;
      SplitNone(resource, '/');
    } else {
      LastPiece(stem[1..], resource);
      assert s[1..] == stem[1..] + "/" + resource;
    }
  }

  /** A path relative to the base of its group is put below the base; one that repeats the resource the base ends
      in is put in its place. */
  lemma RelativeIsJoined(stem: string, resource: string, trailing: string, leading: string, rest: string)
    requires resource != "" && '/' !in resource && AreSlashes(trailing) && AreSlashes(leading)
    requires rest != "" && rest[0] != '/' && IsTrimmed(leading + rest)
    requires var base := stem + "/" + resource + trailing; !("/api" <= leading + rest) && !(base <= leading + rest)
    ensures AbsolutePath(Some(leading + rest), stem + "/" + resource + trailing) ==
              stem + "/" + (if rest == resource || resource + "/" <= rest then rest else resource + "/" + rest)
  {
    hide Trim, Split, DropLeadingSlashes, DropTrailingSlashes, IsSegmentAt;
    var path, full, base := leading + rest, stem + "/" + resource + trailing, stem + "/" + resource;
    TrimOfTrimmed(path);
    LeadingDropped(leading, rest);
    assert base[|base| - 1] == resource[|resource| - 1] && resource[|resource| - 1] in resource;
    TrailingDropped(base, trailing);
    LastPiece(stem, resource);
    assert LastSegment(Split(base, '/')) == Some(resource);
    JoinSplit(rest, '/');
    FirstSegment(rest, resource);
    SegmentStart(rest, resource);
    var pieces := Split(rest, '/');
    assert path != "/";
    if rest == resource {
      SplitNone(resource, '/');
    } else if resource + "/" <= rest {
      var tail := rest[|resource| + 1..];
      assert rest == resource + ['/'] + tail;
      SplitPrefix(resource, '/', tail);
      JoinSplit(tail, '/');
      assert base + "/" + tail == stem + "/" + rest;
    } else {
      assert base + "/" + rest == stem + "/" + (resource + "/" + rest);
    }
  }

  lemma SegmentStart(rest: string, resource: string)
    ensures IsSegmentAt(rest, resource, 0) <==> rest == resource || resource + "/" <= rest
  {
    if |resource| <= |rest| {
      assert rest[0..0 + |resource|] == rest[..|resource|];
    }
    if IsSegmentAt(rest, resource, 0) && |resource| < |rest| {
      assert rest[..|resource| + 1] == resource + "/";
    }
    if resource + "/" <= rest {
      assert rest[..|resource|] == (resource + "/")[..|resource|];
    }
  }

  // ---------- endpoints and groups ----------

  /** Whatever is missing is empty, the path is made absolute and the codes are cleaned. */
  lemma EndpointIs(raw: RawEndpoint, basePath: string)
    ensures var e := NormalEndpoint(raw, basePath);
            && e.verb == ParseVerb(raw.verb) && e.path == AbsolutePath(raw.path, basePath)
            && e.summary == (if raw.summary.Some? then raw.summary.value else "")
            && e.requestSchema == (if raw.requestSchema.Some? then raw.requestSchema.value else [])
            && e.responseSchema == (if raw.responseSchema.Some? then raw.responseSchema.value else [])
            && e.statusCodes == StatusCodesOf(raw.statusCodes)
  {
  }

  predicate IsName(raw: Option<string>) { raw.Some? && Trim(raw.value) != "" }

  lemma {:induction false} NamesPresent(names: seq<Option<string>>)
    ensures var kept := Kept(names, (n: Option<string>) => IsName(n));
            |PresentNames(names)| == |kept| && forall i :: 0 <= i < |kept| ==> kept[i] == Some(PresentNames(names)[i])
  {
    hide Trim;
    if names != [] {
      NamesPresent(names[1..]);
    }
  }

  /** The claims of a group are the names among them; a group that claims nothing at all says so by their absence. */
  lemma GroupIs(raw: RawModule)
    ensures var m := NormalModule(raw);
            && m.name == (if raw.name.Some? then raw.name.value else "")
            && m.basePath == (if raw.basePath.Some? then raw.basePath.value else "")
            && (m.coveredEntities.Some? <==> raw.coveredEntities.Some?)
            && m.source == ParseSource(raw.source)
            && (raw.endpoints.None? ==> m.endpoints == [])
  {
    hide ParseSource, PresentNames, NormalEndpoint, Fold;
  }

  lemma ClaimsAre(raw: RawModule)
    requires raw.coveredEntities.Some?
    ensures var kept, claims := Kept(raw.coveredEntities.value, (n: Option<string>) => IsName(n)), NormalModule(raw).Claims();
            |claims| == |kept| && forall i :: 0 <= i < |kept| ==> kept[i] == Some(claims[i])
  {
    hide ParseSource, PresentNames, IsName, NormalEndpoint, Fold;
    NamesPresent(raw.coveredEntities.value);
  }

  /** An exclusion is kept when it names a table and gives a reason, both without the white space around them. */
  predicate IsComplete(raw: RawExclusion) { IsName(raw.entity) && IsName(raw.reason) }

  lemma {:induction false} ExclusionsAre(raw: seq<RawExclusion>)
    ensures var kept, es := Kept(raw, (x: RawExclusion) => IsComplete(x)), NormalExclusions(raw);
            && |es| == |kept|
            && forall i :: 0 <= i < |kept| ==>
                 kept[i].entity.Some? && kept[i].reason.Some?
                 && es[i] == ExcludedEntity(Trim(kept[i].entity.value), Trim(kept[i].reason.value))
  {
    hide Trim;
    if raw != [] {
      ExclusionsAre(raw[1..]);
    }
  }

  /** The design keeps its identity, and has exclusions exactly when it came with some list of them. */
  lemma DesignIs(raw: RawDesign)
    ensures var d := NormalDesign(raw);
            && d.sessionId == raw.sessionId && d.generatedAt == raw.generatedAt
            && (raw.modules.None? ==> d.modules == [])
            && d.excludedEntities == (if raw.excludedEntities.Some? then Some(NormalExclusions(raw.excludedEntities.value)) else None)
  {
    hide NormalModule, NormalExclusions, Fold;
  }
}
