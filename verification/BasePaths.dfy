/** Which base paths survive being normalized twice. */
module BasePaths {
  import opened Text
  import opened Collections
  import opened Normalize

  predicate IsStable(raw: Option<string>, base: string) {
    AbsolutePath(Some(AbsolutePath(raw, base)), base) == AbsolutePath(raw, base)
  }

  // ---------- the shape of an absolute path ----------

  /** A path that is neither absolute nor below its base, so that the two are joined. */
  predicate IsJoined(path: string, base: string) {
    && IsTrimmed(path) && path != "" && path != "/" && !("/api" <= path)
    && base != "" && !(base <= path)
  }

  /** What is left of the path once it stops repeating the last segment of the stem. */
  function KeptPieces(path: string, stem: string): seq<string> {
    var rest := Split(DropLeadingSlashes(path), '/');
    if LastSegment(Split(stem, '/')) == Some(rest[0]) then rest[1..] else rest
  }

  function Onto(stem: string, kept: seq<string>): string {
    if kept == [] then stem else stem + "/" + Join(kept, "/")
  }

  lemma JoinedForm(path: string, base: string)
    requires IsJoined(path, base)
    ensures AbsolutePath(Some(path), base) == Onto(DropTrailingSlashes(base), KeptPieces(path, DropTrailingSlashes(base)))
  {
    hide Trim, Split, LastSegment, DropLeadingSlashes, DropTrailingSlashes, Join;
    TrimOfTrimmed(path);
  }

  /** The base itself, a path kept as it is, or the two joined. */
  lemma AbsoluteCases(raw: Option<string>, base: string)
    requires base != ""
    ensures var path, once, stem := Trim(raw.GetOr("")), AbsolutePath(raw, base), DropTrailingSlashes(base);
            && IsTrimmed(path)
            && (|| once == base
                || (once == path && path != "" && path != "/" && ("/api" <= path || base <= path))
                || (IsJoined(path, base) && once == Onto(stem, KeptPieces(path, stem))))
  {
    hide Trim, Split, LastSegment, DropLeadingSlashes, DropTrailingSlashes, Join, IsTrimmed;
    TrimIsTrimmed(raw.GetOr(""));
  }

  lemma AbsoluteFixed(path: string, base: string)
    requires IsTrimmed(path) && path != ""
    requires "/api" <= path || (base == "" && "/" <= path) || (base != "" && (path == "/" ==> base == "/") && base <= path)
    ensures AbsolutePath(Some(path), base) == path
  {
    hide Trim, Split, LastSegment, DropLeadingSlashes, DropTrailingSlashes, Join, IsTrimmed;
    TrimOfTrimmed(path);
  }

  // ---------- pieces of a base ----------

  lemma {:induction false} StemOf(base: string)
    ensures var b := DropTrailingSlashes(base);
            && b <= base && (b == "" || b[|b| - 1] != '/')
            && (forall i :: |b| <= i < |base| ==> base[i] == '/')
  {
    if base != "" && base[|base| - 1] == '/' {
      StemOf(base[..|base| - 1]);
    }
  }

  lemma {:induction false} TailOf(s: string)
    ensures var t := DropLeadingSlashes(s);
            && (t == "" || t[0] != '/') && |t| <= |s| && t == s[|s| - |t|..]
            && (forall i :: 0 <= i < |s| - |t| ==> s[i] == '/')
  {
    if s != "" && s[0] == '/' {
      TailOf(s[1..]);
    }
  }

  /** The last piece of a split. */
  function LastPiece(s: string): string { Split(s, '/')[|Split(s, '/')| - 1] }

  lemma {:induction false} LastPieceOf(s: string)
    requires s != "" && s[|s| - 1] != '/'
    ensures var r := LastPiece(s); r != "" && '/' !in r && r[|r| - 1] == s[|s| - 1] && |r| <= |s|
    ensures LastSegment(Split(s, '/')) == Some(LastPiece(s))
  {
    var tail := Split(s[1..], '/');
    if |s| == 1 {
      assert tail == [""] && Split(s, '/') == [[s[0]] + ""];
    } else {
      LastPieceOf(s[1..]);
      assert s[1..][|s| - 2] == s[|s| - 1];
      if s[0] == '/' {
        assert Split(s, '/') == [""] + tail;
      } else {
        assert Split(s, '/') == [[s[0]] + tail[0]] + tail[1..];
        assert LastPiece(s) == if |tail| == 1 then [s[0]] + LastPiece(s[1..]) else LastPiece(s[1..]);
      }
    }
  }

  lemma {:induction false} SingleSegment(s: string)
    requires s != "" && s[|s| - 1] != '/' && '/' !in DropLeadingSlashes(s)
    ensures LastPiece(s) == DropLeadingSlashes(s)
  {
    if s[0] == '/' {
      SingleSegment(s[1..]);
    } else {
      SplitNone(s, '/');
    }
  }

  lemma ManyPieces(t: string)
    requires '/' in t
    ensures |Split(t, '/')| > 1
  {
    JoinSplit(t, '/');
  }

  lemma SlashedIsNoPrefix(p: string, i: nat, r: string)
    requires '/' !in r && i < |p| && p[i] == '/'
    ensures !(p <= r)
  {
  }

  // ---------- nothing at the ends to trim ----------

  /** Nothing is kept only when the whole path is the stem's last segment; so the stem then ends the
      way the path does. */
  lemma NoPieceKept(path: string, stem: string)
    requires IsTrimmed(path) && path != "" && stem != "" && stem[|stem| - 1] != '/' && KeptPieces(path, stem) == []
    ensures DropLeadingSlashes(path) == LastPiece(stem) && !IsSpace(stem[|stem| - 1])
  {
    hide Split, LastSegment, DropLeadingSlashes, IsSpace;
    var p := DropLeadingSlashes(path);
    LastPieceOf(stem);
    JoinSplit(p, '/');
    TailOf(path);
    assert Split(p, '/') == [p];
  }

  lemma KeptIsTrimmed(path: string, stem: string)
    requires IsTrimmed(path)
    ensures EndsVisible(Join(KeptPieces(path, stem), "/"))
  {
    hide Split, LastSegment, DropLeadingSlashes, Join, IsSpace;
    SlashIsVisible();
    DropLeadingEndsVisible(path);
    KeptEndsVisible(DropLeadingSlashes(path), true);
    KeptEndsVisible(DropLeadingSlashes(path), false);
  }

  /** Under a base that starts visible, what a join yields starts and ends visible, unless it is the
      bare stem. */
  lemma OntoIsTrimmed(path: string, stem: string)
    requires IsTrimmed(path) && path != "" && (stem == "" || (!IsSpace(stem[0]) && stem[|stem| - 1] != '/'))
    requires stem == "" ==> KeptPieces(path, stem) != []
    ensures IsTrimmed(Onto(stem, KeptPieces(path, stem)))
  {
    hide Split, LastSegment, DropLeadingSlashes, Join, IsSpace, KeptPieces;
    SlashIsVisible();
    KeptIsTrimmed(path, stem);
    if stem != "" && KeptPieces(path, stem) == [] {
      NoPieceKept(path, stem);
    }
  }

  lemma EmptyStemKeeps(path: string)
    ensures KeptPieces(path, "") == Split(DropLeadingSlashes(path), '/')
  {
    assert Split("", '/') == [""];
  }

  lemma AbsoluteIsTrimmed(raw: Option<string>, base: string)
    requires base != "" && IsTrimmed(base)
    ensures IsTrimmed(AbsolutePath(raw, base))
  {
    hide Trim, KeptPieces, Onto, IsSpace, DropTrailingSlashes, AbsolutePath;
    var path, stem := Trim(raw.GetOr("")), DropTrailingSlashes(base);
    AbsoluteCases(raw, base);
    StemOf(base);
    if IsJoined(path, base) {
      EmptyStemKeeps(path);
      OntoIsTrimmed(path, stem);
    }
  }

  // ---------- bases without a trailing slash, and bases below `/api` ----------

  /** No trailing slash, or below `/api`. */
  predicate IsSettledBase(base: string) {
    IsTrimmed(base) && (base == "" || "/api" <= base || base[|base| - 1] != '/')
  }

  lemma SettledIsStable(raw: Option<string>, base: string)
    requires IsSettledBase(base)
    ensures IsStable(raw, base)
  {
    hide Trim, KeptPieces, IsSpace, Split, LastSegment, DropLeadingSlashes, Join;
    var once := AbsolutePath(raw, base);
    if base == "" {
      EmptyBaseIsStable(raw);
    } else {
      AbsoluteIsTrimmed(raw, base);
      if "/api" <= base {
        PathsBecomeAbsolute(raw, base);
      } else {
        AbsoluteCases(raw, base);
        assert DropTrailingSlashes(base) == base;
      }
      AbsoluteFixed(once, base);
    }
  }

  lemma EmptyBaseIsStable(raw: Option<string>)
    ensures IsStable(raw, "")
  {
    hide Trim, IsSpace;
    SlashIsVisible();
    TrimIsTrimmed(raw.GetOr(""));
    var once := AbsolutePath(raw, "");
    if once == "" {
      TrimOfTrimmed("");
    } else {
      AbsoluteFixed(once, "");
    }
  }

  // ---------- bases of slashes ----------

  lemma OneSlashIsStable(raw: Option<string>)
    ensures IsStable(raw, "/")
  {
    hide Trim, KeptPieces, IsSpace, Split, LastSegment, DropLeadingSlashes, Join, AbsolutePath;
    SlashIsVisible();
    AbsoluteCases(raw, "/");
    AbsoluteIsTrimmed(raw, "/");
    assert DropTrailingSlashes("/") == "" by { assert ("/")[..0] == ""; }
    EmptyStemKeeps(Trim(raw.GetOr("")));
    AbsoluteFixed(AbsolutePath(raw, "/"), "/");
  }

  lemma TwoSlashesDrop()
    ensures DropTrailingSlashes("//") == "" && IsTrimmed("//")
  {
    SlashIsVisible();
    assert ("//")[..1] == "/" && ("/")[..0] == "";
  }

  lemma TwoSlashesAreStable(raw: Option<string>)
    ensures IsStable(raw, "//")
  {
    hide Trim, IsSpace, Split, LastSegment, DropLeadingSlashes, Join, AbsolutePath, IsTrimmed, KeptPieces;
    var path, once := Trim(raw.GetOr("")), AbsolutePath(raw, "//");
    TwoSlashesDrop();
    AbsoluteCases(raw, "//");
    AbsoluteIsTrimmed(raw, "//");
    if IsJoined(path, "//") && once == Onto("", KeptPieces(path, "")) {
      var t := DropLeadingSlashes(path);
      EmptyStemKeeps(path);
      JoinSplit(t, '/');
      OneSlashTail(path);
      assert once == "/" + t;
      if !("/api" <= once) {
        TailOf(once);
        OneMoreSlash(t);
        JoinedForm(once, "//");
        EmptyStemKeeps(once);
      } else {
        AbsoluteFixed(once, "//");
      }
    } else {
      AbsoluteFixed(once, "//");
    }
  }

  /** A joined path under `//` has at most one slash in front, and something after it. */
  lemma OneSlashTail(path: string)
    requires IsJoined(path, "//")
    ensures var t := DropLeadingSlashes(path); t != "" && t[0] != '/'
  {
    hide IsTrimmed;
    if path[0] == '/' {
      assert path[1..] != "" by { assert |path| > 1; }
      assert path[1] != '/' by { assert !("//" <= path); }
      assert DropLeadingSlashes(path) == DropLeadingSlashes(path[1..]) == path[1..];
    }
  }

  lemma OneMoreSlash(t: string)
    requires t != "" && t[0] != '/'
    ensures DropLeadingSlashes("/" + t) == t
  {
    assert ("/" + t)[1..] == t;
    assert DropLeadingSlashes(t) == t;
  }

  lemma {:induction false} OnlySlashes(base: string)
    requires forall i :: 0 <= i < |base| ==> base[i] == '/'
    ensures DropTrailingSlashes(base) == "" && DropLeadingSlashes(base) == ""
  {
    if base != "" {
      OnlySlashes(base[..|base| - 1]);
      OnlySlashes(base[1..]);
    }
  }

  /** Three slashes or more: the path `//` becomes `/`, which then reads as the base. */
  lemma ManySlashesAreUnstable(base: string)
    requires |base| >= 3 && forall i :: 0 <= i < |base| ==> base[i] == '/'
    ensures !IsStable(Some("//"), base)
  {
    hide Trim, IsSpace, Split, LastSegment, DropLeadingSlashes, DropTrailingSlashes, Join, AbsolutePath, KeptPieces;
    SlashIsVisible();
    OnlySlashes(base);
    OnlySlashes("//");
    assert !("/api" <= "//") && |"//"| < |base|;
    JoinedForm("//", base);
    EmptyStemKeeps("//");
    BlankSplit();
    assert AbsolutePath(Some("//"), base) == "/";
    SlashReadsAsBase(base);
    assert |base| != |"/"|;
  }

  lemma BlankSplit()
    ensures Split("", '/') == [""] && Join([""], "/") == ""
  {
  }

  lemma SlashReadsAsBase(base: string)
    ensures AbsolutePath(Some("/"), base) == if base == "" then "/" else base
  {
    hide Split, LastSegment, DropLeadingSlashes, DropTrailingSlashes, Join;
    SlashIsVisible();
    TrimOfTrimmed("/");
  }

  // ---------- a stem and one or more trailing slashes ----------

  /** Trimmed, with a trailing slash, a stem that is not empty, and outside `/api`. */
  predicate IsSlashed(base: string) {
    && IsTrimmed(base) && base != "" && base[|base| - 1] == '/'
    && DropTrailingSlashes(base) != "" && !("/api" <= base)
  }

  lemma StemOfSlashed(base: string)
    requires IsSlashed(base)
    ensures var b := DropTrailingSlashes(base);
            b + "/" <= base && b[|b| - 1] != '/' && !IsSpace(b[0]) && !("/api" <= b) && !("/api" <= b + "/")
  {
    hide IsSpace, DropTrailingSlashes;
    var b := DropTrailingSlashes(base);
    StemOf(base);
    assert base[|b|] == '/';
    assert b + "/" == base[..|b| + 1];
  }

  /** The stem itself, read as a path under its base. */
  lemma StemAsPath(base: string)
    requires IsSlashed(base) && IsTrimmed(DropTrailingSlashes(base))
    ensures var b := DropTrailingSlashes(base); AbsolutePath(Some(b), base) == b <==> '/' !in DropLeadingSlashes(b)
  {
    hide Trim, IsSpace, Split, LastSegment, DropLeadingSlashes, DropTrailingSlashes, Join, AbsolutePath, IsTrimmed;
    var b := DropTrailingSlashes(base);
    var t := DropLeadingSlashes(b);
    StemOfSlashed(base);
    LastPieceOf(b);
    JoinedForm(b, base);
    if '/' !in t {
      SplitNone(t, '/');
      SingleSegment(b);
    } else {
      ManyPieces(t);
      assert |Onto(b, KeptPieces(b, b))| > |b|;
    }
  }

  lemma {:induction false} DropLeadingJoin(b: string, j: string)
    requires DropLeadingSlashes(b) != ""
    ensures DropLeadingSlashes(b + j) == DropLeadingSlashes(b) + j
  {
    if b[0] == '/' {
      DropLeadingJoin(b[1..], j);
      assert (b + j)[1..] == b[1..] + j;
    }
  }

  lemma SlashedTail(base: string)
    requires IsSlashed(base)
    ensures DropLeadingSlashes(DropTrailingSlashes(base)) != ""
  {
    hide DropTrailingSlashes, IsSpace;
    var b := DropTrailingSlashes(base);
    StemOf(base);
    TailOf(b);
  }

  /** Under a single segment, joining again keeps the same pieces. */
  lemma JoinedAgain(base: string, kept: seq<string>)
    requires IsSlashed(base) && '/' !in DropLeadingSlashes(DropTrailingSlashes(base)) && kept != []
    requires IsTrimmed(Onto(DropTrailingSlashes(base), kept))
    ensures var once := Onto(DropTrailingSlashes(base), kept); AbsolutePath(Some(once), base) == once
  {
    hide Trim, IsSpace, Split, LastSegment, DropLeadingSlashes, DropTrailingSlashes, Join, AbsolutePath, IsTrimmed;
    var b := DropTrailingSlashes(base);
    var t, j := DropLeadingSlashes(b), Join(kept, "/");
    var once := Onto(b, kept);
    StemOfSlashed(base);
    SlashedTail(base);
    if "/api" <= once || base <= once {
      AbsoluteFixed(once, base);
    } else {
      LastPieceOf(b);
      SingleSegment(b);
      assert once == b + ("/" + j);
      DropLeadingJoin(b, "/" + j);
      assert t + ("/" + j) == t + ['/'] + j;
      SplitPrefix(t, '/', j);
      JoinSplit(j, '/');
      JoinedForm(once, base);
      assert KeptPieces(once, b) == Split(j, '/');
    }
  }

  lemma SingleIsStable(raw: Option<string>, base: string)
    requires IsSlashed(base) && '/' !in DropLeadingSlashes(DropTrailingSlashes(base))
    ensures IsStable(raw, base)
  {
    hide Trim, IsSpace, DropLeadingSlashes, DropTrailingSlashes, AbsolutePath, IsTrimmed, KeptPieces;
    var path, b, once := Trim(raw.GetOr("")), DropTrailingSlashes(base), AbsolutePath(raw, base);
    AbsoluteCases(raw, base);
    AbsoluteIsTrimmed(raw, base);
    StemOfSlashed(base);
    if once == b {
      StemAsPath(base);
    } else if IsJoined(path, base) && once == Onto(b, KeptPieces(path, b)) {
      JoinedAgain(base, KeptPieces(path, b));
    } else {
      AbsoluteFixed(once, base);
    }
  }

  /** A stem that ends in white space is never reached, so with a single slash every join stays
      below the base. */
  lemma SpacedStemIsStable(raw: Option<string>, base: string)
    requires IsSlashed(base) && base == DropTrailingSlashes(base) + "/"
    requires var b := DropTrailingSlashes(base); IsSpace(b[|b| - 1])
    ensures IsStable(raw, base)
  {
    hide Trim, IsSpace, DropLeadingSlashes, DropTrailingSlashes, AbsolutePath, IsTrimmed, KeptPieces, Join;
    var path, b, once := Trim(raw.GetOr("")), DropTrailingSlashes(base), AbsolutePath(raw, base);
    AbsoluteCases(raw, base);
    AbsoluteIsTrimmed(raw, base);
    StemOfSlashed(base);
    if IsJoined(path, base) && once == Onto(b, KeptPieces(path, b)) {
      if KeptPieces(path, b) == [] {
        NoPieceKept(path, b);
        assert false;
      }
    }
    AbsoluteFixed(once, base);
  }

  /** The path that names the stem's last segment comes out as the stem. */
  lemma ResourceGivesStem(base: string) returns (path: string)
    requires IsSlashed(base) && '/' in DropLeadingSlashes(DropTrailingSlashes(base))
    requires IsTrimmed(DropTrailingSlashes(base))
    ensures AbsolutePath(Some(path), base) == DropTrailingSlashes(base)
  {
    hide Trim, IsSpace, Split, LastSegment, Join, DropTrailingSlashes, AbsolutePath;
    var b := DropTrailingSlashes(base);
    var r := LastPiece(b);
    StemOfSlashed(base);
    LastPieceOf(b);
    SlashIsVisible();
    path := if IsSpace(r[0]) then "/" + r else r;
    assert r[0] in r;
    SplitNone(r, '/');
    OneMoreSlash(r);
    assert DropLeadingSlashes(r) == r;
    ResourcePathIsJoined(base, r);
    JoinedForm(path, base);
  }

  lemma ResourcePathIsJoined(base: string, r: string)
    requires IsSlashed(base) && r != "" && '/' !in r && !IsSpace(r[|r| - 1])
    ensures IsJoined(if IsSpace(r[0]) then "/" + r else r, base)
  {
    hide IsSpace, DropTrailingSlashes;
    var b := DropTrailingSlashes(base);
    StemOfSlashed(base);
    SlashIsVisible();
    assert base[|b|] == '/';
    if IsSpace(r[0]) {
      BlankIsNoLetter(r[0]);
      assert ("/" + r)[1] == r[0];
      assert ("/" + r)[1..] == r;
      LateSlashIsNoPrefix(base, |b|, r);
    } else {
      SlashedIsNoPrefix(base, |b|, r);
      SlashedIsNoPrefix("/api", 0, r);
      assert r != "/" by { assert r[0] in r; }
    }
  }

  lemma BlankIsNoLetter(c: char)
    requires IsSpace(c)
    ensures c != 'a'
  {
  }

  lemma LateSlashIsNoPrefix(p: string, i: nat, r: string)
    requires '/' !in r && 0 < i < |p| && p[i] == '/'
    ensures !(p <= "/" + r)
  {
    assert forall k :: 0 < k < |"/" + r| ==> ("/" + r)[k] == r[k - 1];
  }

  /** Several segments: the stem is reached, and reading it again repeats it. */
  lemma ManySegmentsAreUnstable(base: string) returns (raw: Option<string>)
    requires IsSlashed(base) && '/' in DropLeadingSlashes(DropTrailingSlashes(base))
    requires IsTrimmed(DropTrailingSlashes(base))
    ensures !IsStable(raw, base)
  {
    hide AbsolutePath, DropLeadingSlashes, DropTrailingSlashes, IsTrimmed;
    var path := ResourceGivesStem(base);
    StemAsPath(base);
    raw := Some(path);
  }

  lemma XIsJoined(base: string)
    requires IsSlashed(base)
    ensures IsJoined("x", base) && DropLeadingSlashes("x") == "x" && Split("x", '/') == ["x"]
  {
    hide DropTrailingSlashes;
    StemOfSlashed(base);
    assert base[|DropTrailingSlashes(base)|] == '/';
    SlashedIsNoPrefix(base, |DropTrailingSlashes(base)|, "x");
    SplitNone("x", '/');
  }

  /** Several segments, white space before the slashes, and more than one slash: a joined path is
      not below the base and is joined again. */
  lemma SpacedStemIsUnstable(base: string)
    requires IsSlashed(base) && '/' in DropLeadingSlashes(DropTrailingSlashes(base)) && base != DropTrailingSlashes(base) + "/"
    requires var b := DropTrailingSlashes(base); IsSpace(b[|b| - 1])
    ensures !IsStable(Some("x"), base)
  {
    hide Trim, IsSpace, Split, LastSegment, Join, DropTrailingSlashes, DropLeadingSlashes, AbsolutePath, IsTrimmed;
    var b := DropTrailingSlashes(base);
    StemOfSlashed(base);
    LastPieceOf(b);
    XIsJoined(base);
    XIsVisible();
    JoinedForm("x", base);
    var once := b + "/" + "x";
    assert AbsolutePath(Some("x"), base) == once by { OneJoin("x"); }
    OnceIsJoined(base);
    JoinedForm(once, base);
    KeepsMore(b);
  }

  lemma XIsVisible()
    ensures !IsSpace("x"[0])
  {
  }

  lemma OneJoin(s: string)
    ensures Join([s], "/") == s
  {
  }

  lemma OnceIsJoined(base: string)
    requires IsSlashed(base) && base != DropTrailingSlashes(base) + "/"
    ensures IsJoined(DropTrailingSlashes(base) + "/" + "x", base)
  {
    hide IsSpace, DropTrailingSlashes;
    var b := DropTrailingSlashes(base);
    var once := b + "/" + "x";
    StemOfSlashed(base);
    StemOf(base);
    XIsVisible();
    assert |base| > |b| + 1 && base[|b| + 1] == '/' && once[|b| + 1] == 'x';
    assert once[|b|] == '/';
    if |b| >= 4 { assert once[..4] == b[..4]; }
    assert !("/api" <= once) by { ApiIsShort(b); }
  }

  lemma ApiIsShort(b: string)
    requires b != "" && !("/api" <= b)
    ensures !("/api" <= b + "/" + "x")
  {
    var once := b + "/" + "x";
    if |b| >= 4 {
      assert once[..4] == b[..4];
    } else {
      assert once[|b|] == '/';
    }
  }

  lemma KeepsMore(b: string)
    requires b != "" && '/' in DropLeadingSlashes(b)
    ensures |Onto(b, KeptPieces(b + "/" + "x", b))| > |b + "/" + "x"|
  {
    hide LastSegment, DropLeadingSlashes;
    var t := DropLeadingSlashes(b);
    assert b + "/" + "x" == b + ("/" + "x");
    DropLeadingJoin(b, "/" + "x");
    var p := t + ("/" + "x");
    var rest := Split(p, '/');
    JoinSplit(p, '/');
    TailIsLong(t);
    assert |Join(rest, "/")| > 1 && |Join(rest[1..], "/")| > 1;
  }

  /** Dropping the first of several segments still leaves more than `x`. */
  lemma {:induction false} TailIsLong(t: string)
    requires '/' in t
    ensures var rest := Split(t + ("/" + "x"), '/'); |rest| > 1 && |Join(rest[1..], "/")| > 1
  {
    var p := t + ("/" + "x");
    if t[0] == '/' {
      assert p[1..] == t[1..] + ("/" + "x");
      assert Split(p, '/') == [""] + Split(p[1..], '/');
      JoinSplit(p[1..], '/');
      assert Split(p, '/')[1..] == Split(p[1..], '/');
    } else {
      assert t == [t[0]] + t[1..];
      assert '/' in t[1..];
      TailIsLong(t[1..]);
      assert p[1..] == t[1..] + ("/" + "x");
      assert Split(p, '/')[1..] == Split(p[1..], '/')[1..];
    }
  }

  // ---------- every trimmed base ----------

  /** No trailing slash; below `/api`; one or two slashes; a single segment and any number of slashes;
      or several segments, white space, and one slash. */
  predicate IsStableBase(base: string) {
    var b := DropTrailingSlashes(base);
    || IsSettledBase(base) || base == "/" || base == "//"
    || (b != "" && '/' !in DropLeadingSlashes(b))
    || (b != "" && IsSpace(b[|b| - 1]) && base == b + "/")
  }

  lemma StableBaseIsStable(raw: Option<string>, base: string)
    requires IsTrimmed(base) && IsStableBase(base)
    ensures IsStable(raw, base)
  {
    hide IsStable, DropTrailingSlashes, DropLeadingSlashes, IsSpace;
    if IsSettledBase(base) {
      SettledIsStable(raw, base);
    } else if base == "/" {
      OneSlashIsStable(raw);
    } else if base == "//" {
      TwoSlashesAreStable(raw);
    } else if '/' !in DropLeadingSlashes(DropTrailingSlashes(base)) {
      SingleIsStable(raw, base);
    } else {
      SpacedStemIsStable(raw, base);
    }
  }

  lemma OtherBaseIsUnstable(base: string) returns (raw: Option<string>)
    requires IsTrimmed(base) && !IsStableBase(base)
    ensures !IsStable(raw, base)
  {
    hide IsStable, DropTrailingSlashes, DropLeadingSlashes, IsSpace;
    var b := DropTrailingSlashes(base);
    StemOf(base);
    if b == "" {
      if |base| < 3 {
        ShortSlashes(base);
      }
      ManySlashesAreUnstable(base);
      raw := Some("//");
    } else if IsSpace(b[|b| - 1]) {
      SpacedStemIsUnstable(base);
      raw := Some("x");
    } else {
      raw := ManySegmentsAreUnstable(base);
    }
  }

  lemma ShortSlashes(base: string)
    requires |base| < 3 && forall i :: 0 <= i < |base| ==> base[i] == '/'
    ensures base == "" || base == "/" || base == "//"
  {
  }

  /** Under a base without white space at its ends the second pass never changes a path if and only
      if the base is one of these. */
  lemma BaseIsStableIff(base: string)
    requires IsTrimmed(base)
    ensures (forall raw :: IsStable(raw, base)) <==> IsStableBase(base)
  {
    hide IsStable, IsStableBase;
    if IsStableBase(base) {
      forall raw ensures IsStable(raw, base) {
        StableBaseIsStable(raw, base);
      }
    } else {
      var raw := OtherBaseIsUnstable(base);
    }
  }
}
