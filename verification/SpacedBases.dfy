/** Base paths with white space at an end, normalized twice. */
module SpacedBases {
  import opened Text
  import opened Collections
  import opened Normalize
  import opened BasePaths

  // ---------- reading the base itself as a path ----------

  lemma TrimFirst(s: string, base: string)
    ensures AbsolutePath(Some(s), base) == AbsolutePath(Some(Trim(s)), base)
  {
    hide Trim, Split, LastSegment, DropLeadingSlashes, DropTrailingSlashes, Join;
    TrimIdempotent(s);
  }

  lemma NoPathGivesTheBase(base: string)
    ensures AbsolutePath(None, base) == base
  {
    assert Trim("") == "";
  }

  lemma {:induction false} TrimEndLength(s: string)
    ensures |TrimEnd(s)| <= |s| && (s != "" && IsSpace(s[|s| - 1]) ==> |TrimEnd(s)| < |s|)
  {
    if s != "" && IsSpace(s[|s| - 1]) {
      TrimEndLength(s[..|s| - 1]);
    }
  }

  // ---------- visible at the start, white space at the end ----------

  predicate HasSpacedEnd(base: string) {
    base != "" && !IsSpace(base[0]) && IsSpace(base[|base| - 1])
  }

  lemma SpacedEndShape(base: string)
    requires HasSpacedEnd(base)
    ensures var t := Trim(base);
            && t != "" && IsTrimmed(t) && t <= base && |t| < |base|
            && DropTrailingSlashes(base) == base && base[|base| - 1] != '/'
  {
    hide IsSpace;
    TrimEndLength(base);
    TrimEndShape(base);
    TrimIsTrimmed(base);
    VisibleStays(base);
    SlashIsVisible();
  }

  lemma {:induction false} VisibleStays(s: string)
    requires s != "" && !IsSpace(s[0])
    ensures TrimEnd(s) != ""
  {
    if IsSpace(s[|s| - 1]) {
      VisibleStays(s[..|s| - 1]);
    }
  }

  /** Read back, such a base loses its white space or is joined onto itself. */
  lemma SpacedEndIsUnstable(base: string)
    requires HasSpacedEnd(base) && Trim(base) != "/"
    ensures !IsStable(None, base)
  {
    hide Trim, IsSpace, DropTrailingSlashes, DropLeadingSlashes, AbsolutePath, KeptPieces, Join;
    var t := Trim(base);
    SpacedEndShape(base);
    NoPathGivesTheBase(base);
    TrimFirst(base, base);
    if "/api" <= t {
      AbsoluteFixed(t, base);
    } else {
      JoinedForm(t, base);
      if KeptPieces(t, base) == [] {
        NoPieceKept(t, base);
        assert false;
      }
    }
  }

  lemma SlashAndSpaceIsStable(raw: Option<string>, base: string)
    requires HasSpacedEnd(base) && Trim(base) == "/"
    ensures IsStable(raw, base)
  {
    hide Trim, IsSpace, DropTrailingSlashes, DropLeadingSlashes, AbsolutePath, KeptPieces, Join;
    var path, once := Trim(raw.GetOr("")), AbsolutePath(raw, base);
    SpacedEndShape(base);
    AbsoluteCases(raw, base);
    if once == base {
      TrimFirst(base, base);
      SlashReadsAsBase(base);
    } else {
      if IsJoined(path, base) && once == Onto(base, KeptPieces(path, base)) {
        OntoIsTrimmed(path, base);
      }
      assert base != "/" by { assert |base| > |Trim(base)|; }
      AbsoluteFixed(once, base);
    }
  }

  /** A base that starts visible and ends in white space survives only as a slash and white space. */
  lemma SpacedEndIsStableIff(base: string)
    requires HasSpacedEnd(base)
    ensures (forall raw :: IsStable(raw, base)) <==> Trim(base) == "/"
  {
    hide IsStable, Trim, HasSpacedEnd;
    if Trim(base) == "/" {
      forall raw ensures IsStable(raw, base) {
        SlashAndSpaceIsStable(raw, base);
      }
    } else {
      SpacedEndIsUnstable(base);
    }
  }

  // ---------- white space at the start ----------

  predicate AllSpace(s: string) { forall i :: 0 <= i < |s| ==> IsSpace(s[i]) }

  lemma {:induction false} TrimStartSplits(s: string) returns (front: string)
    ensures AllSpace(front) && s == front + TrimStart(s)
    ensures s != "" && IsSpace(s[0]) ==> front != ""
  {
    if s != "" && IsSpace(s[0]) {
      front := TrimStartSplits(s[1..]);
      front := [s[0]] + front;
    } else {
      front := "";
    }
  }

  lemma {:induction false} SpaceIsDropped(front: string, s: string)
    requires AllSpace(front)
    ensures TrimStart(front + s) == TrimStart(s)
  {
    if front == "" {
      assert front + s == s;
    } else {
      SpaceIsDropped(front[1..], s);
      assert (front + s)[1..] == front[1..] + s;
      assert (front + s)[0] == front[0];
    }
  }

  lemma {:induction false} NoSlashInSpace(s: string)
    requires AllSpace(s)
    ensures '/' !in s && TrimEnd(s) == "" && DropTrailingSlashes(s) == s && DropLeadingSlashes(s) == s
  {
    SlashIsVisible();
    if s != "" {
      NoSlashInSpace(s[..|s| - 1]);
    }
  }

  /** Nothing but white space: the path `//` ends up as a lone slash, which reads as the base. */
  lemma BlankBaseIsUnstable(base: string)
    requires base != "" && AllSpace(base)
    ensures !IsStable(Some("//"), base)
  {
    hide Trim, IsSpace, Split, DropTrailingSlashes, DropLeadingSlashes, AbsolutePath, LastSegment, Join;
    NoSlashInSpace(base);
    OnlySlashes("//");
    SlashIsVisible();
    SlashPairIsJoined(base);
    JoinedForm("//", base);
    LastPieceOf(base);
    BlankSplit();
    var once := AbsolutePath(Some("//"), base);
    assert once == base + "/";
    TrimFirst(once, base);
    SpaceThenSlash(base);
    SlashReadsAsBase(base);
  }

  lemma SlashPairIsJoined(base: string)
    requires base != "" && AllSpace(base)
    ensures IsJoined("//", base)
  {
    hide IsSpace;
    SlashIsVisible();
    assert base[0] != '/';
  }

  lemma SpaceThenSlash(base: string)
    requires AllSpace(base)
    ensures Trim(base + "/") == "/"
  {
    hide IsSpace;
    SlashIsVisible();
    SpaceIsDropped(base, "/");
  }

  /** White space before `/api`: the base is read back without it. */
  lemma SpaceBeforeApiIsUnstable(base: string)
    requires base != "" && IsSpace(base[0]) && "/api" <= Trim(base)
    ensures !IsStable(None, base)
  {
    hide Trim, IsSpace, AbsolutePath;
    SlashIsVisible();
    NoPathGivesTheBase(base);
    TrimFirst(base, base);
    TrimIsTrimmed(base);
    AbsoluteFixed(Trim(base), base);
    assert Trim(base)[0] == "/api"[0];
  }

  // ---------- white space, then anything but a slash ----------

  /** The text before the first slash, and what follows it. */
  lemma {:induction false} FirstPiece(s: string) returns (p: string, rest: string)
    requires '/' in s
    ensures '/' !in p && s == p + "/" + rest && Split(s, '/') == [p] + Split(rest, '/')
  {
    if s[0] == '/' {
      p, rest := "", s[1..];
    } else {
      var q;
      assert s == [s[0]] + s[1..];
      q, rest := FirstPiece(s[1..]);
      p := [s[0]] + q;
      assert Split(s, '/')[1..] == Split(s[1..], '/')[1..];
    }
  }

  /** A stem that starts with white space, which is followed by something else than a slash. */
  predicate IsSpacedStem(b: string) {
    && b != "" && IsSpace(b[0]) && b[|b| - 1] != '/'
    && TrimStart(b) != "" && TrimStart(b)[0] != '/'
  }

  /** Joining anything onto the trimmed stem gives something longer: the stem is never recognised. */
  lemma SpacedStemGrows(b: string, j: string)
    requires IsSpacedStem(b)
    ensures var path := TrimStart(b) + "/" + j; |Onto(b, KeptPieces(path, b))| > |b + "/" + j|
  {
    hide IsSpace, LastSegment;
    var c := TrimStart(b);
    var path := c + "/" + j;
    var front := TrimStartSplits(b);
    var rest := Split(path, '/');
    assert path[0] == c[0] && DropLeadingSlashes(path) == path;
    LastPieceOf(b);
    JoinSplit(path, '/');
    var p, tail := FirstPiece(path);
    JoinSplit(tail, '/');
    assert rest[1..] == Split(tail, '/');
    if LastPiece(b) == p {
      FirstPieceIsShort(b, front, c, j, p, tail);
    }
  }

  lemma FirstPieceIsShort(b: string, front: string, c: string, j: string, p: string, tail: string)
    requires b != "" && b[|b| - 1] != '/' && AllSpace(front) && front != "" && b == front + c && c != ""
    requires '/' !in p && c + "/" + j == p + "/" + tail && p == LastPiece(b)
    ensures |tail| > |j|
  {
    hide IsSpace;
    NoSlashInSpace(front);
    if '/' !in c {
      SplitNone(b, '/');
      PieceStops(p, tail, c + "/" + j, |c|);
    } else {
      var k :| 0 <= k < |c| && c[k] == '/';
      PieceStops(p, tail, c + "/" + j, k);
    }
  }

  lemma PieceStops(p: string, tail: string, s: string, k: nat)
    requires '/' !in p && s == p + "/" + tail && k < |s| && s[k] == '/'
    ensures |p| <= k
  {
    assert forall i :: 0 <= i < |p| ==> s[i] == p[i];
  }

  /** Under such a base the path `x/x` keeps at least one segment, and reading the result again makes
      it longer. */
  lemma SpacedStartIsUnstable(base: string)
    requires IsSpacedStem(DropTrailingSlashes(base))
    ensures !IsStable(Some("x/x"), base)
  {
    hide IsSpace, Split, DropTrailingSlashes, AbsolutePath, LastSegment, Join, Trim, DropLeadingSlashes, TrimStart;
    var b := DropTrailingSlashes(base);
    StemOf(base);
    XOverXIsJoined(base);
    JoinedForm("x/x", base);
    var j := Join(KeptPieces("x/x", b), "/");
    XOverXKeeps(b);
    var once := b + "/" + j;
    TrimFirst(once, base);
    var path := TrimStart(b) + "/" + j;
    TrimOfOnce(b, j);
    PathIsJoined(base, j);
    JoinedForm(path, base);
    SpacedStemGrows(b, j);
  }

  lemma XOverXIsJoined(base: string)
    requires IsSpacedStem(DropTrailingSlashes(base))
    ensures IsJoined("x/x", base)
  {
    hide DropTrailingSlashes, TrimStart;
    StemOf(base);
    assert base[0] == DropTrailingSlashes(base)[0];
  }

  lemma XOverXKeeps(b: string)
    ensures KeptPieces("x/x", b) != [] && EndsWithX(Join(KeptPieces("x/x", b), "/"))
  {
    hide LastSegment;
    var x: string := "x";
    assert "x/x" == x + ['/'] + x;
    SplitPrefix(x, '/', x);
    SplitNone(x, '/');
    assert DropLeadingSlashes("x/x") == "x/x";
    assert [x, x][1..] == [x];
    assert Join([x, x], "/") == x + "/" + Join([x], "/");
  }

  predicate EndsWithX(s: string) { s != "" && s[|s| - 1] == 'x' }

  lemma TrimOfOnce(b: string, j: string)
    requires IsSpacedStem(b) && EndsWithX(j)
    ensures Trim(b + "/" + j) == TrimStart(b) + "/" + j && IsTrimmed(TrimStart(b) + "/" + j)
  {
    hide IsSpace, TrimStart, TrimEnd;
    var front := TrimStartSplits(b);
    var path := TrimStart(b) + "/" + j;
    TrimStartFront(b);
    XIsVisible();
    assert path[0] == TrimStart(b)[0] && path[|path| - 1] == 'x';
    assert b + "/" + j == front + path;
    SpaceIsDropped(front, path);
    TrimOfTrimmed(path);
    TrimsAlike(front + path, path);
  }

  lemma TrimsAlike(s: string, path: string)
    requires TrimStart(s) == TrimStart(path)
    ensures Trim(s) == Trim(path)
  {
    hide TrimStart;
  }

  lemma PathIsJoined(base: string, j: string)
    requires IsSpacedStem(DropTrailingSlashes(base)) && EndsWithX(j)
    ensures IsJoined(TrimStart(DropTrailingSlashes(base)) + "/" + j, base)
  {
    hide DropTrailingSlashes;
    var b := DropTrailingSlashes(base);
    StemOf(base);
    TrimStartFront(b);
    TrimOfOnce(b, j);
    var path := TrimStart(b) + "/" + j;
    assert path[0] == TrimStart(b)[0] && base[0] == b[0];
    assert "/api"[0] == '/' && path[0] != '/';
  }

  // ---------- white space, then a slash ----------

  /** White space, a slash, and nothing that leads below `/api`. */
  predicate HasSlashedStart(base: string) {
    base != "" && IsSpace(base[0]) && "/" <= Trim(base) && !("/api" <= Trim(base))
  }

  lemma TrimmedIsJoined(base: string)
    requires HasSlashedStart(base) && Trim(base) != "/"
    ensures IsJoined(Trim(base), base)
  {
    hide Trim, IsSpace;
    SlashIsVisible();
    TrimIsTrimmed(base);
    assert Trim(base)[0] == '/' != base[0];
  }

  /** White space at both ends: as it is read back it is joined onto itself. */
  lemma SpacedBothIsUnstable(base: string)
    requires HasSlashedStart(base) && IsSpace(base[|base| - 1]) && Trim(base) != "/"
    ensures !IsStable(None, base)
  {
    hide Trim, IsSpace, DropTrailingSlashes, AbsolutePath, KeptPieces, Join;
    SlashIsVisible();
    NoPathGivesTheBase(base);
    TrimFirst(base, base);
    TrimmedIsJoined(base);
    JoinedForm(Trim(base), base);
    EndsOtherwise(base);
    if KeptPieces(Trim(base), base) == [] {
      NoPieceKept(Trim(base), base);
      assert false;
    }
  }

  lemma EndsOtherwise(base: string)
    requires base != "" && base[|base| - 1] != '/'
    ensures DropTrailingSlashes(base) == base
  {
  }

  /** The pieces of white space, a slash and white space. */
  lemma SlashInSpace(base: string) returns (front: string, back: string)
    requires base != "" && IsSpace(base[0]) && IsSpace(base[|base| - 1]) && Trim(base) == "/"
    ensures AllSpace(front) && AllSpace(back) && back != "" && base == front + ("/" + back)
  {
    hide IsSpace;
    front := TrimStartSplits(base);
    var u := TrimStart(base);
    TrimEndShape(u);
    assert u[0] == '/';
    back := u[1..];
    assert u == "/" + back;
    SlashIsVisible();
    assert back != "" by { assert base[|base| - 1] == u[|u| - 1]; }
    BackIsSpace(back);
  }

  lemma {:induction false} BackIsSpace(back: string)
    requires TrimEnd("/" + back) == "/"
    ensures AllSpace(back)
  {
    var u := "/" + back;
    if back != "" {
      assert IsSpace(u[|u| - 1]);
      assert u[..|u| - 1] == "/" + back[..|back| - 1];
      BackIsSpace(back[..|back| - 1]);
      assert back == back[..|back| - 1] + [back[|back| - 1]];
    }
  }

  lemma SlashInSpaceIsStable(raw: Option<string>, base: string)
    requires HasSlashedStart(base) && IsSpace(base[|base| - 1]) && Trim(base) == "/"
    ensures IsStable(raw, base)
  {
    hide Trim, IsSpace, DropTrailingSlashes, DropLeadingSlashes, AbsolutePath, KeptPieces, Join, Split;
    var path, once := Trim(raw.GetOr("")), AbsolutePath(raw, base);
    SlashIsVisible();
    EndsOtherwise(base);
    AbsoluteCases(raw, base);
    if once == base {
      TrimFirst(base, base);
      SlashReadsAsBase(base);
    } else if IsJoined(path, base) && once == Onto(base, KeptPieces(path, base)) {
      if KeptPieces(path, base) == [] {
        NoPieceKept(path, base);
        assert false;
      } else {
        KeptIsTrimmed(path, base);
        SlashInSpaceAgain(base, Join(KeptPieces(path, base), "/"));
      }
    } else {
      assert base <= path ==> path[0] == base[0];
      AbsoluteFixed(once, base);
    }
  }

  lemma SlashInSpaceAgain(base: string, j: string)
    requires HasSlashedStart(base) && IsSpace(base[|base| - 1]) && Trim(base) == "/" && EndsVisible(j)
    ensures AbsolutePath(Some(base + "/" + j), base) == base + "/" + j
  {
    hide Trim, IsSpace, DropTrailingSlashes, DropLeadingSlashes, AbsolutePath, Join, Split, LastSegment;
    SlashIsVisible();
    var front, back := SlashInSpace(base);
    var once, path := base + "/" + j, "/" + back + "/" + j;
    assert once == front + path;
    TrimOfSpaced(front, path);
    TrimFirst(once, base);
    assert path[1] == back[0];
    BlankIsNoLetter(back[0]);
    assert base[0] != '/';
    EndsOtherwise(base);
    JoinedForm(path, base);
    NoSlashInSpace(front);
    NoSlashInSpace(back);
    SplitPrefix(front, '/', back);
    SplitNone(back, '/');
    assert front + ['/'] + back == base;
    LastPieceOf(base);
    OneMoreSlash(back + "/" + j);
    assert "/" + (back + "/" + j) == path;
    SplitPrefix(back, '/', j);
    assert back + ['/'] + j == back + "/" + j;
    JoinSplit(j, '/');
    assert KeptPieces(path, base) == Split(j, '/');
  }

  /** Leading white space goes, and a path that ends visible is otherwise kept. */
  lemma TrimOfSpaced(front: string, path: string)
    requires AllSpace(front) && IsTrimmed(path)
    ensures Trim(front + path) == path
  {
    hide IsSpace, TrimStart;
    SpaceIsDropped(front, path);
    TrimsAlike(front + path, path);
    TrimOfTrimmed(path);
  }

  // ---------- white space, slashes, and nothing or a segment ----------

  /** White space and one slash: the path that repeats the white space shows the difference. */
  lemma SpaceAndSlashIsUnstable(front: string)
    requires AllSpace(front) && front != ""
    ensures !IsStable(Some("/" + front + "//y"), front + "/")
  {
    hide Trim, IsSpace, DropTrailingSlashes, DropLeadingSlashes, AbsolutePath, Join, Split, LastSegment;
    var base, path := front + "/", "/" + front + "//y";
    YIsVisible();
    assert front[|front| - 1] != '/';
    StemOfSpace(front, 1);
    BlankIsNoLetter(front[0]);
    assert path[1] == front[0];
    assert base[0] == front[0] != '/';
    JoinedForm(path, base);
    NoSlashInSpace(front);
    LastPieceOf(front);
    SplitNone(front, '/');
    OneMoreSlash(front + "//y");
    assert "/" + (front + "//y") == path;
    assert front + ['/'] + "/y" == front + "//y";
    SplitPrefix(front, '/', "/y");
    SplitY();
    assert KeptPieces(path, front) == ["", "y"];
    JoinY();
    var once := front + "/" + "/y";
    assert once == front + "//y";
    TrimOfSpaced(front, "//y");
    TrimFirst(once, base);
    JoinedForm("//y", base);
    assert KeptPieces("//y", front) == ["y"];
    OneJoin("y");
  }

  lemma YIsVisible()
    ensures !IsSpace('y') && !IsSpace('/') && IsTrimmed("//y")
  {
  }

  lemma SplitY()
    ensures Split("/y", '/') == ["", "y"] && Split("y", '/') == ["y"] && DropLeadingSlashes("//y") == "y"
  {
    SplitNone("y", '/');
    assert "/y" == "" + ['/'] + "y";
    SplitPrefix("", '/', "y");
    assert ("//y")[1..] == "/y" && ("/y")[1..] == "y";
    assert DropLeadingSlashes("y") == "y";
  }

  lemma JoinY()
    ensures Join(["", "y"], "/") == "/y"
  {
    assert ["", "y"][1..] == ["y"];
  }

  function Slashes(n: nat): string { seq(n, i => '/') }

  lemma {:induction false} StemOfSpace(front: string, n: nat)
    requires front == "" || front[|front| - 1] != '/'
    requires AllSpace(front) || n > 0
    ensures DropTrailingSlashes(front + Slashes(n)) == front
    ensures n == 1 ==> front + Slashes(n) == front + "/"
  {
    var s := front + Slashes(n);
    if n == 0 {
      NoSlashInSpace(front);
      assert s == front;
    } else {
      assert s[..|s| - 1] == front + Slashes(n - 1);
      if n > 1 {
        StemOfSpace(front, n - 1);
      } else {
        assert s[..|s| - 1] == front;
        if front != "" { EndsOtherwise(front); }
      }
    }
  }

  /** White space and several slashes: read back, one is left. */
  lemma SpaceAndSlashesAreUnstable(front: string, n: nat)
    requires AllSpace(front) && front != "" && n >= 2
    ensures !IsStable(None, front + Slashes(n))
  {
    hide Trim, IsSpace, DropTrailingSlashes, DropLeadingSlashes, AbsolutePath, Join, Split, LastSegment;
    var base, path := front + Slashes(n), Slashes(n);
    SlashIsVisible();
    NoSlashInSpace(front);
    StemOfSpace(front, n);
    NoPathGivesTheBase(base);
    TrimOfSpaced(front, path);
    TrimFirst(base, base);
    assert path[1] == '/' && base[0] == front[0];
    JoinedForm(path, base);
    OnlySlashes(path);
    LastPieceOf(front);
    BlankSplit();
    assert KeptPieces(path, front) == [""];
  }

  /** A stem of white space, slashes, and something more. */
  predicate IsSlashedStem(b: string) {
    && b != "" && IsSpace(b[0]) && b[|b| - 1] != '/'
    && TrimStart(b) != "" && TrimStart(b)[0] == '/' && !("/api" <= TrimStart(b))
  }

  lemma SlashedStemTail(b: string)
    requires IsSlashedStem(b)
    ensures var c := TrimStart(b); DropLeadingSlashes(c) != "" && c != "/" && c[|c| - 1] == b[|b| - 1] && |c| < |b|
  {
    hide IsSpace;
    var front := TrimStartSplits(b);
    TailOf(TrimStart(b));
  }

  lemma SlashedStemPath(base: string, j: string)
    requires IsSlashedStem(DropTrailingSlashes(base)) && EndsVisible(j)
    ensures var b := DropTrailingSlashes(base);
            Trim(b + "/" + j) == TrimStart(b) + "/" + j && IsJoined(TrimStart(b) + "/" + j, base)
  {
    hide IsSpace, DropTrailingSlashes, TrimStart, Trim, DropLeadingSlashes;
    var b := DropTrailingSlashes(base);
    var front := TrimStartSplits(b);
    var path := TrimStart(b) + "/" + j;
    StemOf(base);
    SlashIsVisible();
    SlashedStemTail(b);
    assert path[0] == '/' && (j == "" ==> path[|path| - 1] == '/') && (j != "" ==> path[|path| - 1] == j[|j| - 1]);
    assert b + "/" + j == front + path;
    TrimOfSpaced(front, path);
    NoApiLater(TrimStart(b), j);
    assert base[0] == b[0];
  }

  lemma NoApiLater(c: string, j: string)
    requires c != "" && !("/api" <= c)
    ensures !("/api" <= c + "/" + j)
  {
    var path := c + "/" + j;
    if |c| >= 4 {
      assert path[..4] == c[..4];
    } else {
      assert path[|c|] == '/';
    }
  }

  lemma SlashedStemKept(b: string, j: string)
    requires IsSlashedStem(b) && '/' !in DropLeadingSlashes(TrimStart(b))
    ensures KeptPieces(TrimStart(b) + "/" + j, b) == Split(j, '/') && KeptPieces(TrimStart(b), b) == []
  {
    hide IsSpace, DropLeadingSlashes, TrimStart, Split, LastSegment;
    var c := TrimStart(b);
    var d := DropLeadingSlashes(c);
    SlashedStemTail(b);
    assert c + "/" + j == c + ("/" + j);
    DropLeadingJoin(c, "/" + j);
    assert d + ("/" + j) == d + ['/'] + j;
    SplitPrefix(d, '/', j);
    SplitNone(d, '/');
    LastPieceOf(b);
    LastPieceBehindSpace(b);
    LastPieceOf(c);
    SingleSegment(c);
  }

  lemma LastPieceAfterSlash(front: string, tail: string)
    requires '/' !in front
    ensures LastPiece(front + ['/'] + tail) == LastPiece(tail)
  {
    hide Split;
    SplitPrefix(front, '/', tail);
  }

  lemma LastPieceBehindSpace(b: string)
    requires IsSlashedStem(b)
    ensures LastPiece(b) == LastPiece(TrimStart(b))
  {
    hide IsSpace, TrimStart, LastPiece;
    var front := TrimStartSplits(b);
    var c := TrimStart(b);
    NoSlashInSpace(front);
    assert b == front + ['/'] + c[1..];
    LastPieceAfterSlash(front, c[1..]);
    assert c == "" + ['/'] + c[1..];
    LastPieceAfterSlash("", c[1..]);
  }

  /** Behind the white space a single segment: joining again keeps the same pieces. */
  lemma SlashedStemIsStable(raw: Option<string>, base: string)
    requires IsSlashedStem(DropTrailingSlashes(base)) && '/' !in DropLeadingSlashes(TrimStart(DropTrailingSlashes(base)))
    requires !IsSpace(base[|base| - 1])
    ensures IsStable(raw, base)
  {
    hide Trim, IsSpace, DropTrailingSlashes, DropLeadingSlashes, AbsolutePath, KeptPieces, Join, Split, TrimStart;
    var path, b, once := Trim(raw.GetOr("")), DropTrailingSlashes(base), AbsolutePath(raw, base);
    StemOf(base);
    AbsoluteCases(raw, base);
    if once == base {
      BaseReadsAsItself(base);
    } else if IsJoined(path, base) && once == Onto(b, KeptPieces(path, b)) {
      if KeptPieces(path, b) == [] {
        NoPieceKept(path, b);
        StemReadsAsItself(base);
      } else {
        KeptIsTrimmed(path, b);
        JoinReadsAsItself(base, Join(KeptPieces(path, b), "/"));
      }
    } else {
      SpacedIsNoPrefix(base, path);
      AbsoluteFixed(once, base);
    }
  }

  lemma SpacedIsNoPrefix(base: string, path: string)
    requires base != "" && IsSpace(base[0]) && IsTrimmed(path)
    ensures !(base <= path)
  {
  }

  lemma JoinReadsAsItself(base: string, j: string)
    requires IsSlashedStem(DropTrailingSlashes(base)) && '/' !in DropLeadingSlashes(TrimStart(DropTrailingSlashes(base)))
    requires EndsVisible(j)
    ensures var once := DropTrailingSlashes(base) + "/" + j; AbsolutePath(Some(once), base) == once
  {
    hide Trim, IsSpace, DropTrailingSlashes, DropLeadingSlashes, AbsolutePath, KeptPieces, Join, Split, TrimStart;
    var b := DropTrailingSlashes(base);
    SlashedStemPath(base, j);
    TrimFirst(b + "/" + j, base);
    JoinedForm(TrimStart(b) + "/" + j, base);
    SlashedStemKept(b, j);
    JoinSplit(j, '/');
  }

  lemma StemReadsAsItself(base: string)
    requires IsSlashedStem(DropTrailingSlashes(base)) && '/' !in DropLeadingSlashes(TrimStart(DropTrailingSlashes(base)))
    requires var b := DropTrailingSlashes(base); !IsSpace(b[|b| - 1])
    ensures var b := DropTrailingSlashes(base); AbsolutePath(Some(b), base) == b
  {
    hide Trim, IsSpace, DropTrailingSlashes, DropLeadingSlashes, AbsolutePath, KeptPieces, Join, Split, TrimStart;
    var b := DropTrailingSlashes(base);
    var c := TrimStart(b);
    var front := TrimStartSplits(b);
    StemOf(base);
    SlashIsVisible();
    SlashedStemTail(b);
    TrimOfSpaced(front, c);
    TrimFirst(b, base);
    assert base[0] == b[0] && c[0] == '/';
    JoinedForm(c, base);
    SlashedStemKept(b, "");
  }

  lemma BaseReadsAsItself(base: string)
    requires IsSlashedStem(DropTrailingSlashes(base)) && '/' !in DropLeadingSlashes(TrimStart(DropTrailingSlashes(base)))
    requires !IsSpace(base[|base| - 1])
    ensures AbsolutePath(Some(base), base) == base
  {
    hide Trim, IsSpace, DropTrailingSlashes, DropLeadingSlashes, AbsolutePath, KeptPieces, Join, Split, TrimStart;
    var b := DropTrailingSlashes(base);
    StemOf(base);
    if base == b {
      StemReadsAsItself(base);
    } else {
      var j := base[|b| + 1..];
      assert base == b + "/" + j by { assert base[|b|] == '/'; }
      SlashIsVisible();
      JoinReadsAsItself(base, j);
    }
  }

  /** Behind the white space several segments: the stem is never recognised. */
  lemma SlashedStemIsUnstable(base: string)
    requires IsSlashedStem(DropTrailingSlashes(base)) && '/' in DropLeadingSlashes(TrimStart(DropTrailingSlashes(base)))
    ensures !IsStable(Some("x/x"), base)
  {
    hide IsSpace, Split, DropTrailingSlashes, AbsolutePath, LastSegment, Join, Trim, DropLeadingSlashes, TrimStart, KeptPieces;
    var b := DropTrailingSlashes(base);
    StemOf(base);
    OverSpaceIsJoined(base);
    JoinedForm("x/x", base);
    var j := Join(KeptPieces("x/x", b), "/");
    XOverXKeeps(b);
    XIsVisible();
    var once := b + "/" + j;
    TrimFirst(once, base);
    SlashedStemPath(base, j);
    JoinedForm(TrimStart(b) + "/" + j, base);
    SlashedStemGrows(b, j);
  }

  lemma OverSpaceIsJoined(base: string)
    requires IsSlashedStem(DropTrailingSlashes(base))
    ensures IsJoined("x/x", base)
  {
    hide DropTrailingSlashes, TrimStart;
    StemOf(base);
    assert base[0] == DropTrailingSlashes(base)[0];
  }

  lemma SlashedStemGrows(b: string, j: string)
    requires IsSlashedStem(b) && '/' in DropLeadingSlashes(TrimStart(b))
    ensures var path := TrimStart(b) + "/" + j; |Onto(b, KeptPieces(path, b))| > |b + "/" + j|
  {
    hide IsSpace, LastSegment, DropLeadingSlashes, TrimStart;
    var d := DropLeadingSlashes(TrimStart(b));
    SlashedStemTail(b);
    assert TrimStart(b) + "/" + j == TrimStart(b) + ("/" + j);
    DropLeadingJoin(TrimStart(b), "/" + j);
    var p := d + ("/" + j);
    JoinSplit(p, '/');
    var first, tail := FirstPiece(p);
    JoinSplit(tail, '/');
    assert Split(p, '/')[1..] == Split(tail, '/');
    var k :| 0 <= k < |d| && d[k] == '/';
    assert p[k] == '/';
    PieceStops(first, tail, p, k);
  }

  // ---------- every base ----------

  /** The bases under which a second pass never changes a path. */
  predicate IsFixedBase(base: string) {
    if IsTrimmed(base) then IsStableBase(base)
    else if !IsSpace(base[0]) then Trim(base) == "/"
    else
      && "/" <= Trim(base) && !("/api" <= Trim(base))
      && if IsSpace(base[|base| - 1]) then Trim(base) == "/"
         else var c := TrimStart(DropTrailingSlashes(base)); c != "" && '/' !in DropLeadingSlashes(c)
  }

  lemma SlashedShape(base: string) returns (front: string)
    requires HasSlashedStart(base) && !IsSpace(base[|base| - 1])
    ensures AllSpace(front) && front != "" && base == front + Trim(base) && Trim(base) == TrimStart(base)
    ensures var b := DropTrailingSlashes(base);
            if TrimStart(b) == "" then b == front else IsSlashedStem(b)
  {
    hide IsSpace, TrimStart, DropTrailingSlashes;
    var t, b := TrimStart(base), DropTrailingSlashes(base);
    front := TrimStartSplits(base);
    if t == "" {
      BlankTrims(base);
    }
    assert base[|base| - 1] == t[|t| - 1];
    TrimStartFront(base);
    TrimEndVisible(t);
    StemOf(base);
    NoSlashInSpace(front);
    StemKeepsFront(front, t, base, b);
  }

  lemma BlankTrims(base: string)
    requires TrimStart(base) == ""
    ensures Trim(base) == ""
  {
  }

  lemma TrimEndVisible(t: string)
    requires t != "" && !IsSpace(t[|t| - 1])
    ensures TrimEnd(t) == t
  {
  }

  lemma StemKeepsFront(front: string, t: string, base: string, b: string)
    requires AllSpace(front) && front != "" && base == front + t && "/" <= t && !("/api" <= t) && !IsSpace(t[0]) && '/' !in front
    requires b <= base && (b == "" || b[|b| - 1] != '/') && forall i :: |b| <= i < |base| ==> base[i] == '/'
    ensures if TrimStart(b) == "" then b == front else IsSlashedStem(b)
  {
    hide IsSpace;
    assert base[0] == front[0];
    assert base[|front| - 1] == front[|front| - 1];
    assert |b| >= |front|;
    var c := b[|front|..];
    assert b == front + c && c <= t;
    SpaceIsDropped(front, c);
    if c != "" {
      assert c[0] == t[0];
    }
  }

  /** A second pass never changes a path if and only if the base is fixed; this covers every base,
      with or without white space. */
  lemma EveryBaseIff(base: string)
    ensures (forall raw :: IsStable(raw, base)) <==> IsFixedBase(base)
  {
    hide IsStable, IsStableBase, IsSpace, Trim, TrimStart, DropTrailingSlashes, DropLeadingSlashes;
    if IsTrimmed(base) {
      BaseIsStableIff(base);
    } else if !IsSpace(base[0]) {
      SpacedEndIsStableIff(base);
    } else if HasSlashedStart(base) {
      SlashedStartIff(base);
    } else {
      SpacedStartFails(base);
    }
  }

  lemma SpacedStartFails(base: string)
    requires base != "" && IsSpace(base[0]) && !HasSlashedStart(base)
    ensures !forall raw :: IsStable(raw, base)
  {
    hide IsStable, IsSpace, Trim, DropTrailingSlashes;
    if "/api" <= Trim(base) {
      SpaceBeforeApiIsUnstable(base);
    } else if AllSpace(base) {
      BlankBaseIsUnstable(base);
    } else {
      SpacedStemOf(base);
      SpacedStartIsUnstable(base);
    }
  }

  lemma SpacedStemOf(base: string)
    requires base != "" && IsSpace(base[0]) && !AllSpace(base) && !("/" <= Trim(base))
    ensures IsSpacedStem(DropTrailingSlashes(base))
  {
    hide IsSpace, TrimStart, DropTrailingSlashes;
    var front := TrimStartSplits(base);
    var t, b := TrimStart(base), DropTrailingSlashes(base);
    TrimStartFront(base);
    FirstIsKept(t);
    StemOf(base);
    NoSlashInSpace(front);
    StemStartsAlike(front, t, base, b);
  }

  lemma FirstIsKept(t: string)
    requires t != "" && !IsSpace(t[0])
    ensures TrimEnd(t) != "" && TrimEnd(t)[0] == t[0]
  {
    VisibleStays(t);
    TrimEndShape(t);
  }

  lemma StemStartsAlike(front: string, t: string, base: string, b: string)
    requires AllSpace(front) && base == front + t && t != "" && t[0] != '/' && !IsSpace(t[0]) && base != "" && IsSpace(base[0])
    requires b <= base && (b == "" || b[|b| - 1] != '/') && forall i :: |b| <= i < |base| ==> base[i] == '/'
    ensures IsSpacedStem(b)
  {
    hide IsSpace;
    assert base[|front|] == t[0];
    assert |b| > |front|;
    var c := b[|front|..];
    assert b == front + c && c <= t && c != "" && c[0] == t[0];
    SpaceIsDropped(front, c);
  }

  lemma SlashedStartIff(base: string)
    requires HasSlashedStart(base)
    ensures (forall raw :: IsStable(raw, base)) <==>
              if IsSpace(base[|base| - 1]) then Trim(base) == "/"
              else var c := TrimStart(DropTrailingSlashes(base)); c != "" && '/' !in DropLeadingSlashes(c)
  {
    hide IsStable, IsSpace, Trim, TrimStart, DropTrailingSlashes, DropLeadingSlashes, IsSlashedStem;
    if IsSpace(base[|base| - 1]) {
      if Trim(base) == "/" {
        forall raw ensures IsStable(raw, base) { SlashInSpaceIsStable(raw, base); }
      } else {
        SpacedBothIsUnstable(base);
      }
    } else {
      var front := SlashedShape(base);
      var b := DropTrailingSlashes(base);
      if TrimStart(b) == "" {
        BareSlashesFail(base, front);
      } else if '/' in DropLeadingSlashes(TrimStart(b)) {
        SlashedStemIsUnstable(base);
      } else {
        forall raw ensures IsStable(raw, base) { SlashedStemIsStable(raw, base); }
      }
    }
  }

  lemma BareSlashesFail(base: string, front: string)
    requires AllSpace(front) && front != "" && DropTrailingSlashes(base) == front && |base| > |front|
    ensures !forall raw :: IsStable(raw, base)
  {
    hide IsStable, IsSpace, DropTrailingSlashes;
    StemOf(base);
    var n := |base| - |front|;
    assert base == front + Slashes(n);
    if n == 1 {
      assert base == front + "/";
      SpaceAndSlashIsUnstable(front);
    } else {
      SpaceAndSlashesAreUnstable(front, n);
    }
  }
}
