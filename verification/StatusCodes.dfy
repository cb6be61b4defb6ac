/** Coercing whatever a model wrote for status codes into distinct HTTP integers. */
module StatusCodes {
  import opened Collections
  import opened Numerals

  /** An untrusted JSON value. Numbers are finite; anything else is `RawOther`. */
  datatype Raw = RawArray(items: seq<Raw>) | RawNumber(value: real) | RawText(text: string) | RawOther

  predicate IsCode(n: int) { 100 <= n <= 599 }

  function Push(out: seq<int>, n: int): seq<int> {
    if IsCode(n) then AddNew(out, n) else out
  }

  function PushAll(out: seq<int>, codes: seq<int>): seq<int> {
    if codes == [] then out else Push(PushAll(out, codes[..|codes| - 1]), codes[|codes| - 1])
  }

  /** The three-digit chunks of a digit run. */
  function Chunks(digits: string): (r: seq<int>)
    requires AllDigits(digits) && |digits| % 3 == 0
    ensures |r| == |digits| / 3
  {
    if digits == "" then [] else [Value(digits[..3])] + Chunks(digits[3..])
  }

  predicate AllCodes(codes: seq<int>) { forall i :: 0 <= i < |codes| ==> IsCode(codes[i]) }

  /** One digit run: a code, several glued codes, or (last resort) one number. */
  function FromDigits(out: seq<int>, digits: string): seq<int>
    requires AllDigits(digits)
  {
    if digits == "" then out
    else if |digits| > 3 && |digits| % 3 == 0 && AllCodes(Chunks(digits)) then PushAll(out, Chunks(digits))
    else Push(out, Value(digits))
  }

  function LeadingDigits(s: string): (r: string)
    ensures AllDigits(r) && r <= s
    ensures |r| < |s| ==> !IsDigit(s[|r|])
  {
    if s != "" && IsDigit(s[0]) then [s[0]] + LeadingDigits(s[1..]) else ""
  }

  /** The maximal digit runs of a text. */
  function Tokens(s: string): (r: seq<string>)
    ensures forall i :: 0 <= i < |r| ==> AllDigits(r[i])
    decreases |s|
  {
    if s == "" then []
    else if !IsDigit(s[0]) then Tokens(s[1..])
    else
      var run := LeadingDigits(s);
      assert |run| > 0;
      [run] + Tokens(s[|run|..])
  }

  function FromTokens(out: seq<int>, tokens: seq<string>): seq<int>
    requires forall i :: 0 <= i < |tokens| ==> AllDigits(tokens[i])
  {
    if tokens == [] then out
    else FromDigits(FromTokens(out, tokens[..|tokens| - 1]), tokens[|tokens| - 1])
  }

  function Truncated(value: real): nat {
    (if value < 0.0 then -value else value).Floor
  }

  function Visit(out: seq<int>, raw: Raw): seq<int>
    decreases raw, 0
  {
    match raw
    case RawArray(items) => VisitAll(out, items)
    case RawNumber(value) => FromDigits(out, Decimal(Truncated(value)))
    case RawText(text) => FromTokens(out, Tokens(text))
    case RawOther => out
  }

  function VisitAll(out: seq<int>, items: seq<Raw>): seq<int>
    decreases items
  {
    if items == [] then out else Visit(VisitAll(out, items[..|items| - 1]), items[|items| - 1])
  }

  function StatusCodesOf(raw: Raw): seq<int> { Visit([], raw) }

  // ---------- the imperative visitors ----------

  method PushDigits(start: seq<int>, digits: string) returns (out: seq<int>)
    requires AllDigits(digits)
    ensures out == FromDigits(start, digits)
  {
    out := start;
    if digits == "" {
      return;
    }
    if |digits| == 3 {
      out := Push(out, Value(digits));
      return;
    }
    if |digits| > 3 && |digits| % 3 == 0 {
      var codes := Chunks(digits);
      if AllCodes(codes) {
        for i := 0 to |codes|
          invariant out == PushAll(start, codes[..i])
        {
          assert codes[..i + 1][..i] == codes[..i];
          out := Push(out, codes[i]);
        }
        assert codes[..|codes|] == codes;
        return;
      }
    }
    out := Push(out, Value(digits));
  }

  method VisitRaw(start: seq<int>, raw: Raw) returns (out: seq<int>)
    ensures out == Visit(start, raw)
    decreases raw
  {
    out := start;
    match raw {
      case RawArray(items) =>
        for i := 0 to |items|
          invariant out == VisitAll(start, items[..i])
        {
          assert items[..i + 1][..i] == items[..i];
          out := VisitRaw(out, items[i]);
        }
        assert items[..|items|] == items;
      case RawNumber(value) =>
        out := PushDigits(out, Decimal(Truncated(value)));
      case RawText(text) =>
        var tokens := Tokens(text);
        for i := 0 to |tokens|
          invariant out == FromTokens(start, tokens[..i])
        {
          assert tokens[..i + 1][..i] == tokens[..i];
          out := PushDigits(out, tokens[i]);
        }
        assert tokens[..|tokens|] == tokens;
      case RawOther =>
    }
  }

  method NormalizeStatusCodes(raw: Raw) returns (out: seq<int>)
    ensures out == StatusCodesOf(raw)
  {
    out := VisitRaw([], raw);
  }

  // ---------- what comes out ----------

  predicate Clean(codes: seq<int>) { NoDuplicates(codes) && AllCodes(codes) }

  lemma {:induction false} PushAllClean(out: seq<int>, codes: seq<int>)
    requires Clean(out)
    ensures Clean(PushAll(out, codes))
  {
    if codes != [] {
      PushAllClean(out, codes[..|codes| - 1]);
    }
  }

  lemma FromDigitsClean(out: seq<int>, digits: string)
    requires Clean(out) && AllDigits(digits)
    ensures Clean(FromDigits(out, digits))
  {
    if |digits| % 3 == 0 {
      PushAllClean(out, Chunks(digits));
    }
  }

  lemma {:induction false} FromTokensClean(out: seq<int>, tokens: seq<string>)
    requires Clean(out) && forall i :: 0 <= i < |tokens| ==> AllDigits(tokens[i])
    ensures Clean(FromTokens(out, tokens))
  {
    if tokens != [] {
      FromTokensClean(out, tokens[..|tokens| - 1]);
      FromDigitsClean(FromTokens(out, tokens[..|tokens| - 1]), tokens[|tokens| - 1]);
    }
  }

  lemma {:induction false} VisitClean(out: seq<int>, raw: Raw)
    requires Clean(out)
    ensures Clean(Visit(out, raw))
    decreases raw, 0
  {
    match raw
    case RawArray(items) => VisitAllClean(out, items);
    case RawNumber(value) => FromDigitsClean(out, Decimal(Truncated(value)));
    case RawText(text) => FromTokensClean(out, Tokens(text));
    case RawOther =>
  }

  lemma {:induction false} VisitAllClean(out: seq<int>, items: seq<Raw>)
    requires Clean(out)
    ensures Clean(VisitAll(out, items))
    decreases items
  {
    if items != [] {
      VisitAllClean(out, items[..|items| - 1]);
      VisitClean(VisitAll(out, items[..|items| - 1]), items[|items| - 1]);
    }
  }

  /** Whatever the input, the codes are distinct and in range. */
  lemma StatusCodesClean(raw: Raw)
    ensures Clean(StatusCodesOf(raw))
  {
    VisitClean([], raw);
  }

  /** In-range codes are pushed as into an ordered set. */
  lemma {:induction false} PushAllIsDistinct(before: seq<int>, codes: seq<int>)
    requires AllCodes(codes)
    ensures PushAll(Distinct(before), codes) == Distinct(before + codes)
  {
    if codes == [] {
      assert before + codes == before;
    } else {
      var front, last := codes[..|codes| - 1], codes[|codes| - 1];
      PushAllIsDistinct(before, front);
      DistinctSnoc(before + front, last);
      assert before + codes == before + front + [last];
    }
  }

  // ---------- recovering a printed list ----------

  /** A code printed as three digits. */
  lemma CodeHasThreeDigits(n: nat)
    requires IsCode(n)
    ensures |Decimal(n)| == 3 && Value(Decimal(n)) == n
  {
    ValueOfDecimal(n);
    assert |Decimal(n / 10 / 10)| == 1;
    assert |Decimal(n / 10)| == 2;
  }

  function Glue(codes: seq<int>): (s: string)
    requires AllCodes(codes)
    ensures AllDigits(s)
  {
    if codes == [] then "" else Decimal(codes[0]) + Glue(codes[1..])
  }

  lemma {:induction false} ChunksOfGlue(codes: seq<int>)
    requires AllCodes(codes)
    ensures |Glue(codes)| == 3 * |codes| && Chunks(Glue(codes)) == codes
  {
    if codes != [] {
      CodeHasThreeDigits(codes[0]);
      ChunksOfGlue(codes[1..]);
      assert Glue(codes)[..3] == Decimal(codes[0]) && Glue(codes)[3..] == Glue(codes[1..]);
    }
  }

  lemma FromGluedDigits(before: seq<int>, codes: seq<int>)
    requires AllCodes(codes) && codes != []
    ensures FromDigits(Distinct(before), Glue(codes)) == Distinct(before + codes)
  {
    ChunksOfGlue(codes);
    PushAllIsDistinct(before, codes);
    if |codes| == 1 {
      CodeHasThreeDigits(codes[0]);
      assert Glue(codes) == Decimal(codes[0]) + Glue([]) == Decimal(codes[0]);
      assert codes[..0] == [];
      assert PushAll(Distinct(before), codes) == Push(PushAll(Distinct(before), []), codes[0]);
    }
  }

  /** A run of glued codes, and the separator printed after it. */
  datatype Piece = Piece(codes: seq<int>, separator: string)

  predicate NoDigits(s: string) { forall i :: 0 <= i < |s| ==> !IsDigit(s[i]) }

  /** Runs are non-empty, separators carry no digit, and only the last may be empty. */
  predicate Printable(pieces: seq<Piece>) {
    forall i :: 0 <= i < |pieces| ==>
      && pieces[i].codes != [] && AllCodes(pieces[i].codes) && NoDigits(pieces[i].separator)
      && (i < |pieces| - 1 ==> pieces[i].separator != "")
  }

  function Printed(pieces: seq<Piece>): string
    requires Printable(pieces)
  {
    if pieces == [] then ""
    else Glue(pieces[0].codes) + pieces[0].separator + Printed(pieces[1..])
  }

  function CodesOf(pieces: seq<Piece>): seq<int> {
    if pieces == [] then [] else pieces[0].codes + CodesOf(pieces[1..])
  }

  function Runs(pieces: seq<Piece>): (r: seq<string>)
    requires Printable(pieces)
    ensures |r| == |pieces|
    ensures forall i :: 0 <= i < |r| ==> AllDigits(r[i]) && r[i] == Glue(pieces[i].codes)
  {
    seq(|pieces|, i requires 0 <= i < |pieces| => Glue(pieces[i].codes))
  }

  lemma {:induction false} TokensSkip(front: string, back: string)
    requires NoDigits(front)
    ensures Tokens(front + back) == Tokens(back)
  {
    if front == "" {
      assert front + back == back;
    } else {
      TokensSkip(front[1..], back);
      assert (front + back)[1..] == front[1..] + back;
    }
  }

  lemma {:induction false} LeadingRun(digits: string, back: string)
    requires AllDigits(digits) && (back == "" || !IsDigit(back[0]))
    ensures LeadingDigits(digits + back) == digits
  {
    if digits == "" {
      assert digits + back == back;
    } else {
      LeadingRun(digits[1..], back);
      assert (digits + back)[1..] == digits[1..] + back;
    }
  }

  lemma NoTokens()
    ensures Tokens("") == []
  {
  }

  lemma TokensOfRun(run: string, back: string)
    requires run != "" && AllDigits(run) && (back == "" || !IsDigit(back[0]))
    ensures Tokens(run + back) == [run] + Tokens(back)
  {
    LeadingRun(run, back);
    assert (run + back)[|run|..] == back;
  }

  lemma PrintedStep(pieces: seq<Piece>)
    requires Printable(pieces) && pieces != []
    ensures Printable(pieces[1..]) && AllCodes(pieces[0].codes)
    ensures var run, back := Glue(pieces[0].codes), pieces[0].separator + Printed(pieces[1..]);
            && Printed(pieces) == run + back && run != "" && AllDigits(run)
            && NoDigits(pieces[0].separator) && (back == "" || !IsDigit(back[0]))
            && Runs(pieces) == [run] + Runs(pieces[1..])
  {
    hide Glue, AllCodes, Printed, IsDigit;
    var p, rest := pieces[0], pieces[1..];
    assert forall i :: 0 <= i < |rest| ==> rest[i] == pieces[i + 1];
    ChunksOfGlue(p.codes);
    PrintedUnfolds(pieces);
    if p.separator == "" {
      assert |pieces| == 1;
      NothingPrinted(rest);
    } else {
      assert (p.separator + Printed(rest))[0] == p.separator[0];
    }
  }

  lemma NothingPrinted(pieces: seq<Piece>)
    requires pieces == []
    ensures Printed(pieces) == ""
  {
  }

  lemma PrintedUnfolds(pieces: seq<Piece>)
    requires Printable(pieces) && pieces != [] && Printable(pieces[1..])
    ensures Printed(pieces) == Glue(pieces[0].codes) + (pieces[0].separator + Printed(pieces[1..]))
  {
    hide Glue, AllCodes;
  }

  /** The text breaks up into exactly the printed runs. */
  lemma {:induction false} TokensOfPrinted(pieces: seq<Piece>)
    requires Printable(pieces)
    ensures Tokens(Printed(pieces)) == Runs(pieces)
  {
    hide Glue, Tokens, Printable, AllDigits;
    if pieces == [] {
      NoTokens();
    } else {
      PrintedStep(pieces);
      TokensOfPrinted(pieces[1..]);
      var run, back := Glue(pieces[0].codes), pieces[0].separator + Printed(pieces[1..]);
      TokensOfRun(run, back);
      TokensSkip(pieces[0].separator, Printed(pieces[1..]));
    }
  }

  lemma {:induction false} CodesOfSnoc(pieces: seq<Piece>)
    requires pieces != []
    ensures CodesOf(pieces) == CodesOf(pieces[..|pieces| - 1]) + pieces[|pieces| - 1].codes
  {
    assert CodesOf([]) == [];
    if |pieces| == 1 {
      assert pieces[1..] == [] && pieces[..0] == [];
    } else {
      var rest, last := pieces[1..], pieces[|pieces| - 1].codes;
      CodesOfSnoc(rest);
      var front := pieces[..|pieces| - 1];
      assert rest[..|rest| - 1] == front[1..] && front[0] == pieces[0];
      assert pieces[0].codes + (CodesOf(front[1..]) + last) == pieces[0].codes + CodesOf(front[1..]) + last;
    }
  }

  lemma {:induction false} FromRuns(pieces: seq<Piece>)
    requires forall i :: 0 <= i < |pieces| ==> pieces[i].codes != [] && AllCodes(pieces[i].codes)
    ensures var runs := seq(|pieces|, i requires 0 <= i < |pieces| => Glue(pieces[i].codes));
            FromTokens([], runs) == Distinct(CodesOf(pieces))
  {
    var runs := seq(|pieces|, i requires 0 <= i < |pieces| => Glue(pieces[i].codes));
    if pieces != [] {
      var front, last := pieces[..|pieces| - 1], pieces[|pieces| - 1];
      FromRuns(front);
      assert runs[..|runs| - 1] == seq(|front|, i requires 0 <= i < |front| => Glue(front[i].codes));
      CodesOfSnoc(pieces);
      FromGluedDigits(CodesOf(front), last.codes);
    }
  }

  /** However the codes were glued or separated, they come back in order, without repeats. */
  lemma PrintedCodesRecovered(lead: string, pieces: seq<Piece>)
    requires NoDigits(lead) && Printable(pieces)
    ensures StatusCodesOf(RawText(lead + Printed(pieces))) == Distinct(CodesOf(pieces))
  {
    TokensSkip(lead, Printed(pieces));
    TokensOfPrinted(pieces);
    FromRuns(pieces);
    assert Runs(pieces) == seq(|pieces|, i requires 0 <= i < |pieces| => Glue(pieces[i].codes));
  }

  // ---------- normalizing twice ----------

  /** A stored list of codes, read back. */
  function AsRaw(codes: seq<int>): Raw {
    RawArray(seq(|codes|, i requires 0 <= i < |codes| => RawNumber(codes[i] as real)))
  }

  lemma {:induction false} CleanCodesAreKept(codes: seq<int>)
    requires Clean(codes)
    ensures StatusCodesOf(AsRaw(codes)) == codes
  {
    var items := AsRaw(codes).items;
    if codes == [] {
      assert items == [];
    } else {
      var front, last := codes[..|codes| - 1], codes[|codes| - 1];
      CleanCodesAreKept(front);
      assert items[..|items| - 1] == AsRaw(front).items;
      CodeHasThreeDigits(last);
      assert Truncated(last as real) == last;
      assert items[|items| - 1] == RawNumber(last as real);
      assert Visit(front, RawNumber(last as real)) == Push(front, last);
      assert last !in front && front + [last] == codes;
      assert VisitAll([], items) == Visit(VisitAll([], items[..|items| - 1]), items[|items| - 1]);
    }
  }

  lemma StatusCodesIdempotent(raw: Raw)
    ensures StatusCodesOf(AsRaw(StatusCodesOf(raw))) == StatusCodesOf(raw)
  {
    StatusCodesClean(raw);
    CleanCodesAreKept(StatusCodesOf(raw));
  }
}
