/** What single numbers and digit runs become as status codes. */
module CodeForms {
  import opened Numerals
  import opened StatusCodes

  lemma {:induction false} FewDigits(n: nat)
    ensures n < 10 ==> |Decimal(n)| == 1
    ensures n < 100 ==> |Decimal(n)| <= 2
    ensures n < 1000 ==> |Decimal(n)| <= 3
  {
    if n >= 10 {
      FewDigits(n / 10);
    }
  }

  /** A number of three digits at most, with its fraction and sign dropped, is a code exactly from 100 to 599. */
  lemma NumberIs(x: real)
    requires -1000.0 < x < 1000.0
    ensures var n := if x >= 0.0 then x.Floor else (-x).Floor;
            StatusCodesOf(RawNumber(x)) == if 100 <= n <= 599 then [n] else []
  {
    var n := if x >= 0.0 then x.Floor else (-x).Floor;
    FewDigits(n);
    ValueOfDecimal(n);
  }

  /** A single run of digits that does not come apart into codes is read as one number. */
  lemma RunIsOneNumber(digits: string)
    requires digits != "" && AllDigits(digits)
    requires |digits| % 3 == 0 && |digits| > 3 ==> exists i :: 0 <= i < |Chunks(digits)| && !(100 <= Chunks(digits)[i] <= 599)
    ensures StatusCodesOf(RawText(digits)) == if 100 <= Value(digits) <= 599 then [Value(digits)] else []
  {
    hide Value, Chunks;
    OneToken(digits);
    var tokens := [digits];
    assert tokens[..0] == [];
    assert FromTokens([], tokens) == FromDigits(FromTokens([], []), digits);
  }

  lemma OneToken(digits: string)
    requires digits != "" && AllDigits(digits)
    ensures Tokens(digits) == [digits]
  {
    LeadingAll(digits);
    assert digits[|digits|..] == "";
    assert Tokens("") == [];
  }

  lemma {:induction false} LeadingAll(digits: string)
    requires AllDigits(digits)
    ensures LeadingDigits(digits) == digits
  {
    if digits != "" {
      LeadingAll(digits[1..]);
      assert [digits[0]] + digits[1..] == digits;
    }
  }
}
