/** Decimal numerals, and the "first free suffix" naming loop built on them. */
module Numerals {

  predicate IsDigit(c: char) { '0' <= c <= '9' }

  predicate AllDigits(s: string) { forall i :: 0 <= i < |s| ==> IsDigit(s[i]) }

  function DigitChar(d: nat): char
    requires d < 10
  {
    '0' + d as char
  }

  function DigitValue(c: char): nat
    requires IsDigit(c)
  {
    (c - '0') as nat
  }

  /** The decimal numeral of `n`, without leading zeros. */
  function Decimal(n: nat): (s: string)
    ensures s != "" && AllDigits(s)
  {
    if n < 10 then [DigitChar(n)] else Decimal(n / 10) + [DigitChar(n % 10)]
  }

  /** The number a digit string denotes; the empty string denotes 0. */
  function Value(s: string): nat
    requires AllDigits(s)
  {
    if s == "" then 0 else 10 * Value(s[..|s| - 1]) + DigitValue(s[|s| - 1])
  }

  lemma {:induction false} ValueOfDecimal(n: nat)
    ensures Value(Decimal(n)) == n
  {
    var s := Decimal(n);
    if n < 10 {
      assert s[..|s| - 1] == "";
      assert Value(s) == 10 * Value("") + DigitValue(s[0]);
    } else {
      ValueOfDecimal(n / 10);
      assert s[..|s| - 1] == Decimal(n / 10) && s[|s| - 1] == DigitChar(n % 10);
    }
  }

  /** The k-th name tried for `base`: `base` itself, then `base` + `sep` + 2, 3, ... */
  function Candidate(base: string, sep: string, k: nat): string {
    if k <= 1 then base else base + sep + Decimal(k)
  }

  lemma CandidatesDiffer(base: string, sep: string, j: nat, k: nat)
    requires 1 <= j < k
    ensures Candidate(base, sep, j) != Candidate(base, sep, k)
  {
    var stem := base + sep;
    assert Candidate(base, sep, k) == stem + Decimal(k);
    assert (stem + Decimal(k))[|stem|..] == Decimal(k);
    if j == 1 {
      assert |Candidate(base, sep, k)| > |base|;
    } else {
      assert (stem + Decimal(j))[|stem|..] == Decimal(j);
      ValueOfDecimal(j);
      ValueOfDecimal(k);
    }
  }

  /** How far the naming loop counts, starting at candidate `k`. */
  function FreeIndex(base: string, sep: string, used: set<string>, k: nat): (r: nat)
    ensures r >= k
    decreases used
  {
    if Candidate(base, sep, k) in used then
      FreeIndex(base, sep, used - {Candidate(base, sep, k)}, k + 1)
    else k
  }

  /** The name is free, and every earlier candidate was taken. */
  lemma {:induction false} FreeIndexIsFirstFree(base: string, sep: string, used: set<string>, k: nat)
    requires k >= 1
    ensures var r := FreeIndex(base, sep, used, k);
            && Candidate(base, sep, r) !in used
            && forall j :: k <= j < r ==> Candidate(base, sep, j) in used
    decreases used
  {
    var c := Candidate(base, sep, k);
    if c in used {
      FreeIndexIsFirstFree(base, sep, used - {c}, k + 1);
      var r := FreeIndex(base, sep, used, k);
      CandidatesDiffer(base, sep, k, r);
    }
  }

  /** Any index with those two properties is the one the loop stops at. */
  lemma FirstFreeIsUnique(base: string, sep: string, used: set<string>, r: nat)
    requires r >= 1 && Candidate(base, sep, r) !in used
    requires forall j :: 1 <= j < r ==> Candidate(base, sep, j) in used
    ensures FreeIndex(base, sep, used, 1) == r
  {
    FreeIndexIsFirstFree(base, sep, used, 1);
  }

  function FreeName(base: string, sep: string, used: set<string>): string {
    Candidate(base, sep, FreeIndex(base, sep, used, 1))
  }

  /** Counts up until the name is free. The tried names are distinct members of the finite
      set `used`, so the part of `used` not yet tried shrinks on every turn. */
  method PickFreeName(base: string, sep: string, used: set<string>) returns (name: string)
    ensures name !in used
    ensures name == FreeName(base, sep, used)
  {
    name := base;
    var n := 2;
    ghost var untried := used;
    while name in used
      invariant n >= 2 && name == Candidate(base, sep, n - 1)
      invariant forall j :: 1 <= j < n - 1 ==> Candidate(base, sep, j) in used
      invariant untried <= used
      invariant forall x :: x in used && x !in untried ==>
                  exists j :: 1 <= j < n - 1 && x == Candidate(base, sep, j)
      decreases untried
    {
      forall j | 1 <= j < n - 1 ensures Candidate(base, sep, j) != name {
        CandidatesDiffer(base, sep, j, n - 1);
      }
      untried := untried - {name};
      name := base + sep + Decimal(n);
      n := n + 1;
    }
    FirstFreeIsUnique(base, sep, used, n - 1);
  }
}
