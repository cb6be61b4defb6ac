/** The string operations the design passes share, spelled out on characters.
    Case folding is the ASCII one; trimming removes what JavaScript's `trim` removes. */
module Text {

  // ---------- trimming ----------

  predicate IsSpace(c: char) {
    || '\t' <= c <= '\r'
    || c == ' ' || c == '\U{00A0}' || c == '\U{1680}'
    || '\U{2000}' <= c <= '\U{200A}'
    || c == '\U{2028}' || c == '\U{2029}' || c == '\U{202F}' || c == '\U{205F}'
    || c == '\U{3000}' || c == '\U{FEFF}'
  }

  function TrimStart(s: string): string {
    if s != "" && IsSpace(s[0]) then TrimStart(s[1..]) else s
  }

  function TrimEnd(s: string): string {
    if s != "" && IsSpace(s[|s| - 1]) then TrimEnd(s[..|s| - 1]) else s
  }

  function Trim(s: string): string {
    TrimEnd(TrimStart(s))
  }

  /** No white space at either end. */
  predicate IsTrimmed(s: string) {
    s == "" || (!IsSpace(s[0]) && !IsSpace(s[|s| - 1]))
  }

  lemma {:induction false} TrimStartFront(s: string)
    ensures var r := TrimStart(s); r == "" || !IsSpace(r[0])
  {
    if s != "" && IsSpace(s[0]) {
      TrimStartFront(s[1..]);
    }
  }

  lemma {:induction false} TrimEndShape(s: string)
    ensures var r := TrimEnd(s); r <= s && (r == "" || !IsSpace(r[|r| - 1]))
  {
    if s != "" && IsSpace(s[|s| - 1]) {
      TrimEndShape(s[..|s| - 1]);
    }
  }

  lemma TrimIsTrimmed(s: string)
    ensures IsTrimmed(Trim(s))
  {
    TrimStartFront(s);
    TrimEndShape(TrimStart(s));
  }

  lemma TrimOfTrimmed(s: string)
    requires IsTrimmed(s)
    ensures Trim(s) == s
  {
  }

  lemma TrimIdempotent(s: string)
    ensures Trim(Trim(s)) == Trim(s)
  {
    TrimIsTrimmed(s);
  }

  /** Trimming the end never reaches past a visible character. */
  lemma {:induction false} TrimEndStops(front: string, back: string)
    requires front != "" && !IsSpace(front[|front| - 1])
    ensures TrimEnd(front + back) == front + TrimEnd(back)
  {
    var s := front + back;
    if back == "" {
      assert s == front;
    } else if IsSpace(back[|back| - 1]) {
      TrimEndStops(front, back[..|back| - 1]);
      assert s[..|s| - 1] == front + back[..|back| - 1];
    }
  }

  // ---------- case ----------

  function LowerChar(c: char): char {
    if 'A' <= c <= 'Z' then c - 'A' + 'a' else c
  }

  function UpperChar(c: char): char {
    if 'a' <= c <= 'z' then c - 'a' + 'A' else c
  }

  function Lower(s: string): (r: string)
    ensures |r| == |s|
    ensures forall i :: 0 <= i < |s| ==> r[i] == LowerChar(s[i])
  {
    seq(|s|, i requires 0 <= i < |s| => LowerChar(s[i]))
  }

  lemma LowerConcat(s: string, t: string)
    ensures Lower(s + t) == Lower(s) + Lower(t)
  {
  }

  /** The identity under which names are compared: trimmed and case-folded. */
  function Fold(s: string): string {
    Lower(Trim(s))
  }

  lemma {:induction false} LowerTrimStart(s: string)
    ensures TrimStart(Lower(s)) == Lower(TrimStart(s))
  {
    if s != "" && IsSpace(s[0]) {
      LowerTrimStart(s[1..]);
      assert Lower(s)[1..] == Lower(s[1..]);
    }
  }

  lemma {:induction false} LowerTrimEnd(s: string)
    ensures TrimEnd(Lower(s)) == Lower(TrimEnd(s))
  {
    if s != "" && IsSpace(s[|s| - 1]) {
      LowerTrimEnd(s[..|s| - 1]);
      assert Lower(s)[..|s| - 1] == Lower(s[..|s| - 1]);
    }
  }

  lemma LowerTrim(s: string)
    ensures Trim(Lower(s)) == Lower(Trim(s))
  {
    LowerTrimStart(s);
    LowerTrimEnd(TrimStart(s));
  }

  // ---------- searching and splitting ----------

  predicate EndsWith(s: string, suffix: string) {
    |suffix| <= |s| && s[|s| - |suffix|..] == suffix
  }

  predicate Contains(s: string, part: string) {
    part <= s || (s != "" && Contains(s[1..], part))
  }

  predicate ContainsAny(s: string, parts: seq<string>) {
    exists i :: 0 <= i < |parts| && Contains(s, parts[i])
  }

  /** The pieces between occurrences of `sep`; never empty, like JavaScript's `split`. */
  function Split(s: string, sep: char): (r: seq<string>)
    ensures |r| >= 1
    ensures forall i :: 0 <= i < |r| ==> sep !in r[i]
  {
    if s == "" then [""]
    else
      var rest := Split(s[1..], sep);
      if s[0] == sep then [""] + rest else [[s[0]] + rest[0]] + rest[1..]
  }

  function Join(parts: seq<string>, sep: string): string {
    if parts == [] then ""
    else if |parts| == 1 then parts[0]
    else parts[0] + sep + Join(parts[1..], sep)
  }

  /** A separator-free prefix becomes the first piece. */
  lemma {:induction false} SplitPrefix(front: string, sep: char, back: string)
    requires sep !in front
    ensures Split(front + [sep] + back, sep) == [front] + Split(back, sep)
  {
    var s := front + [sep] + back;
    if front == "" {
      assert s[1..] == back;
    } else {
      SplitPrefix(front[1..], sep, back);
      assert s[1..] == front[1..] + [sep] + back;
      assert s[0] == front[0] && front == [front[0]] + front[1..];
      assert s[0] in front;
    }
  }

  lemma {:induction false} SplitNone(s: string, sep: char)
    requires sep !in s
    ensures Split(s, sep) == [s]
  {
    if s != "" {
      SplitNone(s[1..], sep);
      assert s[0] in s;
      assert [s[0]] + s[1..] == s;
    }
  }

  /** Joining the pieces back with the separator restores the string. */
  lemma {:induction false} JoinSplit(s: string, sep: char)
    ensures Join(Split(s, sep), [sep]) == s
  {
    if s != "" {
      JoinSplit(s[1..], sep);
      var rest, all := Split(s[1..], sep), Split(s, sep);
      if s[0] == sep {
        assert all[1..] == rest;
      } else {
        assert all[0] == [s[0]] + rest[0] && all[1..] == rest[1..];
        if |rest| > 1 {
          assert Join(all, [sep]) == all[0] + [sep] + Join(all[1..], [sep]);
        }
      }
    }
  }

  // ---------- nouns and keys ----------

  /** A character of a word in the sense of `\w`. */
  predicate IsWordChar(c: char) { 'a' <= c <= 'z' || 'A' <= c <= 'Z' || '0' <= c <= '9' || c == '_' }

  predicate IsAlnumLower(c: char) {
    'a' <= c <= 'z' || '0' <= c <= '9'
  }

  function KeepAlnum(s: string): string {
    if s == "" then "" else (if IsAlnumLower(s[0]) then [s[0]] else []) + KeepAlnum(s[1..])
  }

  /** Compare names on their letters and digits alone. */
  function Key(s: string): string {
    KeepAlnum(Lower(s))
  }

  /** Drops one trailing "s". */
  function Singular(s: string): string {
    if s != "" && s[|s| - 1] == 's' then s[..|s| - 1] else s
  }

  predicate IsVowel(c: char) {
    LowerChar(c) in ['a', 'e', 'i', 'o', 'u']
  }

  /** English singular for matching: `-ies` to `-y`, a sibilant `-es` dropped, else one "s". */
  function SingularNoun(noun: string): string {
    var low := Lower(noun);
    if |noun| >= 4 && EndsWith(low, "ies") && !IsVowel(noun[|noun| - 4]) then
      noun[..|noun| - 3] + "y"
    else if || EndsWith(low, "sses") || EndsWith(low, "shes") || EndsWith(low, "ches")
            || EndsWith(low, "xes") || EndsWith(low, "zes") || EndsWith(low, "ses") then
      noun[..|noun| - 2]
    else Singular(noun)
  }

  function Capitalize(s: string): string {
    if s == "" then "" else [UpperChar(s[0])] + s[1..]
  }
}
