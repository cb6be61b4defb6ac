/** Which spellings of a type mean the same. */
module TypeVocabulary {
  import opened Text
  import opened Collections
  import opened FieldTypes
  import opened FieldGrounding

  datatype Word = Uuid | Str | Integer | Decimal | Boolean | Timestamp | Enum | Json

  /** How each type is named. */
  function NameOf(w: Word): string {
    match w
    case Uuid => "uuid"
    case Str => "string"
    case Integer => "integer"
    case Decimal => "decimal"
    case Boolean => "boolean"
    case Timestamp => "timestamp"
    case Enum => "enum"
    case Json => "json"
  }

  /** How else it may be spelled. */
  function OtherSpellings(w: Word): seq<string> {
    match w
    case Uuid => ["guid"]
    case Str => ["varchar", "char", "text", "str"]
    case Integer => ["int", "int4", "int8", "bigint", "smallint", "serial", "bigserial"]
    case Decimal => ["number", "numeric", "float", "double", "money"]
    case Boolean => ["bool"]
    case Timestamp => ["datetime", "timestamptz"]
    case Enum => []
    case Json => ["jsonb"]
  }

  predicate Spells(s: string, w: Word) { s == NameOf(w) || s in OtherSpellings(w) }

  // ---------- one type, several spellings ----------

  lemma NamesAreNoAliases(w: Word)
    ensures NameOf(w) !in TYPE_ALIASES
  {
  }

  lemma SpellingsAreAliases(w: Word, i: nat)
    requires i < |OtherSpellings(w)|
    ensures var s := OtherSpellings(w)[i]; s in TYPE_ALIASES && TYPE_ALIASES[s] == NameOf(w)
  {
  }

  lemma AliasesAreSpellings(s: string)
    requires s in TYPE_ALIASES
    ensures exists w :: s in OtherSpellings(w) && TYPE_ALIASES[s] == NameOf(w)
  {
    if TYPE_ALIASES[s] == "string" {
      assert s in OtherSpellings(Str);
    } else if TYPE_ALIASES[s] == "integer" {
      assert s in OtherSpellings(Integer);
    } else if TYPE_ALIASES[s] == "decimal" {
      assert s in OtherSpellings(Decimal);
    } else if TYPE_ALIASES[s] == "boolean" {
      assert s in OtherSpellings(Boolean);
    } else if TYPE_ALIASES[s] == "timestamp" {
      assert s in OtherSpellings(Timestamp);
    } else if TYPE_ALIASES[s] == "json" {
      assert s in OtherSpellings(Json);
    } else {
      assert s in OtherSpellings(Uuid);
    }
  }

  lemma NamesDiffer(v: Word, w: Word)
    ensures NameOf(v) == NameOf(w) <==> v == w
  {
  }

  /** No arguments, and no time zone to drop. */
  predicate IsPlain(t: string) { '(' !in t && !EndsWith(Fold(t), "zone") }

  lemma {:induction false} StartKeepsOut(s: string, c: char)
    requires c !in s
    ensures c !in TrimStart(s)
  {
    if s != "" && IsSpace(s[0]) {
      StartKeepsOut(s[1..], c);
    }
  }

  lemma TrimKeepsOut(s: string, c: char)
    requires c !in s
    ensures c !in Trim(s)
  {
    StartKeepsOut(s, c);
    TrimEndShape(TrimStart(s));
  }

  lemma PlainTypeName(t: string)
    requires IsPlain(t)
    ensures TypeName(t) == if Fold(t) in TYPE_ALIASES then TYPE_ALIASES[Fold(t)] else Fold(t)
  {
    hide Trim, CutParenthesis, IsSpace, OneLine;
    TrimKeepsOut(t, '(');
    LowerKeepsShape(Trim(t));
    CutAtParenthesis(Fold(t), "");
    LowerTrim(Trim(t));
    TrimIdempotent(t);
    assert DropTimeZone(Fold(t)) == Fold(t);
  }

  lemma SpelledAlias(s: string, w: Word)
    ensures Spells(s, w) <==> if s in TYPE_ALIASES then TYPE_ALIASES[s] == NameOf(w) else s == NameOf(w)
  {
    NamesAreNoAliases(w);
    if s in OtherSpellings(w) {
      var i :| 0 <= i < |OtherSpellings(w)| && OtherSpellings(w)[i] == s;
      SpellingsAreAliases(w, i);
    }
    if s in TYPE_ALIASES {
      AliasesAreSpellings(s);
      var v :| s in OtherSpellings(v) && TYPE_ALIASES[s] == NameOf(v);
      NamesDiffer(v, w);
    }
  }

  /** Two types without arguments or time zone are the same exactly when they are spelled alike, or both
      spell one word of the vocabulary. */
  lemma SameIff(a: string, b: string)
    requires IsPlain(a) && IsPlain(b)
    ensures SameFieldType(a, b) <==> Fold(a) == Fold(b) || exists w :: Spells(Fold(a), w) && Spells(Fold(b), w)
  {
    hide Fold, TypeName, IsPlain, NameOf, Spells;
    PlainTypeName(a);
    PlainTypeName(b);
    forall w ensures Spells(Fold(a), w) <==> TypeName(a) == NameOf(w)
             ensures Spells(Fold(b), w) <==> TypeName(b) == NameOf(w) {
      SpelledAlias(Fold(a), w);
      SpelledAlias(Fold(b), w);
    }
    if Fold(a) in TYPE_ALIASES {
      AliasesAreSpellings(Fold(a));
    }
    if Fold(b) in TYPE_ALIASES {
      AliasesAreSpellings(Fold(b));
    }
  }

  /** The type is one of the vocabulary, however it is spelled. */
  predicate IsWord(t: string, w: Word) { IsPlain(t) && Spells(Fold(t), w) }

  /** No two words of the vocabulary are one type: an integer is never forgiven for a uuid. */
  lemma WordsDecide(a: string, b: string, v: Word, w: Word)
    requires IsWord(a, v) && IsWord(b, w)
    ensures SameFieldType(a, b) <==> v == w
  {
    hide Fold, TypeName, IsPlain, NameOf, Spells;
    SpelledAlias(Fold(a), v);
    SpelledAlias(Fold(b), w);
    PlainTypeName(a);
    PlainTypeName(b);
    NamesDiffer(v, w);
  }

  // ---------- a time zone ----------

  predicate IsBlank(s: string) { forall i :: 0 <= i < |s| ==> IsSpace(s[i]) }

  lemma {:induction false} TrimEndOfBlank(s: string)
    requires IsBlank(s)
    ensures TrimEnd(s) == ""
  {
    hide IsSpace;
    if s != "" {
      TrimEndOfBlank(s[..|s| - 1]);
    }
  }

  /** A last word goes, with the white space before it. */
  lemma WordIsDropped(front: string, gap: string, word: string)
    requires front != "" && !IsSpace(front[|front| - 1]) && gap != "" && IsBlank(gap)
    ensures DropLastWord(Some(front + gap + word), word) == Some(front)
  {
    hide IsSpace, TrimEnd;
    var text := front + gap + word;
    assert text[|text| - |word|..] == word && text[..|text| - |word|] == front + gap;
    assert text[|text| - |word| - 1] == gap[|gap| - 1];
    TrimEndOfBlank(gap);
    TrimEndStops(front, gap);
    assert front + "" == front;
  }

  lemma ZoneIsDropped(x: string, a: string, b: string, c: string)
    requires x != "" && !IsSpace(x[|x| - 1]) && IsGap(a) && IsGap(b) && IsGap(c)
    ensures DropTimeZone(x + a + "with" + b + "time" + c + "zone") == x
  {
    hide IsSpace;
    assert !IsSpace('h') && !IsSpace('e') by { VisibleEnds(); }
    WordIsDropped(x, a, "with");
    WordIsDropped(x + a + "with", b, "time");
    WordIsDropped(x + a + "with" + b + "time", c, "zone");
  }

  lemma VisibleEnds()
    ensures !IsSpace('h') && !IsSpace('e')
  {
  }

  /** Some white space. */
  predicate IsGap(s: string) { s != "" && IsBlank(s) }

  lemma LowerOfBlank(s: string)
    requires IsBlank(s)
    ensures Lower(s) == s
  {
  }

  lemma LowerWords()
    ensures Lower("with") == "with" && Lower("time") == "time" && Lower("zone") == "zone"
  {
  }

  /** A type with a time zone is the type without. */
  lemma TimeZoneIsForgiven(x: string, a: string, b: string, c: string)
    requires x != "" && IsTrimmed(x) && IsPlain(x) && IsGap(a) && IsGap(b) && IsGap(c)
    ensures SameFieldType(x + a + "with" + b + "time" + c + "zone", x)
  {
    hide IsSpace, CutParenthesis, DropTimeZone, Trim, IsBlank;
    var all := x + a + "with" + b + "time" + c + "zone";
    PlainTypeName(x);
    TrimOfTrimmed(x);
    ZonedIsTrimmed(x, all);
    TrimOfTrimmed(all);
    LowerOfBlank(a);
    LowerOfBlank(b);
    LowerOfBlank(c);
    LowerWords();
    LowerConcat(x, a);
    LowerConcat(x + a, "with");
    LowerConcat(x + a + "with", b);
    LowerConcat(x + a + "with" + b, "time");
    LowerConcat(x + a + "with" + b + "time", c);
    LowerConcat(x + a + "with" + b + "time" + c, "zone");
    LowerKeepsShape(x);
    BlankHasNoParenthesis(a);
    BlankHasNoParenthesis(b);
    BlankHasNoParenthesis(c);
    CutAtParenthesis(Lower(all), "");
    LowerEnd(x);
    ZoneIsDropped(Lower(x), a, b, c);
    LowerTrim(x);
  }

  lemma BlankHasNoParenthesis(s: string)
    requires IsBlank(s)
    ensures '(' !in s
  {
  }

  lemma LowerEnd(x: string)
    requires x != "" && !IsSpace(x[|x| - 1])
    ensures Lower(x) != "" && !IsSpace(Lower(x)[|x| - 1])
  {
  }

  lemma ZonedIsTrimmed(x: string, all: string)
    requires x != "" && IsTrimmed(x) && x <= all && all[|all| - 1] == 'e'
    ensures IsTrimmed(all)
  {
    assert all[0] == x[0];
  }
}
