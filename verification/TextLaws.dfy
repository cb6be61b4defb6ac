/** What the string operations do, told from what goes in. */
module TextLaws {
  import opened Text
  import opened Shared

  // ---------- white space ----------

  /** The white space and line terminators of ECMAScript. */
  lemma SpaceIs(c: char)
    ensures IsSpace(c) <==>
              var n := c as int;
              || n in [9, 10, 11, 12, 13, 32, 160, 5760, 8232, 8233, 8239, 8287, 12288, 65279]
              || 8192 <= n <= 8202
  {
  }

  predicate IsBlank(s: string) { forall i :: 0 <= i < |s| ==> IsSpace(s[i]) }

  lemma {:induction false} StartOfBlank(a: string, s: string)
    requires IsBlank(a)
    ensures TrimStart(a + s) == TrimStart(s)
  {
    hide IsSpace;
    if a == "" {
      assert a + s == s;
    } else {
      StartOfBlank(a[1..], s);
      assert (a + s)[1..] == a[1..] + s;
    }
  }

  lemma {:induction false} EndOfBlank(s: string, b: string)
    requires IsBlank(b)
    ensures TrimEnd(s + b) == TrimEnd(s)
  {
    hide IsSpace;
    if b == "" {
      assert s + b == s;
    } else {
      EndOfBlank(s, b[..|b| - 1]);
      assert (s + b)[..|s + b| - 1] == s + b[..|b| - 1];
    }
  }

  /** Trimming takes away exactly the white space around the text. */
  lemma TrimIs(a: string, s: string, b: string)
    requires IsBlank(a) && IsBlank(b) && IsTrimmed(s)
    ensures Trim(a + s + b) == s
  {
    hide IsSpace;
    StartOfBlank(a, s + b);
    assert a + s + b == a + (s + b);
    if s == "" {
      assert s + b == b == b + "";
      StartOfBlank(b, "");
    } else {
      EndOfBlank(s, b);
    }
  }

  // ---------- parts ----------

  predicate StandsAt(s: string, part: string, i: nat) {
    i + |part| <= |s| && s[i..i + |part|] == part
  }

  lemma NotAtStart(s: string, part: string)
    requires !(part <= s)
    ensures !StandsAt(s, part, 0)
  {
    if |part| <= |s| { assert s[0..0 + |part|] == s[..|part|]; }
  }

  /** A text contains what stands somewhere in it. */
  lemma {:induction false} ContainsIff(s: string, part: string)
    ensures Contains(s, part) <==> exists i :: 0 <= i <= |s| && StandsAt(s, part, i)
  {
    if part <= s {
      assert StandsAt(s, part, 0);
    } else if s != "" {
      ContainsIff(s[1..], part);
      if i :| 0 <= i <= |s[1..]| && StandsAt(s[1..], part, i) {
        assert s[i + 1..i + 1 + |part|] == s[1..][i..i + |part|];
        assert StandsAt(s, part, i + 1);
      }
      assert !StandsAt(s, part, 0) by { NotAtStart(s, part); }
      if i :| 0 <= i <= |s| && StandsAt(s, part, i) {
        if i > 0 {
          assert s[i..i + |part|] == s[1..][i - 1..i - 1 + |part|];
          assert StandsAt(s[1..], part, i - 1);
        }
      }
    }
  }

  // ---------- nouns ----------

  lemma LowerOfEnding(stem: string, ending: string)
    ensures var low := Lower(stem + ending);
            low == Lower(stem) + Lower(ending) && EndsWith(low, Lower(ending))
  {
    LowerConcat(stem, ending);
    assert (Lower(stem) + Lower(ending))[|stem|..] == Lower(ending);
  }

  /** `parties` is `party`: a consonant before `ies`. */
  lemma IesIsY(stem: string, ending: string)
    requires Lower(ending) == "ies" && stem != "" && LowerChar(stem[|stem| - 1]) !in ['a', 'e', 'i', 'o', 'u']
    ensures SingularNoun(stem + ending) == stem + "y"
  {
    LowerOfEnding(stem, ending);
    var noun := stem + ending;
    assert noun[|noun| - 4] == stem[|stem| - 1] && noun[..|noun| - 3] == stem;
  }

  /** The sounds after which a plural takes `es`. */
  predicate Hisses(stem: string) {
    || (stem != "" && LowerChar(stem[|stem| - 1]) in ['s', 'x', 'z'])
    || (|stem| >= 2 && LowerChar(stem[|stem| - 1]) == 'h' && LowerChar(stem[|stem| - 2]) in ['s', 'c'])
  }

  lemma EndsInThree(s: string, a: char, b: char, c: char)
    ensures EndsWith(s, [a, b, c]) <==> |s| >= 3 && s[|s| - 3] == a && s[|s| - 2] == b && s[|s| - 1] == c
  {
    if |s| >= 3 {
      var tail := s[|s| - 3..];
      assert tail == [s[|s| - 3], s[|s| - 2], s[|s| - 1]];
    }
  }

  lemma EndsInFour(s: string, a: char, b: char, c: char, d: char)
    ensures EndsWith(s, [a, b, c, d]) <==>
              |s| >= 4 && s[|s| - 4] == a && s[|s| - 3] == b && s[|s| - 2] == c && s[|s| - 1] == d
  {
    if |s| >= 4 {
      var tail := s[|s| - 4..];
      assert tail == [s[|s| - 4], s[|s| - 3], s[|s| - 2], s[|s| - 1]];
    }
  }

  lemma EsEndings(low: string)
    ensures (EndsWith(low, "sses") || EndsWith(low, "shes") || EndsWith(low, "ches")
             || EndsWith(low, "xes") || EndsWith(low, "zes") || EndsWith(low, "ses"))
            <==> |low| >= 3 && low[|low| - 2] == 'e' && low[|low| - 1] == 's'
                 && (low[|low| - 3] in ['s', 'x', 'z'] || (|low| >= 4 && low[|low| - 3] == 'h' && low[|low| - 4] in ['s', 'c']))
  {
    hide EndsWith;
    EndsInFour(low, 's', 's', 'e', 's');
    EndsInFour(low, 's', 'h', 'e', 's');
    EndsInFour(low, 'c', 'h', 'e', 's');
    EndsInThree(low, 'x', 'e', 's');
    EndsInThree(low, 'z', 'e', 's');
    EndsInThree(low, 's', 'e', 's');
  }

  lemma IesEnding(low: string)
    ensures EndsWith(low, "ies") <==> |low| >= 3 && low[|low| - 3] == 'i' && low[|low| - 2] == 'e' && low[|low| - 1] == 's'
  {
    EndsInThree(low, 'i', 'e', 's');
  }

  /** `boxes` is `box`: a hissing sound before `es`. */
  lemma EsIsDropped(stem: string, ending: string)
    requires Lower(ending) == "es" && Hisses(stem)
    ensures SingularNoun(stem + ending) == stem
  {
    hide EndsWith;
    var noun := stem + ending;
    assert |ending| == 2 && LowerChar(ending[0]) == 'e' && LowerChar(ending[1]) == 's' by {
      assert Lower(ending)[0] == 'e' && Lower(ending)[1] == 's';
    }
    EsEndings(Lower(noun));
    IesEnding(Lower(noun));
    assert noun[..|noun| - 2] == stem;
  }

  /** `users` is `user`: any other plural in `s`. */
  lemma SIsDropped(stem: string)
    requires !(stem != "" && LowerChar(stem[|stem| - 1]) == 'e' && Hisses(stem[..|stem| - 1]))
    requires !(|stem| >= 3 && LowerChar(stem[|stem| - 1]) == 'e' && LowerChar(stem[|stem| - 2]) == 'i'
               && LowerChar(stem[|stem| - 3]) !in ['a', 'e', 'i', 'o', 'u'])
    ensures SingularNoun(stem + "s") == stem
  {
    hide EndsWith;
    var noun := stem + "s";
    EsEndings(Lower(noun));
    IesEnding(Lower(noun));
    assert noun[..|noun| - 1] == stem;
  }

  /** Anything else is singular. */
  lemma SingularStays(noun: string)
    requires noun == "" || LowerChar(noun[|noun| - 1]) != 's'
    ensures SingularNoun(noun) == noun
  {
    hide EndsWith;
    EsEndings(Lower(noun));
    IesEnding(Lower(noun));
  }

  // ---------- words ----------

  lemma {:induction false} LeadingStops(word: string, rest: string)
    requires (forall i :: 0 <= i < |word| ==> 'a' <= word[i] <= 'z') && (rest == "" || !('a' <= rest[0] <= 'z'))
    ensures LeadingLetters(word + rest) == word
  {
    if word == "" {
      assert word + rest == rest;
    } else {
      LeadingStops(word[1..], rest);
      assert (word + rest)[1..] == word[1..] + rest;
      assert [word[0]] + word[1..] == word;
    }
  }

  /** A run of letters up to the next other character is a word. */
  lemma WordIsRun(word: string, rest: string)
    requires word != "" && (forall i :: 0 <= i < |word| ==> 'a' <= word[i] <= 'z') && (rest == "" || !('a' <= rest[0] <= 'z'))
    ensures Words(word + rest) == [word] + Words(rest)
  {
    LeadingStops(word, rest);
    assert (word + rest)[|word|..] == rest;
  }

  /** Anything else separates words. */
  lemma SeparatorIsSkipped(c: char, rest: string)
    requires !('a' <= c <= 'z')
    ensures Words([c] + rest) == Words(rest) && Words("") == []
  {
    assert ([c] + rest)[1..] == rest;
  }
}
