/** The pieces between the slashes of a path, read off the path itself. */
module Segments {
  import opened Text
  import opened TextLaws

  /** The word is a whole segment starting at `k`. */
  predicate IsSegmentAt(s: string, word: string, k: nat) {
    && StandsAt(s, word, k)
    && (k == 0 || s[k - 1] == '/') && (k + |word| == |s| || s[k + |word|] == '/')
  }

  lemma FirstSegment(s: string, word: string)
    requires '/' !in word
    ensures Split(s, '/')[0] == word <==> IsSegmentAt(s, word, 0)
  {
    hide Split;
    var first := Split(s, '/')[0];
    if IsSegmentAt(s, word, 0) {
      assert s[0..0 + |word|] == s[..|word|] == word;
      if |word| == |s| {
        SplitNone(s, '/');
      } else {
        assert s == word + ['/'] + s[|word| + 1..];
        SplitPrefix(word, '/', s[|word| + 1..]);
      }
    }
    if first == word {
      SplitStart(s);
      assert s[0..0 + |word|] == s[..|word|];
    }
  }

  /** The first piece is what stands before the first slash. */
  lemma {:induction false} SplitStart(s: string)
    ensures var first := Split(s, '/')[0]; first <= s && (|first| == |s| || s[|first|] == '/')
  {
    if s != "" && s[0] != '/' {
      SplitStart(s[1..]);
    }
  }

  /** A piece other than the first is the word. */
  predicate HasLaterPiece(s: string, word: string) {
    exists i :: 0 < i < |Split(s, '/')| && Split(s, '/')[i] == word
  }

  predicate HasLaterSegment(s: string, word: string) {
    exists k :: 0 < k <= |s| && IsSegmentAt(s, word, k)
  }

  lemma PiecesStep(s: string, word: string)
    requires s != ""
    ensures HasLaterPiece(s, word) <==> HasLaterPiece(s[1..], word) || (s[0] == '/' && Split(s[1..], '/')[0] == word)
  {
    var all, later := Split(s, '/'), Split(s[1..], '/');
    assert forall i :: 0 < i < |later| ==> (if s[0] == '/' then all[i + 1] else all[i]) == later[i];
    if s[0] == '/' {
      assert all[1] == later[0];
    }
    if i :| 0 < i < |later| && later[i] == word {
      assert all[if s[0] == '/' then i + 1 else i] == word;
    }
    if i :| 0 < i < |all| && all[i] == word {
      if s[0] != '/' {
        assert later[i] == word;
      } else if i > 1 {
        assert later[i - 1] == word;
      }
    }
  }

  lemma SegmentsStep(s: string, word: string)
    requires s != ""
    ensures HasLaterSegment(s, word) <==> HasLaterSegment(s[1..], word) || (s[0] == '/' && IsSegmentAt(s[1..], word, 0))
  {
    hide IsSegmentAt;
    var rest := s[1..];
    forall k | 0 < k <= |rest| ensures IsSegmentAt(rest, word, k) <==> IsSegmentAt(s, word, k + 1) {
      ShiftSegment(s, word, k);
    }
    if s[0] == '/' {
      StartSegment(s, word);
    } else {
      NoStartSegment(s, word);
    }
    if k :| 0 < k <= |s| && IsSegmentAt(s, word, k) {
      if k > 1 { assert IsSegmentAt(rest, word, k - 1); }
    }
    if k :| 0 < k <= |rest| && IsSegmentAt(rest, word, k) {
      assert IsSegmentAt(s, word, k + 1);
    }
  }

  /** The pieces of a path are what stands between its slashes. */
  lemma {:induction false} SegmentIff(s: string, word: string)
    requires '/' !in word
    ensures HasLaterPiece(s, word) <==> HasLaterSegment(s, word)
  {
    hide IsSegmentAt;
    if s != "" {
      hide HasLaterPiece, HasLaterSegment, Split;
      SegmentIff(s[1..], word);
      FirstSegment(s[1..], word);
      PiecesStep(s, word);
      SegmentsStep(s, word);
    }
  }

  lemma ShiftSegment(s: string, word: string, k: nat)
    requires s != "" && 0 < k <= |s| - 1
    ensures IsSegmentAt(s[1..], word, k) <==> IsSegmentAt(s, word, k + 1)
  {
    if k + 1 + |word| <= |s| {
      assert s[1..][k..k + |word|] == s[k + 1..k + 1 + |word|];
    }
  }

  lemma StartSegment(s: string, word: string)
    requires s != "" && s[0] == '/'
    ensures IsSegmentAt(s[1..], word, 0) <==> IsSegmentAt(s, word, 1)
  {
    if 1 + |word| <= |s| {
      assert s[1..][0..0 + |word|] == s[1..1 + |word|];
    }
  }

  lemma NoStartSegment(s: string, word: string)
    requires s != "" && s[0] != '/'
    ensures !IsSegmentAt(s, word, 1)
  {
  }

  // ---------- case ----------

  function LowerAll(pieces: seq<string>): (r: seq<string>)
    ensures |r| == |pieces| && forall i :: 0 <= i < |pieces| ==> r[i] == Lower(pieces[i])
  {
    seq(|pieces|, i requires 0 <= i < |pieces| => Lower(pieces[i]))
  }

  lemma LowerSlash(c: char)
    ensures LowerChar(c) == '/' <==> c == '/'
  {
  }

  lemma {:induction false} LowerSplits(s: string)
    ensures Split(Lower(s), '/') == LowerAll(Split(s, '/'))
  {
    hide LowerChar;
    if s != "" {
      var rest := s[1..];
      LowerSplits(rest);
      LowerSlash(s[0]);
      assert Lower(s)[1..] == Lower(rest) && Lower(s)[0] == LowerChar(s[0]);
      var pieces, low := Split(rest, '/'), Split(Lower(rest), '/');
      if s[0] != '/' {
        assert Lower([s[0]] + pieces[0]) == [LowerChar(s[0])] + low[0];
      }
    }
  }
}
