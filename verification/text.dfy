/**
 Character classes and the two ways the reader cuts text apart:

 - SplitRuns models `text.split(/(\s+)/)`: the text as a list of maximal
   runs, each either all whitespace or free of whitespace, in order;
 - SplitWords models `text.split(/\s+/).filter(Boolean)`: only the words,
   computed one character at a time.

 The two agree on the words (WordsOfRuns), and words of texts joined by a
 whitespace separator are the words of the parts (SplitWordsJoin).
 */
module Text {
  import opened Seqs

  /** The characters JavaScript's `\s` matches. */
  predicate IsWs(c: char)
  {
    || c == ' ' || c == '\t' || c == '\n' || c == '\r'
    || c == '\U{0B}' || c == '\U{0C}'
    || c == '\U{A0}' || c == '\U{1680}'
    || ('\U{2000}' <= c <= '\U{200A}')
    || c == '\U{2028}' || c == '\U{2029}' || c == '\U{202F}'
    || c == '\U{205F}' || c == '\U{3000}' || c == '\U{FEFF}'
  }

  predicate AllWs(s: seq<char>)
  {
    forall i :: 0 <= i < |s| ==> IsWs(s[i])
  }

  predicate NoWs(s: seq<char>)
  {
    forall i :: 0 <= i < |s| ==> !IsWs(s[i])
  }

  predicate HasWs(s: seq<char>)
  {
    exists i :: 0 <= i < |s| && IsWs(s[i])
  }

  /** What `token.includes('\n\n')` answers. */
  predicate HasParagraphBreak(s: seq<char>)
  {
    exists i :: 0 <= i < |s| - 1 && s[i] == '\n' && s[i + 1] == '\n'
  }

  /** Only two consecutive line feeds make a paragraph break: a blank line
      written with carriage returns ("\r\n\r\n") does not. */
  lemma CrlfIsNoBreak()
    ensures HasParagraphBreak("\n\n")
    ensures HasParagraphBreak(" \n\n ")
    ensures !HasParagraphBreak("\r\n\r\n")
  {
    assert "\n\n"[0] == '\n' && "\n\n"[1] == '\n';
    assert " \n\n "[1] == '\n' && " \n\n "[2] == '\n';
  }

  /** A word: a non-empty token without whitespace. */
  predicate IsWord(s: seq<char>)
  {
    |s| > 0 && NoWs(s)
  }

  // ---------------------------------------------------------------------
  // Runs: split(/(\s+)/)
  // ---------------------------------------------------------------------

  /** A run: non-empty and homogeneous (all whitespace or none). */
  predicate IsRun(r: seq<char>)
  {
    |r| > 0 && (AllWs(r) || NoWs(r))
  }

  predicate IsSpaceRun(r: seq<char>)
  {
    |r| > 0 && IsWs(r[0])
  }

  /** Consecutive runs alternate between whitespace and words. */
  predicate Alternating(runs: seq<seq<char>>)
  {
    forall i :: 0 <= i < |runs| - 1 ==> IsSpaceRun(runs[i]) != IsSpaceRun(runs[i + 1])
  }

  /** `runs` cuts `s` into maximal runs. */
  predicate WellSplit(runs: seq<seq<char>>, s: seq<char>)
  {
    && Flatten(runs) == s
    && (forall i :: 0 <= i < |runs| ==> IsRun(runs[i]))
    && Alternating(runs)
  }

  /** Length of the longest prefix of `s` in the same class as `s[0]`. */
  function RunLen(s: seq<char>): (n: nat)
    requires |s| > 0
    ensures 1 <= n <= |s|
    ensures forall i :: 0 <= i < n ==> IsWs(s[i]) == IsWs(s[0])
    ensures n < |s| ==> IsWs(s[n]) != IsWs(s[0])
    decreases |s|
  {
    if |s| == 1 || IsWs(s[1]) != IsWs(s[0]) then 1
    else 1 + RunLen(s[1..])
  }

  /** The maximal runs of `s`, in order. */
  function SplitRuns(s: seq<char>): (runs: seq<seq<char>>)
    ensures WellSplit(runs, s)
    decreases |s|
  {
    if s == [] then []
    else
      var n := RunLen(s);
      var rest := SplitRuns(s[n..]);
      assert s[..n] + s[n..] == s;
      assert IsRun(s[..n]) by {
        if IsWs(s[0]) {
          assert AllWs(s[..n]);
        } else {
          assert NoWs(s[..n]);
        }
      }
      [s[..n]] + rest
  }

  /** The cut into maximal runs is unique: any other cut with the same three
      properties is SplitRuns. */
  lemma {:induction false} SplitRunsUnique(runs: seq<seq<char>>, s: seq<char>)
    requires WellSplit(runs, s)
    ensures runs == SplitRuns(s)
    decreases |s|
  {
    if runs == [] {
    } else {
      var m := |runs[0]|;
      assert Flatten(runs) == runs[0] + Flatten(runs[1..]);
      assert s[..m] == runs[0];
      assert s[m..] == Flatten(runs[1..]);
      var n := RunLen(s);
      assert m <= n;
      assert m < |s| ==> IsWs(s[m]) != IsWs(s[0]) by {
        if m < |s| {
          assert |runs| > 1;
          assert Flatten(runs[1..]) == runs[1] + Flatten(runs[2..]);
          assert s[m] == runs[1][0];
          assert s[0] == runs[0][0];
        }
      }
      assert m >= n;
      assert WellSplit(runs[1..], s[m..]) by {
        forall i | 0 <= i < |runs[1..]| - 1
          ensures IsSpaceRun(runs[1..][i]) != IsSpaceRun(runs[1..][i + 1])
        {
          assert runs[1..][i] == runs[i + 1];
        }
      }
      SplitRunsUnique(runs[1..], s[m..]);
    }
  }

  /** The word runs among `runs`, in order. */
  function WordRuns(runs: seq<seq<char>>): (ws: seq<seq<char>>)
    ensures |ws| <= |runs|
  {
    if runs == [] then []
    else if HasWs(runs[0]) || runs[0] == [] then WordRuns(runs[1..])
    else [runs[0]] + WordRuns(runs[1..])
  }

  // ---------------------------------------------------------------------
  // Words: split(/\s+/).filter(Boolean)
  // ---------------------------------------------------------------------

  /** Length of the whitespace-free prefix of `s`. */
  function WordLen(s: seq<char>): (n: nat)
    ensures n <= |s|
    ensures forall i :: 0 <= i < n ==> !IsWs(s[i])
    ensures n < |s| ==> IsWs(s[n])
    decreases |s|
  {
    if s == [] || IsWs(s[0]) then 0 else 1 + WordLen(s[1..])
  }

  /** The words of `s`: skip whitespace one character at a time, take each
      whitespace-free stretch whole. */
  function SplitWords(s: seq<char>): (ws: seq<seq<char>>)
    ensures forall i :: 0 <= i < |ws| ==> IsWord(ws[i])
    decreases |s|
  {
    if s == [] then []
    else if IsWs(s[0]) then SplitWords(s[1..])
    else
      var n := WordLen(s);
      [s[..n]] + SplitWords(s[n..])
  }

  /** Number of words of a chapter text, as the chapter table counts them. */
  function CountWords(s: seq<char>): nat
  {
    |SplitWords(s)|
  }

  lemma {:induction false} SplitWordsSkipsSpace(s: seq<char>, k: nat)
    requires k <= |s|
    requires AllWs(s[..k])
    ensures SplitWords(s) == SplitWords(s[k..])
    decreases k
  {
    if k > 0 {
      assert IsWs(s[..k][0]);
      assert s[1..][..k - 1] == s[..k][1..];
      SplitWordsSkipsSpace(s[1..], k - 1);
      assert s[1..][k - 1..] == s[k..];
    }
  }

  /** Both ways of splitting find the same words. */
  lemma {:induction false} WordsOfRuns(s: seq<char>)
    ensures WordRuns(SplitRuns(s)) == SplitWords(s)
    decreases |s|
  {
    if s != [] {
      var n := RunLen(s);
      var runs := SplitRuns(s);
      assert runs == [s[..n]] + SplitRuns(s[n..]);
      assert runs[1..] == SplitRuns(s[n..]);
      WordsOfRuns(s[n..]);
      if IsWs(s[0]) {
        assert HasWs(runs[0]) by { assert IsWs(runs[0][0]); }
        assert AllWs(s[..n]) by {
          forall i | 0 <= i < n ensures IsWs(s[..n][i]) {
            assert s[..n][i] == s[i];
          }
        }
        SplitWordsSkipsSpace(s, n);
      } else {
        assert !HasWs(runs[0]) by {
          forall i | 0 <= i < |runs[0]| ensures !IsWs(runs[0][i]) {
            assert runs[0][i] == s[i];
          }
        }
        assert WordLen(s) == n;
      }
    }
  }

  lemma {:induction false} SplitWordsOfWord(w: seq<char>, rest: seq<char>)
    requires IsWord(w)
    requires rest == [] || IsWs(rest[0])
    ensures SplitWords(w + rest) == [w] + SplitWords(rest)
  {
    var s := w + rest;
    var n := WordLen(s);
    assert |w| < |s| ==> IsWs(s[|w|]) by {
      if |w| < |s| {
        assert s[|w|] == rest[0];
      }
    }
    assert n <= |w|;
    assert s[..n] == w;
    assert s[n..] == rest;
  }

  lemma {:induction false} WordLenAppend(a: seq<char>, b: seq<char>)
    requires b == [] || IsWs(b[0])
    ensures WordLen(a + b) == WordLen(a)
    decreases |a|
  {
    if a == [] {
      assert a + b == b;
    } else if !IsWs(a[0]) {
      assert (a + b)[1..] == a[1..] + b;
      WordLenAppend(a[1..], b);
    }
  }

  /** A text starting with a word, followed by a text starting with
      whitespace: the first word is the same with or without the suffix. */
  lemma SplitWordsHead(a: seq<char>, b: seq<char>)
    requires a != [] && !IsWs(a[0])
    requires b == [] || IsWs(b[0])
    ensures WordLen(a) <= |a|
    ensures SplitWords(a) == [a[..WordLen(a)]] + SplitWords(a[WordLen(a)..])
    ensures SplitWords(a + b) == [a[..WordLen(a)]] + SplitWords(a[WordLen(a)..] + b)
  {
    var n := WordLen(a);
    var s := a + b;
    assert s != [] && s[0] == a[0];
    WordLenAppend(a, b);
    assert SplitWords(s) == [s[..n]] + SplitWords(s[n..]);
    CutAppend(a, b, n);
  }

  /** Words of a text are unaffected by text following a whitespace character. */
  lemma {:induction false} SplitWordsAppend(a: seq<char>, b: seq<char>)
    requires b == [] || IsWs(b[0])
    ensures SplitWords(a + b) == SplitWords(a) + SplitWords(b)
    decreases |a|
  {
    if a == [] {
      assert a + b == b;
    } else if IsWs(a[0]) {
      assert (a + b)[1..] == a[1..] + b;
      SplitWordsAppend(a[1..], b);
    } else {
      var n := WordLen(a);
      SplitWordsHead(a, b);
      SplitWordsAppend(a[n..], b);
    }
  }

  // ---------------------------------------------------------------------
  // Joining chapter texts
  // ---------------------------------------------------------------------

  const PARAGRAPH_SEPARATOR: seq<char> := "\n\n"

  /** `texts.join('\n\n')`. */
  function Join(texts: seq<seq<char>>): seq<char>
  {
    if texts == [] then []
    else if |texts| == 1 then texts[0]
    else texts[0] + PARAGRAPH_SEPARATOR + Join(texts[1..])
  }

  /** The words of each text, in order. */
  function WordsOfEach(texts: seq<seq<char>>): (wss: seq<seq<seq<char>>>)
    ensures |wss| == |texts|
    ensures forall k :: 0 <= k < |texts| ==> wss[k] == SplitWords(texts[k])
  {
    seq(|texts|, k requires 0 <= k < |texts| => SplitWords(texts[k]))
  }

  /** The words of the joined text are the words of the parts, one after the
      other: no word is created or lost at a seam. */
  lemma {:induction false} SplitWordsJoin(texts: seq<seq<char>>)
    ensures SplitWords(Join(texts)) == Flatten(WordsOfEach(texts))
  {
    if texts == [] {
    } else if |texts| == 1 {
      assert Flatten(WordsOfEach(texts)) == SplitWords(texts[0]) + Flatten(WordsOfEach(texts)[1..]);
    } else {
      var rest := PARAGRAPH_SEPARATOR + Join(texts[1..]);
      assert Join(texts) == texts[0] + rest;
      SplitWordsAppend(texts[0], rest);
      assert rest[..2] == "\n\n";
      SplitWordsSkipsSpace(rest, 2);
      assert rest[2..] == Join(texts[1..]);
      SplitWordsJoin(texts[1..]);
      assert WordsOfEach(texts)[1..] == WordsOfEach(texts[1..]);
    }
  }
}
