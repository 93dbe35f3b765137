/**
 The word stream and pause map built by `processText` and
 `appendTextFragment` (script.js:351-406).

 The text is cut into maximal runs (Text.SplitRuns). Each word run is
 appended to the word stream and tagged `Period` or `Comma` by its last
 character; a whitespace run containing "\n\n" re-tags the word before it
 as `Paragraph`. WordTags is the reference for the outcome: a word's tag is
 `Paragraph` when the run after it holds a paragraph break, otherwise its
 punctuation tag.
 */
module Tokenizer {
  import opened Config
  import opened Text
  import opened Seqs

  datatype Stream = Stream(words: seq<seq<char>>, pauses: map<nat, Pause>)

  const EmptyStream: Stream := Stream([], map[])

  /** Every pause entry belongs to a word of the stream. */
  predicate KeysBelow(st: Stream)
  {
    forall k :: k in st.pauses ==> k < |st.words|
  }

  /** The stream invariant: words are non-empty and whitespace-free, and
      pause entries are indexed by words. */
  predicate ValidStream(st: Stream)
  {
    && KeysBelow(st)
    && (forall i :: 0 <= i < |st.words| ==> IsWord(st.words[i]))
  }

  /** The tag a word gets from its last character. */
  function PunctuationPause(w: seq<char>): Option<Pause>
    requires |w| > 0
  {
    var last := w[|w| - 1];
    if last in ".?!" then Some(Period)
    else if last in ",;:" then Some(Comma)
    else None
  }

  /** One token of `split(/(\s+)/)`, as the loop body treats it. */
  function ApplyToken(st: Stream, tok: seq<char>): Stream
  {
    if HasWs(tok) then
      if HasParagraphBreak(tok) && |st.words| > 0
      then st.(pauses := st.pauses[|st.words| - 1 := Paragraph])
      else st
    else if tok != [] then
      var n := |st.words|;
      var pauses := match PunctuationPause(tok)
                    case Some(p) => st.pauses[n := p]
                    case None => st.pauses;
      Stream(st.words + [tok], pauses)
    else st
  }

  function ApplyTokens(st: Stream, toks: seq<seq<char>>): Stream
    decreases |toks|
  {
    if toks == [] then st else ApplyTokens(ApplyToken(st, toks[0]), toks[1..])
  }

  /** `appendTextFragment(text, paragraphAfter)`. */
  function AppendFragment(st: Stream, text: seq<char>, paragraphAfter: bool): Stream
  {
    if text == [] then st
    else
      BreakIf(ApplyTokens(st, SplitRuns(text)), paragraphAfter)
  }

  /** `processText(text)`: the stream built from nothing. */
  function ProcessText(text: seq<char>): Stream
  {
    ApplyTokens(EmptyStream, SplitRuns(text))
  }

  // ---------------------------------------------------------------------
  // Reference tags
  // ---------------------------------------------------------------------

  /** The tag of each word run of `runs`: `Paragraph` when the next run holds
      a paragraph break, otherwise the punctuation tag. */
  function WordTags(runs: seq<seq<char>>): (tags: seq<Option<Pause>>)
    ensures |tags| == |WordRuns(runs)|
  {
    if runs == [] then []
    else if HasWs(runs[0]) || runs[0] == [] then WordTags(runs[1..])
    else
      var tag := if |runs| > 1 && HasParagraphBreak(runs[1]) then Some(Paragraph)
                 else PunctuationPause(runs[0]);
      [tag] + WordTags(runs[1..])
  }

  /** The reference tag of each word of `text`. */
  function TextTags(text: seq<char>): (tags: seq<Option<Pause>>)
    ensures |tags| == |SplitWords(text)|
  {
    WordsOfRuns(text);
    WordTags(SplitRuns(text))
  }

  /** The first run is whitespace holding a paragraph break. */
  predicate LeadingBreak(runs: seq<seq<char>>)
  {
    |runs| > 0 && HasWs(runs[0]) && HasParagraphBreak(runs[0])
  }

  /** Applying a token list is applying its head, then the rest. */
  lemma ApplyTokensCons(st: Stream, t: seq<char>, ts: seq<seq<char>>)
    ensures ApplyTokens(st, [t] + ts) == ApplyTokens(ApplyToken(st, t), ts)
  {
    assert ([t] + ts)[1..] == ts;
  }

  /** A word token is appended and tagged by its punctuation. */
  lemma ApplyWord(st: Stream, w: seq<char>)
    requires KeysBelow(st)
    requires IsWord(w)
    ensures ApplyToken(st, w).words == st.words + [w]
    ensures KeysBelow(ApplyToken(st, w))
    ensures forall k: nat :: k < |st.words| ==> Lookup(ApplyToken(st, w).pauses, k) == Lookup(st.pauses, k)
    ensures Lookup(ApplyToken(st, w).pauses, |st.words|) == PunctuationPause(w)
  {
    assert !HasWs(w);
  }

  /** A whitespace token adds no word and can only re-tag the last word. */
  lemma ApplySpace(st: Stream, sp: seq<char>)
    requires KeysBelow(st)
    requires HasWs(sp)
    ensures ApplyToken(st, sp).words == st.words
    ensures KeysBelow(ApplyToken(st, sp))
    ensures forall k: nat :: k + 1 < |st.words| ==> Lookup(ApplyToken(st, sp).pauses, k) == Lookup(st.pauses, k)
    ensures |st.words| > 0 ==>
              (Lookup(ApplyToken(st, sp).pauses, |st.words| - 1)
               == if HasParagraphBreak(sp) then Some(Paragraph) else Lookup(st.pauses, |st.words| - 1))
  {
  }

  lemma RunClass(r: seq<char>)
    requires IsRun(r)
    ensures HasWs(r) <==> IsSpaceRun(r)
  {
    if IsWs(r[0]) {
      assert HasWs(r);
    } else {
      assert NoWs(r);
    }
  }

  lemma {:induction false} AlternatingTail(runs: seq<seq<char>>, k: nat)
    requires k <= |runs|
    requires forall i :: 0 <= i < |runs| ==> IsRun(runs[i])
    requires Alternating(runs)
    ensures forall i :: 0 <= i < |runs[k..]| ==> IsRun(runs[k..][i])
    ensures Alternating(runs[k..])
  {
    forall i | 0 <= i < |runs[k..]| - 1
      ensures IsSpaceRun(runs[k..][i]) != IsSpaceRun(runs[k..][i + 1])
    {
      assert runs[k..][i] == runs[k + i];
      assert runs[k..][i + 1] == runs[k + i + 1];
    }
  }

  /** A word run followed by a whitespace run: one word is appended, old
      entries keep their tags, and the new word's tag is Paragraph when the
      whitespace holds a blank line, its punctuation tag otherwise. */
  lemma ApplyPair(st: Stream, w: seq<char>, sp: seq<char>)
    requires KeysBelow(st)
    requires IsWord(w) && HasWs(sp)
    ensures ApplyToken(ApplyToken(st, w), sp).words == st.words + [w]
    ensures KeysBelow(ApplyToken(ApplyToken(st, w), sp))
    ensures forall k: nat :: k < |st.words| ==>
              Lookup(ApplyToken(ApplyToken(st, w), sp).pauses, k) == Lookup(st.pauses, k)
    ensures Lookup(ApplyToken(ApplyToken(st, w), sp).pauses, |st.words|)
            == if HasParagraphBreak(sp) then Some(Paragraph) else PunctuationPause(w)
  {
    ApplyWord(st, w);
    ApplySpace(ApplyToken(st, w), sp);
  }

  /** The reference lists after a word run and a whitespace run. */
  lemma WordTagsPair(runs: seq<seq<char>>)
    requires |runs| >= 2
    requires IsWord(runs[0]) && HasWs(runs[1])
    ensures WordRuns(runs) == [runs[0]] + WordRuns(runs[2..])
    ensures WordTags(runs)
            == [if HasParagraphBreak(runs[1]) then Some(Paragraph) else PunctuationPause(runs[0])]
               + WordTags(runs[2..])
  {
    assert !HasWs(runs[0]);
    assert runs[1..][0] == runs[1] && runs[1..][1..] == runs[2..];
  }

  /** The runs after the first two of a well-formed list starting with a
      word form again such a list. */
  lemma RestStartsWithWord(runs: seq<seq<char>>)
    requires |runs| >= 2
    requires forall i :: 0 <= i < |runs| ==> IsRun(runs[i])
    requires Alternating(runs)
    requires !IsSpaceRun(runs[0])
    ensures forall i :: 0 <= i < |runs[2..]| ==> IsRun(runs[2..][i])
    ensures Alternating(runs[2..])
    ensures runs[2..] == [] || !IsSpaceRun(runs[2..][0])
  {
    AlternatingTail(runs, 2);
    if |runs| > 2 {
      assert IsSpaceRun(runs[1]) && runs[2..][0] == runs[2];
    }
  }

  /** Peeling a word run and the whitespace run after it off the front. */
  lemma ApplyFromWordSplit(st: Stream, runs: seq<seq<char>>)
    requires KeysBelow(st)
    requires |runs| >= 2
    requires forall i :: 0 <= i < |runs| ==> IsRun(runs[i])
    requires Alternating(runs)
    requires !IsSpaceRun(runs[0])
    ensures var st2 := ApplyToken(ApplyToken(st, runs[0]), runs[1]);
            && ApplyTokens(st, runs) == ApplyTokens(st2, runs[2..])
            && st2.words == st.words + [runs[0]]
            && KeysBelow(st2)
            && (forall k: nat :: k < |st.words| ==> Lookup(st2.pauses, k) == Lookup(st.pauses, k))
            && Lookup(st2.pauses, |st.words|) == WordTags(runs)[0]
            && WordRuns(runs) == [runs[0]] + WordRuns(runs[2..])
            && WordTags(runs) == [WordTags(runs)[0]] + WordTags(runs[2..])
  {
    var w, sp, rest := runs[0], runs[1], runs[2..];
    RunClass(w);
    RunClass(sp);
    assert runs == [w] + ([sp] + rest);
    ApplyTokensCons(st, w, [sp] + rest);
    ApplyTokensCons(ApplyToken(st, w), sp, rest);
    ApplyPair(st, w, sp);
    WordTagsPair(runs);
  }

  /** Gluing one more word in front of a result about the rest. */
  lemma PrependWord(st: Stream, st2: Stream, r: Stream, w: seq<char>, tag: Option<Pause>,
                    ws: seq<seq<char>>, tags: seq<Option<Pause>>)
    requires st2.words == st.words + [w]
    requires forall k: nat :: k < |st.words| ==> Lookup(st2.pauses, k) == Lookup(st.pauses, k)
    requires Lookup(st2.pauses, |st.words|) == tag
    requires r.words == st2.words + ws
    requires forall k: nat :: k < |st2.words| ==> Lookup(r.pauses, k) == Lookup(st2.pauses, k)
    requires forall i :: 0 <= i < |tags| ==> Lookup(r.pauses, |st2.words| + i) == tags[i]
    ensures r.words == st.words + ([w] + ws)
    ensures forall k: nat :: k < |st.words| ==> Lookup(r.pauses, k) == Lookup(st.pauses, k)
    ensures forall i :: 0 <= i < |[tag] + tags| ==> Lookup(r.pauses, |st.words| + i) == ([tag] + tags)[i]
  {
    var n := |st.words|;
    forall i | 0 <= i < |[tag] + tags|
      ensures Lookup(r.pauses, n + i) == ([tag] + tags)[i]
    {
      if i > 0 {
        assert n + i == |st2.words| + (i - 1);
      }
    }
  }

  /** Applying runs that start with a word: the words are appended, old
      entries keep their tags, and each new word gets its reference tag. */
  lemma {:induction false} ApplyFromWord(st: Stream, runs: seq<seq<char>>)
    requires KeysBelow(st)
    requires forall i :: 0 <= i < |runs| ==> IsRun(runs[i])
    requires Alternating(runs)
    requires runs == [] || !IsSpaceRun(runs[0])
    ensures ApplyTokens(st, runs).words == st.words + WordRuns(runs)
    ensures KeysBelow(ApplyTokens(st, runs))
    ensures forall k: nat :: k < |st.words| ==>
              Lookup(ApplyTokens(st, runs).pauses, k) == Lookup(st.pauses, k)
    ensures forall i :: 0 <= i < |WordTags(runs)| ==>
              Lookup(ApplyTokens(st, runs).pauses, |st.words| + i) == WordTags(runs)[i]
    decreases |runs|
  {
    if runs == [] {
    } else if |runs| == 1 {
      var w := runs[0];
      RunClass(w);
      ApplyWord(st, w);
      assert runs == [w] + [];
      ApplyTokensCons(st, w, []);
      assert WordRuns(runs) == [w] by { assert !HasWs(w); }
    } else {
      ApplyFromWordSplit(st, runs);
      RestStartsWithWord(runs);
      var st2 := ApplyToken(ApplyToken(st, runs[0]), runs[1]);
      ApplyFromWord(st2, runs[2..]);
      PrependWord(st, st2, ApplyTokens(st2, runs[2..]), runs[0], WordTags(runs)[0],
                  WordRuns(runs[2..]), WordTags(runs[2..]));
    }
  }

  /** A leading whitespace run: it can only re-tag the last old word; the
      rest starts with a word. */
  lemma ApplyLeadingSpace(st: Stream, runs: seq<seq<char>>)
    requires KeysBelow(st)
    requires forall i :: 0 <= i < |runs| ==> IsRun(runs[i])
    requires Alternating(runs)
    requires runs != [] && IsSpaceRun(runs[0])
    ensures ApplyTokens(st, runs) == ApplyTokens(ApplyToken(st, runs[0]), runs[1..])
    ensures forall i :: 0 <= i < |runs[1..]| ==> IsRun(runs[1..][i])
    ensures Alternating(runs[1..])
    ensures runs[1..] == [] || !IsSpaceRun(runs[1..][0])
    ensures WordRuns(runs) == WordRuns(runs[1..])
    ensures WordTags(runs) == WordTags(runs[1..])
    ensures HasWs(runs[0])
  {
    RunClass(runs[0]);
    assert runs == [runs[0]] + runs[1..];
    ApplyTokensCons(st, runs[0], runs[1..]);
    AlternatingTail(runs, 1);
    if |runs| > 1 {
      assert runs[1..][0] == runs[1];
    }
  }

  /** Gluing a leading whitespace token in front of a result about the
      rest: the whitespace only re-tags the last old word. */
  lemma PrependSpace(st: Stream, st1: Stream, r: Stream, brk: bool,
                     ws: seq<seq<char>>, tags: seq<Option<Pause>>)
    requires st1.words == st.words
    requires forall k: nat :: k + 1 < |st.words| ==> Lookup(st1.pauses, k) == Lookup(st.pauses, k)
    requires |st.words| > 0 ==>
               Lookup(st1.pauses, |st.words| - 1) == if brk then Some(Paragraph) else Lookup(st.pauses, |st.words| - 1)
    requires r.words == st1.words + ws
    requires forall k: nat :: k < |st1.words| ==> Lookup(r.pauses, k) == Lookup(st1.pauses, k)
    requires forall i :: 0 <= i < |tags| ==> Lookup(r.pauses, |st1.words| + i) == tags[i]
    ensures r.words == st.words + ws
    ensures forall k: nat :: k + 1 < |st.words| ==> Lookup(r.pauses, k) == Lookup(st.pauses, k)
    ensures |st.words| > 0 ==>
              Lookup(r.pauses, |st.words| - 1) == if brk then Some(Paragraph) else Lookup(st.pauses, |st.words| - 1)
    ensures forall i :: 0 <= i < |tags| ==> Lookup(r.pauses, |st.words| + i) == tags[i]
  {
  }

  /** Applying a well-split run list to a stream. */
  lemma ApplyRuns(st: Stream, runs: seq<seq<char>>)
    requires KeysBelow(st)
    requires forall i :: 0 <= i < |runs| ==> IsRun(runs[i])
    requires Alternating(runs)
    ensures ApplyTokens(st, runs).words == st.words + WordRuns(runs)
    ensures KeysBelow(ApplyTokens(st, runs))
    ensures forall k: nat :: k + 1 < |st.words| ==>
              Lookup(ApplyTokens(st, runs).pauses, k) == Lookup(st.pauses, k)
    ensures |st.words| > 0 ==>
              Lookup(ApplyTokens(st, runs).pauses, |st.words| - 1)
              == if LeadingBreak(runs) then Some(Paragraph) else Lookup(st.pauses, |st.words| - 1)
    ensures forall i :: 0 <= i < |WordTags(runs)| ==>
              Lookup(ApplyTokens(st, runs).pauses, |st.words| + i) == WordTags(runs)[i]
  {
    if runs != [] && IsSpaceRun(runs[0]) {
      ApplyLeadingSpace(st, runs);
      var st1 := ApplyToken(st, runs[0]);
      ApplySpace(st, runs[0]);
      ApplyFromWord(st1, runs[1..]);
      PrependSpace(st, st1, ApplyTokens(st1, runs[1..]), HasParagraphBreak(runs[0]),
                   WordRuns(runs[1..]), WordTags(runs[1..]));
    } else {
      if runs != [] {
        RunClass(runs[0]);
      }
      ApplyFromWord(st, runs);
    }
  }

  // ---------------------------------------------------------------------
  // The promises of processText and appendTextFragment
  // ---------------------------------------------------------------------

  /** processText: the words are exactly the whitespace-free stretches of the
      text, in order; each word's pause is its reference tag, with a paragraph
      break beating punctuation; no other index is tagged. */
  lemma ProcessTextSpec(text: seq<char>)
    ensures ValidStream(ProcessText(text))
    ensures ProcessText(text).words == SplitWords(text)
    ensures forall i :: 0 <= i < |SplitWords(text)| ==>
              Lookup(ProcessText(text).pauses, i) == TextTags(text)[i]
  {
    var runs := SplitRuns(text);
    ApplyRuns(EmptyStream, runs);
    WordsOfRuns(text);
    assert ProcessText(text) == ApplyTokens(EmptyStream, runs);
    assert ProcessText(text).words == WordRuns(runs);
    assert TextTags(text) == WordTags(runs);
  }

  /** appendTextFragment, words: empty text changes nothing; otherwise the old
      words stay a prefix and the text's words follow. */
  lemma AppendFragmentWords(st: Stream, text: seq<char>, paragraphAfter: bool)
    requires ValidStream(st)
    ensures text == [] ==> AppendFragment(st, text, paragraphAfter) == st
    ensures ValidStream(AppendFragment(st, text, paragraphAfter))
    ensures AppendFragment(st, text, paragraphAfter).words == st.words + SplitWords(text)
  {
    if text != [] {
      ApplyRuns(st, SplitRuns(text));
      WordsOfRuns(text);
    }
  }

  /** A forced paragraph break at the end of a fragment: re-tags exactly the
      last word. */
  function ForceBreak(st: Stream): (r: Stream)
    ensures r.words == st.words
    ensures |st.words| > 0 ==> Lookup(r.pauses, |st.words| - 1) == Some(Paragraph)
    ensures forall k: nat :: k + 1 < |st.words| || |st.words| <= k ==> Lookup(r.pauses, k) == Lookup(st.pauses, k)
    ensures KeysBelow(st) ==> KeysBelow(r)
  {
    if |st.words| > 0 then st.(pauses := st.pauses[|st.words| - 1 := Paragraph]) else st
  }

  /** The optional forced break that ends `appendTextFragment`. */
  function BreakIf(st: Stream, paragraphAfter: bool): Stream
  {
    if paragraphAfter then ForceBreak(st) else st
  }

  lemma AppendIsApplyThenBreak(st: Stream, text: seq<char>, paragraphAfter: bool)
    requires text != []
    ensures AppendFragment(st, text, paragraphAfter)
            == if paragraphAfter then ForceBreak(ApplyTokens(st, SplitRuns(text)))
               else ApplyTokens(st, SplitRuns(text))
  {
  }

  /** appendTextFragment, old pauses: every tag before the last old index is
      kept. */
  lemma AppendKeepsOldPauses(st: Stream, text: seq<char>, paragraphAfter: bool)
    requires ValidStream(st)
    ensures forall k: nat :: k + 1 < |st.words| ==>
              Lookup(AppendFragment(st, text, paragraphAfter).pauses, k) == Lookup(st.pauses, k)
  {
    if text != [] {
      ApplyRuns(st, SplitRuns(text));
      AppendIsApplyThenBreak(st, text, paragraphAfter);
    }
  }

  /** appendTextFragment, last old index: a leading paragraph break, or a
      forced break that adds no word, turns it into `Paragraph`; otherwise it
      keeps its tag. */
  lemma AppendLastOldPause(st: Stream, text: seq<char>, paragraphAfter: bool)
    requires ValidStream(st)
    requires |st.words| > 0
    ensures Lookup(AppendFragment(st, text, paragraphAfter).pauses, |st.words| - 1)
            == if text != [] && (LeadingBreak(SplitRuns(text)) || (paragraphAfter && SplitWords(text) == []))
               then Some(Paragraph)
               else Lookup(st.pauses, |st.words| - 1)
  {
    if text != [] {
      ApplyRuns(st, SplitRuns(text));
      WordsOfRuns(text);
      AppendIsApplyThenBreak(st, text, paragraphAfter);
    }
  }

  /** appendTextFragment, new pauses: the new words get their reference tags,
      except that a forced break tags the last new word `Paragraph`. */
  lemma AppendNewPauses(st: Stream, text: seq<char>, paragraphAfter: bool)
    requires ValidStream(st)
    ensures forall i :: 0 <= i < |TextTags(text)| && !(paragraphAfter && i == |TextTags(text)| - 1) ==>
              Lookup(AppendFragment(st, text, paragraphAfter).pauses, |st.words| + i) == TextTags(text)[i]
    ensures paragraphAfter && |TextTags(text)| > 0 ==>
              Lookup(AppendFragment(st, text, paragraphAfter).pauses, |st.words| + |TextTags(text)| - 1)
              == Some(Paragraph)
  {
    if text != [] {
      var runs := SplitRuns(text);
      BreakAfterRuns(st, runs, paragraphAfter);
      assert TextTags(text) == WordTags(runs);
    } else {
      assert |TextTags(text)| == |SplitWords(text)| == 0;
    }
  }

  /** A well-split run list applied to a stream and followed by an optional
      forced break: the new words carry their reference tags, except that the
      break re-tags the last one. */
  lemma BreakAfterRuns(st: Stream, runs: seq<seq<char>>, paragraphAfter: bool)
    requires KeysBelow(st)
    requires forall i :: 0 <= i < |runs| ==> IsRun(runs[i])
    requires Alternating(runs)
    ensures forall i :: 0 <= i < |WordTags(runs)| && !(paragraphAfter && i == |WordTags(runs)| - 1) ==>
              Lookup(BreakIf(ApplyTokens(st, runs), paragraphAfter).pauses, |st.words| + i) == WordTags(runs)[i]
    ensures paragraphAfter && |WordTags(runs)| > 0 ==>
              Lookup(BreakIf(ApplyTokens(st, runs), paragraphAfter).pauses, |st.words| + |WordTags(runs)| - 1)
              == Some(Paragraph)
  {
    ApplyRuns(st, runs);
    var st1 := ApplyTokens(st, runs);
    if paragraphAfter && |WordTags(runs)| > 0 {
      assert |st.words| + |WordTags(runs)| - 1 == |st1.words| - 1;
      assert Lookup(ForceBreak(st1).pauses, |st1.words| - 1) == Some(Paragraph);
    }
  }

  /** processText is appendTextFragment into an empty stream. */
  lemma ProcessIsAppendToEmpty(text: seq<char>)
    ensures ProcessText(text) == AppendFragment(EmptyStream, text, false)
  {
  }
}

/** A worked example: "Hello, world. New\n\nPara". */
module TokenizerExample {
  import opened Config
  import opened Text
  import opened Seqs
  import opened Tokenizer

  const HELLO: seq<char> := "Hello, world. New\n\nPara"
  const HELLO_RUNS: seq<seq<char>> := ["Hello,", " ", "world.", " ", "New", "\n\n", "Para"]

  /** Visible ASCII: no whitespace character lies in this range. */
  function Visible(s: seq<char>): (b: bool)
    ensures b ==> NoWs(s)
  {
    if s == [] then true
    else
      assert forall i :: 0 < i < |s| ==> s[i] == s[1..][i - 1];
      '!' <= s[0] <= '~' && Visible(s[1..])
  }

  /** The four word tokens hold no whitespace. */
  lemma HelloWordsHaveNoWs()
    ensures NoWs("Hello,") && NoWs("world.") && NoWs("New") && NoWs("Para")
  {
    assert Visible("Hello,");
    assert Visible("world.");
    assert Visible("New");
    assert Visible("Para");
  }

  /** The separators are whitespace, and only the blank line is a paragraph
      break. */
  lemma HelloSeparators()
    ensures AllWs(" ") && AllWs("\n\n")
    ensures HasWs(" ") && !HasParagraphBreak(" ")
    ensures HasWs("\n\n") && HasParagraphBreak("\n\n")
  {
    assert IsWs(" "[0]);
    assert "\n\n"[0] == '\n' && "\n\n"[1] == '\n';
  }

  lemma HelloAreRuns()
    ensures forall i :: 0 <= i < |HELLO_RUNS| ==> IsRun(HELLO_RUNS[i])
    ensures Alternating(HELLO_RUNS)
  {
    HelloWordsHaveNoWs();
    HelloSeparators();
    var r := HELLO_RUNS;
    assert r[0] == "Hello," && r[2] == "world." && r[4] == "New" && r[6] == "Para";
    assert r[1] == " " && r[3] == " " && r[5] == "\n\n";
    assert !IsSpaceRun(r[0]) && !IsSpaceRun(r[2]) && !IsSpaceRun(r[4]) && !IsSpaceRun(r[6]);
    assert IsSpaceRun(r[1]) && IsSpaceRun(r[3]) && IsSpaceRun(r[5]);
  }

  /** The seven runs concatenate back to the text. */
  lemma HelloFlatten()
    ensures Flatten(HELLO_RUNS) == HELLO
  {
    var t6: seq<seq<char>> := ["Para"];
    var t5 := ["\n\n"] + t6;
    var t4 := ["New"] + t5;
    var t3 := [" "] + t4;
    var t2 := ["world."] + t3;
    var t1 := [" "] + t2;
    assert HELLO_RUNS == ["Hello,"] + t1;
    FlattenCons("Para", []);
    FlattenCons("\n\n", t6);
    FlattenCons("New", t5);
    FlattenCons(" ", t4);
    FlattenCons("world.", t3);
    FlattenCons(" ", t2);
    FlattenCons("Hello,", t1);
    HelloConcat();
  }

  lemma HelloConcat()
    ensures "Hello," + (" " + ("world." + (" " + ("New" + ("\n\n" + ("Para" + [])))))) == HELLO
  {
  }

  lemma HelloRuns()
    ensures SplitRuns(HELLO) == HELLO_RUNS
  {
    HelloFlatten();
    HelloAreRuns();
    SplitRunsUnique(HELLO_RUNS, HELLO);
  }

  lemma HelloFirstHalf()
    ensures ApplyTokens(EmptyStream, HELLO_RUNS)
            == ApplyTokens(Stream(["Hello,", "world."], map[0 := Comma, 1 := Period]), HELLO_RUNS[3..])
  {
    HelloWordsHaveNoWs();
    HelloSeparators();
    var s1 := Stream(["Hello,"], map[0 := Comma]);
    assert ApplyToken(EmptyStream, "Hello,") == s1;
    assert ApplyToken(s1, " ") == s1;
    var s3 := Stream(["Hello,", "world."], map[0 := Comma, 1 := Period]);
    assert ApplyToken(s1, "world.") == s3;
    ApplyTokensCons(EmptyStream, "Hello,", HELLO_RUNS[1..]);
    ApplyTokensCons(s1, " ", HELLO_RUNS[2..]);
    ApplyTokensCons(s1, "world.", HELLO_RUNS[3..]);
  }

  lemma HelloSecondHalf()
    ensures ApplyTokens(Stream(["Hello,", "world."], map[0 := Comma, 1 := Period]), HELLO_RUNS[3..])
            == Stream(["Hello,", "world.", "New", "Para"], map[0 := Comma, 1 := Period, 2 := Paragraph])
  {
    HelloWordsHaveNoWs();
    HelloSeparators();
    var s3 := Stream(["Hello,", "world."], map[0 := Comma, 1 := Period]);
    assert ApplyToken(s3, " ") == s3;
    var s5 := Stream(["Hello,", "world.", "New"], map[0 := Comma, 1 := Period]);
    assert ApplyToken(s3, "New") == s5;
    var s6 := Stream(["Hello,", "world.", "New"], map[0 := Comma, 1 := Period, 2 := Paragraph]);
    assert ApplyToken(s5, "\n\n") == s6;
    var s7 := Stream(["Hello,", "world.", "New", "Para"], map[0 := Comma, 1 := Period, 2 := Paragraph]);
    assert ApplyToken(s6, "Para") == s7;
    ApplyTokensCons(s3, " ", HELLO_RUNS[4..]);
    ApplyTokensCons(s3, "New", HELLO_RUNS[5..]);
    ApplyTokensCons(s5, "\n\n", HELLO_RUNS[6..]);
    ApplyTokensCons(s6, "Para", []);
    assert HELLO_RUNS[6..] == ["Para"];
  }

  /** The tokenizer on "Hello, world. New\n\nPara": four words; "Hello," has a
      comma pause, "world." a period pause, "New" a paragraph pause (the break
      follows it), "Para" none. */
  lemma HelloWorld()
    ensures ProcessText(HELLO).words == ["Hello,", "world.", "New", "Para"]
    ensures ProcessText(HELLO).pauses == map[0 := Comma, 1 := Period, 2 := Paragraph]
  {
    HelloRuns();
    HelloFirstHalf();
    HelloSecondHalf();
  }
}
