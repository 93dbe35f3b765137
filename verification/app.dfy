/**
 The reader as a whole: the application state, loading a document
 (script.js:466-520), highlighting the current word in the context view
 (script.js:531-558), and the handlers that drive playback, seeking and the
 virtualised viewer (script.js:725-764, 834-863).

 A document reaches the model as its extracted text: one string for a
 plain-text, PDF or DOCX file, or the cleaned text of each chapter for an
 EPUB. Which EPUB chapters fail to render again on demand is a parameter of
 the load (`failing`), standing for the EPUB library that is not part of
 this model.
 */
module App {
  import opened Config
  import opened Seqs
  import opened Text
  import opened Tokenizer
  import opened Partition
  import opened Render
  import opened Playback
  import opened Seek

  datatype Document = Plain(text: seq<char>) | Sectioned(texts: seq<seq<char>>)

  /** The parts of the global state the core reads and writes. */
  datatype AppState = AppState(
    stream: Stream,
    epub: bool,
    units: seq<Unit>,
    failing: set<nat>,
    player: Player,
    wpm: int,
    highlight: Option<nat>)

  /** The highlighted word exists and sits in a rendered unit. */
  predicate HighlightShown(s: AppState)
  {
    s.highlight.Some? ==>
      && s.highlight.value < |s.stream.words|
      && 0 <= FindUnit(s.units, s.highlight.value)
      && s.units[FindUnit(s.units, s.highlight.value)].rendered
  }

  /** What every handler keeps: a well-formed stream, a unit table tiling
      it, a consistent player and a highlight on a rendered word. */
  predicate Inv(s: AppState)
  {
    && ValidStream(s.stream)
    && Tiles(s.units, |s.stream.words|)
    && PlayerInv(s.player, |s.stream.words|)
    && HighlightShown(s)
  }

  /** `resetUIState()`: no document, stopped at 0; the rate is kept. */
  function Reset(s: AppState): (r: AppState)
    ensures Inv(r)
    ensures r.stream.words == [] && r.units == [] && r.highlight.None?
    ensures r.wpm == s.wpm && !r.player.playing && r.player.cursor == 0
  {
    AppState(EmptyStream, false, [], {}, Player(0, false, None), s.wpm, None)
  }

  /** The state at start-up: nothing loaded, stopped at 0, at the default
      rate (settings storage always answers the default). */
  function Initial(): (r: AppState)
    ensures Inv(r)
    ensures r.stream.words == [] && r.units == [] && r.highlight.None?
    ensures !r.player.playing && r.player.cursor == 0 && r.player.pending.None?
    ensures r.wpm == DEFAULT_WPM
  {
    AppState(EmptyStream, false, [], {}, Player(0, false, None), DEFAULT_WPM, None)
  }

  /** The word count of each chapter, `split(/\s+/).filter(Boolean).length`. */
  function ChapterCounts(texts: seq<seq<char>>): (counts: seq<nat>)
    ensures |counts| == |texts|
    ensures forall k :: 0 <= k < |texts| ==> counts[k] == CountWords(texts[k])
  {
    Lengths(WordsOfEach(texts))
  }

  /** The unit of the viewer holding word `i`, rendered on demand. */
  function RenderFor(s: AppState, k: int): (units: seq<Unit>)
  {
    if s.epub then RenderChapter(s.units, k, k !in s.failing) else RenderBlock(s.units, k)
  }

  /** `highlightContextWord(i)`: clear the highlight; for an index of the
      stream, render the unit holding it if needed and highlight the word
      when that unit is rendered afterwards (a failing chapter is not). */
  function Highlight(s: AppState, i: int): (r: AppState)
    ensures r.stream == s.stream && r.player == s.player && r.wpm == s.wpm
    ensures r.epub == s.epub && r.failing == s.failing
    ensures SameShape(s.units, r.units)
    ensures 0 <= FindUnit(s.units, i) ==> OthersUnchanged(s.units, r.units, FindUnit(s.units, i))
    ensures 0 <= FindUnit(s.units, i) ==>
              r.units[FindUnit(s.units, i)].rendered
              == (s.units[FindUnit(s.units, i)].rendered || !s.epub || FindUnit(s.units, i) !in s.failing)
    ensures i < 0 || FindUnit(s.units, i) == -1 ==> r == s.(highlight := None)
    ensures r.highlight.Some? <==>
              0 <= FindUnit(s.units, i) && r.units[FindUnit(s.units, i)].rendered
    ensures r.highlight.Some? ==> r.highlight.value == i
    ensures 0 <= FindUnit(s.units, i) && !s.epub ==> r.highlight == Some(i as nat)
  {
    if i < 0 then s.(highlight := None)
    else
      var k := FindUnit(s.units, i);
      if k == -1 then s.(highlight := None)
      else
        var units := RenderFor(s, k);
        s.(units := units, highlight := if units[k].rendered then Some(i as nat) else None)
  }

  lemma HighlightKeepsInv(s: AppState, i: int)
    requires Inv(s)
    ensures Inv(Highlight(s, i))
  {
    var r := Highlight(s, i);
    SameShapeKeepsTiling(s.units, r.units, 0, |s.stream.words|);
    FindSameShape(s.units, r.units, i);
    FindInTiling(s.units, |s.stream.words|, i);
  }

  /** Load a document: extract the stream, build the unit table, and, when
      the stream has words, highlight the first one. A document without
      words is an error that leaves the reader reset. */
  function Load(s: AppState, doc: Document, failing: set<nat>): (r: AppState)
  {
    var base := Reset(s);
    var loaded := match doc
      case Plain(text) =>
        var st := ProcessText(text);
        base.(stream := st, units := Blocks(|st.words|))
      case Sectioned(texts) =>
        base.(stream := ProcessText(Join(texts)), epub := true,
              units := Chapters(ChapterCounts(texts)), failing := failing);
    if loaded.stream.words == [] then base else Highlight(loaded, 0)
  }

  /** The words of the joined chapters are the words of each chapter in
      order, so the chapter table built from per-chapter counts tiles the
      stream, and chapter `k` spans exactly the words of text `k`. */
  lemma {:induction false} ChapterWords(texts: seq<seq<char>>)
    ensures |ProcessText(Join(texts)).words| == Sum(ChapterCounts(texts))
    ensures Tiles(Chapters(ChapterCounts(texts)), |ProcessText(Join(texts)).words|)
    ensures forall k :: 0 <= k < |texts| ==>
              var u := Chapters(ChapterCounts(texts))[k];
              && u.start + u.count <= |ProcessText(Join(texts)).words|
              && ProcessText(Join(texts)).words[u.start..u.start + u.count] == SplitWords(texts[k])
  {
    var words := ProcessText(Join(texts)).words;
    var wss := WordsOfEach(texts);
    var counts := ChapterCounts(texts);
    ProcessTextSpec(Join(texts));
    SplitWordsJoin(texts);
    assert words == Flatten(wss);
    FlattenLength(wss);
    ChaptersTile(counts);
    forall k | 0 <= k < |texts|
      ensures Chapters(counts)[k].start + Chapters(counts)[k].count <= |words|
      ensures words[Chapters(counts)[k].start..Chapters(counts)[k].start + Chapters(counts)[k].count]
              == SplitWords(texts[k])
    {
      ChapterSpan(texts, k);
    }
  }

  /** Chapter `k` of the table spans the words of text `k` in the
      concatenated word lists. */
  lemma ChapterSpan(texts: seq<seq<char>>, k: nat)
    requires k < |texts|
    ensures Chapters(ChapterCounts(texts))[k].start + Chapters(ChapterCounts(texts))[k].count
            <= |Flatten(WordsOfEach(texts))|
    ensures Flatten(WordsOfEach(texts))[Chapters(ChapterCounts(texts))[k].start
                                        ..Chapters(ChapterCounts(texts))[k].start
                                          + Chapters(ChapterCounts(texts))[k].count]
            == SplitWords(texts[k])
  {
    var wss := WordsOfEach(texts);
    FlattenSlice(wss, k);
    assert Lengths(wss) == ChapterCounts(texts);
  }

  /** After a load the reader is consistent and stopped at the first word; a
      document without words leaves it reset; otherwise the stream is the
      document's words, and the first word is highlighted unless its chapter
      fails to render. */
  lemma LoadSpec(s: AppState, doc: Document, failing: set<nat>)
    ensures Inv(Load(s, doc, failing))
    ensures !Load(s, doc, failing).player.playing && Load(s, doc, failing).player.cursor == 0
    ensures Load(s, doc, failing).wpm == s.wpm
    ensures doc.Plain? ==> Load(s, doc, failing).stream.words == SplitWords(doc.text)
    ensures doc.Sectioned? ==> Load(s, doc, failing).stream.words == Flatten(WordsOfEach(doc.texts))
    ensures Load(s, doc, failing).stream.words == [] ==> Load(s, doc, failing) == Reset(s)
    ensures doc.Plain? && Load(s, doc, failing).stream.words != [] ==>
              Load(s, doc, failing).highlight == Some(0)
    ensures doc.Sectioned? && Load(s, doc, failing).stream.words != [] ==>
              (Load(s, doc, failing).highlight == Some(0) <==>
                 FindUnit(Chapters(ChapterCounts(doc.texts)), 0) !in failing)
    ensures doc.Plain? && Load(s, doc, failing).stream.words != [] ==>
              && Load(s, doc, failing).stream == ProcessText(doc.text)
              && !Load(s, doc, failing).epub
              && Load(s, doc, failing).units
                 == RenderBlock(Blocks(|SplitWords(doc.text)|), 0)
    ensures doc.Sectioned? && Load(s, doc, failing).stream.words != [] ==>
              var chapters := Chapters(ChapterCounts(doc.texts));
              var k := FindUnit(chapters, 0);
              && Load(s, doc, failing).stream == ProcessText(Join(doc.texts))
              && Load(s, doc, failing).epub
              && Load(s, doc, failing).failing == failing
              && Load(s, doc, failing).units == RenderChapter(chapters, k, k !in failing)
  {
    var base := Reset(s);
    match doc {
      case Plain(text) =>
        var st := ProcessText(text);
        ProcessTextSpec(text);
        BlocksTile(|st.words|);
        var loaded := base.(stream := st, units := Blocks(|st.words|));
        if st.words != [] {
          HighlightKeepsInv(loaded, 0);
          FindInTiling(loaded.units, |st.words|, 0);
          FindBlock(|st.words|, 0);
        }
      case Sectioned(texts) =>
        ProcessTextSpec(Join(texts));
        SplitWordsJoin(texts);
        ChapterWords(texts);
        var loaded := base.(stream := ProcessText(Join(texts)), epub := true,
                            units := Chapters(ChapterCounts(texts)), failing := failing);
        if loaded.stream.words != [] {
          HighlightKeepsInv(loaded, 0);
          FindInTiling(loaded.units, |loaded.stream.words|, 0);
        }
    }
  }

  // ---------------------------------------------------------------------
  // Handlers
  // ---------------------------------------------------------------------

  datatype Event =
    | PlayPause             // the play/pause button
    | TimerFires            // the scheduled playback step runs
    | RestartPressed        // the restart button
    | PrevPressed           // the previous button
    | NextPressed           // the next button
    | WordClicked(w: nat)   // a word of the context view
    | EnterView(k: int)     // unit `k` scrolls near the viewport
    | LeaveView(k: int)     // unit `k` scrolls away
    | RateDragged(wpm: int) // the rate slider moves
    | RateChanged(wpm: int) // the rate slider is released

  /** Reflect what a playback step showed in the context view: a word is
      highlighted, the end of the document clears the highlight. */
  function ShowStep(s: AppState, shown: Shown): AppState
  {
    match shown
      case Nothing => s
      case Word(i) => Highlight(s, i)
      case EndOfDocument => Highlight(s, -1)
  }

  /** Reflect what a seek control showed. */
  function ShowSeek(s: AppState, shown: Option<nat>): AppState
  {
    if shown.Some? then Highlight(s, shown.value) else s
  }

  /** Unit `k` is unrendered: a highlight inside it goes with its markup. */
  function LeaveUnit(s: AppState, k: int): (r: AppState)
    ensures r.units == Unrender(s.units, k)
    ensures r.highlight.Some? <==>
              s.highlight.Some? && !(0 <= k < |s.units| && Covers(s.units[k], s.highlight.value))
    ensures r.highlight.Some? ==> r.highlight == s.highlight
    ensures r.stream == s.stream && r.player == s.player && r.wpm == s.wpm
    ensures r.epub == s.epub && r.failing == s.failing
  {
    var gone := s.highlight.Some? && 0 <= k < |s.units| && Covers(s.units[k], s.highlight.value);
    s.(units := Unrender(s.units, k), highlight := if gone then None else s.highlight)
  }

  /** One event, as the handler bound to it processes it. */
  function Handle(s: AppState, e: Event): AppState
  {
    var len := |s.stream.words|;
    var pauses := s.stream.pauses;
    match e
      case PlayPause =>
        if s.player.playing then s.(player := Stop(s.player))
        else
          var (p, shown) := Start(s.player, len, pauses, s.wpm);
          ShowStep(s.(player := p), shown)
      case TimerFires =>
        var (p, shown) := Tick(s.player, len, pauses, s.wpm);
        ShowStep(s.(player := p), shown)
      case RestartPressed =>
        var (p, shown) := Restart(s.player, len);
        ShowSeek(s.(player := p), shown)
      case PrevPressed =>
        var (p, shown) := Prev(s.player, len);
        ShowSeek(s.(player := p), shown)
      case NextPressed =>
        var (p, shown) := Next(s.player, len);
        ShowSeek(s.(player := p), shown)
      case WordClicked(w) =>
        var (p, shown) := Jump(s.player, len, w);
        ShowSeek(s.(player := p), shown)
      case EnterView(k) => s.(units := RenderFor(s, k))
      case LeaveView(k) => LeaveUnit(s, k)
      case RateDragged(w) => s.(wpm := w)
      case RateChanged(w) =>
        var (p, shown) := ChangeRate(s.player, len, pauses, w);
        ShowStep(s.(player := p, wpm := w), shown)
  }

  /** Rendering a unit never hides the highlight. */
  lemma {:induction false} EnterKeepsInv(s: AppState, k: int)
    requires Inv(s)
    ensures Inv(s.(units := RenderFor(s, k)))
  {
    var units := RenderFor(s, k);
    SameShapeKeepsTiling(s.units, units, 0, |s.stream.words|);
    if s.highlight.Some? {
      FindSameShape(s.units, units, s.highlight.value);
    }
  }

  /** Unrendering a unit keeps the highlight only when it lies elsewhere. */
  lemma {:induction false} LeaveKeepsInv(s: AppState, k: int)
    requires Inv(s)
    ensures Inv(LeaveUnit(s, k))
  {
    var r := LeaveUnit(s, k);
    SameShapeKeepsTiling(s.units, r.units, 0, |s.stream.words|);
    if r.highlight.Some? {
      var h := r.highlight.value;
      FindSameShape(s.units, r.units, h);
      var j := FindUnit(s.units, h);
      assert j != k;
    }
  }

  /** Every handler keeps the invariant. */
  lemma {:induction false} HandleKeepsInv(s: AppState, e: Event)
    requires Inv(s)
    ensures Inv(Handle(s, e))
  {
    var len := |s.stream.words|;
    var pauses := s.stream.pauses;
    SchedulerKeepsInv(s.player, len, pauses, s.wpm);
    match e {
      case PlayPause =>
        var (p, shown) := Start(s.player, len, pauses, s.wpm);
        ShowStepKeepsInv(s.(player := p), shown);
      case TimerFires =>
        var (p, shown) := Tick(s.player, len, pauses, s.wpm);
        ShowStepKeepsInv(s.(player := p), shown);
      case RestartPressed =>
        SeekKeepsInv(s.player, len, 0);
        var (p, shown) := Restart(s.player, len);
        ShowSeekKeepsInv(s.(player := p), shown);
      case PrevPressed =>
        SeekKeepsInv(s.player, len, 0);
        var (p, shown) := Prev(s.player, len);
        ShowSeekKeepsInv(s.(player := p), shown);
      case NextPressed =>
        SeekKeepsInv(s.player, len, 0);
        var (p, shown) := Next(s.player, len);
        ShowSeekKeepsInv(s.(player := p), shown);
      case WordClicked(w) =>
        SeekKeepsInv(s.player, len, w);
        var (p, shown) := Jump(s.player, len, w);
        ShowSeekKeepsInv(s.(player := p), shown);
      case EnterView(k) => EnterKeepsInv(s, k);
      case LeaveView(k) => LeaveKeepsInv(s, k);
      case RateDragged(w) =>
      case RateChanged(w) =>
        SchedulerKeepsInv(s.player, len, pauses, w);
        var (p, shown) := ChangeRate(s.player, len, pauses, w);
        ShowStepKeepsInv(s.(player := p, wpm := w), shown);
    }
  }

  lemma ShowStepKeepsInv(s: AppState, shown: Shown)
    requires Inv(s)
    ensures Inv(ShowStep(s, shown))
  {
    match shown {
      case Nothing =>
      case Word(i) => HighlightKeepsInv(s, i);
      case EndOfDocument => HighlightKeepsInv(s, -1);
    }
  }

  lemma ShowSeekKeepsInv(s: AppState, shown: Option<nat>)
    requires Inv(s)
    ensures Inv(ShowSeek(s, shown))
  {
    if shown.Some? {
      HighlightKeepsInv(s, shown.value);
    }
  }

  /** While playing, the highlighted word of a plain document is the word
      on screen: the one just before the cursor. */
  lemma {:induction false} PlayingHighlightsShownWord(s: AppState)
    requires Inv(s) && !s.epub
    requires s.player.playing && s.player.cursor < |s.stream.words|
    ensures Handle(s, TimerFires).highlight == Some(s.player.cursor)
    ensures Handle(s, TimerFires).player.cursor == s.player.cursor + 1
  {
    FindInTiling(s.units, |s.stream.words|, s.player.cursor);
  }

  /** Play/pause twice from a stopped reader of a non-empty document leaves
      it stopped one word past where it resumed. */
  lemma {:induction false} PlayPauseTwice(s: AppState)
    requires Inv(s) && !s.player.playing && |s.stream.words| > 0
    ensures !Handle(Handle(s, PlayPause), PlayPause).player.playing
    ensures Handle(Handle(s, PlayPause), PlayPause).player.cursor
            == ResumeIndex(s.player, |s.stream.words|) + 1
  {
  }

  /** Moving the rate slider leaves the scheduled step alone; the new rate
      takes effect from the delay the next step schedules. */
  lemma {:induction false} DraggedRateAppliesAtNextStep(s: AppState, w: int)
    requires Inv(s)
    requires s.player.playing && s.player.cursor < |s.stream.words|
    ensures Handle(s, RateDragged(w)).player == s.player
    ensures Handle(s, RateDragged(w)).wpm == w
    ensures Handle(Handle(s, RateDragged(w)), TimerFires).player.pending
            == Some(DelayAfter(w, s.stream.pauses, s.player.cursor))
  {
    var s1 := Handle(s, RateDragged(w));
    assert s1.player == s.player && s1.stream == s.stream;
  }
}
