# RSVP reader core, modelled in Dafny

This project models the core of a browser speed reader (`script.js`). The
reader flashes a document one word at a time at a chosen rate in words per
minute. Alongside, it shows the whole text in a context view that renders
only the parts near the viewport. The model covers these parts:

- **Tokenizer and pause map.** `processText` and `appendTextFragment` cut a
  text into words and give each word a pause tag. A word ending in `.?!`
  gets a period tag, and one ending in `,;:` a comma tag. A whitespace run
  holding a blank line (`"\n\n"`) marks the preceding word with a paragraph
  tag, which beats punctuation. (`text.dfy`, `tokenizer.dfy`)
- **Display units.** A plain document is cut into blocks of 1500 words. An
  EPUB is cut into chapters, whose start indices are running sums of the
  chapter word counts. `findBlockIndexForWord` and `findChapterIndexForWord`
  find the unit that covers a word. (`partition.dfy`)
- **Rendering.** The rendered flags of units change under `renderBlock`,
  `renderChapter`, `unrenderBlock` and `unrenderChapter`. A rendered block
  is laid out as paragraphs. (`render.dfy`)
- **Playback.** The scheduler is made of `displayCurrentItem`, `startRSVP`,
  `stopRSVP`, the base delay and the pause multipliers. The browser timer is
  a `pending` field holding the delay of the scheduled step, kept as the
  rate and pause tag it was computed from; `Millis` turns it into
  milliseconds.
  (`config.dfy`, `playback.dfy`)
- **Seek controls.** These are the restart, previous and next buttons, and
  a click on a word in the context view. (`seek.dfy`)
- **The application.** It loads a document, highlights the current word,
  and dispatches every event to its handler. It also keeps an invariant
  across all handlers: the stream is well formed, the units tile it, the
  player is consistent, and the highlighted word sits in a rendered unit.
  (`app.dfy`)

JavaScript's `\s` is spelled out as an explicit set of characters.
`split(/(\s+)/)` is modelled as the list of maximal runs of the text.
`split(/\s+/).filter(Boolean)` is a separate character-by-character
definition, and the two are proved to find the same words. Pause
multipliers are exact rationals (13/10, 22/10, 35/10).

Two behaviours of the tokenizer are easy to misread:

- A blank line tags the word before it. In `"Hello, world. New\n\nPara"`
  the blank line follows `New` (index 2), so index 2 gets the paragraph tag
  and `world.` (index 1) keeps its period tag. `TokenizerExample.HelloWorld`
  proves this.
- A paragraph break is the literal substring `"\n\n"`, so a Windows blank
  line `"\r\n\r\n"` is not one (`Text.CrlfIsNoBreak`).

## Model

| member | source | states |
|---|---|---|
| Config.PauseMultiplier | script.js:51-55 | every pause tag lengthens the delay: its multiplier exceeds 1 |
| Config.MultiplierOf | script.js:319-320 | an index without a pause entry keeps the base delay (factor 1); a tagged one is lengthened |
| Text.SplitRuns | script.js:356 | `split(/(\s+)/)`: the runs concatenate back to the text, each is non-empty and all-space or space-free, and neighbours alternate |
| Text.SplitRunsUnique | script.js:356 | any cut with those three properties is the cut SplitRuns makes |
| Text.SplitWords | script.js:486 | `split(/\s+/).filter(Boolean)`: every element is a non-empty, whitespace-free word |
| Text.WordsOfRuns | script.js:357-371 | the word tokens of `split(/(\s+)/)` are exactly the words `split(/\s+/).filter(Boolean)` finds, in order |
| Text.SplitWordsAppend | script.js:486 | text following a whitespace character does not change the words before it |
| Text.SplitWordsJoin | script.js:486-494 | the words of the chapter texts joined by a blank line are the words of each chapter, one after another |
| Text.CrlfIsNoBreak | script.js:362 | `"\n\n"` inside a run is a paragraph break; `"\r\n\r\n"` is not |
| Tokenizer.ProcessTextSpec | script.js:351-375 | processText yields exactly the words of the text; each word's tag is Paragraph when the next whitespace run has a blank line and otherwise its punctuation tag; no other index is tagged |
| Tokenizer.AppendFragmentWords | script.js:383-398 | appendTextFragment on empty text changes nothing; otherwise the old words stay a prefix and the text's words follow them |
| Tokenizer.AppendKeepsOldPauses | script.js:383-406 | appending never changes the tag of any old word before the last one |
| Tokenizer.AppendLastOldPause | script.js:383-406 | the last old word becomes Paragraph exactly when the fragment starts with a blank line, or a forced break adds no word; otherwise its tag is kept |
| Tokenizer.AppendNewPauses | script.js:386-405 | new words get their reference tags continuing from the old length; a forced break tags the last new word Paragraph |
| Tokenizer.ForceBreak | script.js:403-405 | the forced break tags only the last word Paragraph and keeps the words and every other tag |
| Tokenizer.ProcessIsAppendToEmpty | script.js:351-406 | processText is appendTextFragment into an empty stream |
| TokenizerExample.HelloWorld | script.js:351-375 | `"Hello, world. New\n\nPara"` gives four words tagged comma, period, paragraph, none |
| Partition.TilesIffContiguous | script.js:478-492 | the recursive tiling equals the pointwise one: first start, neighbours contiguous, last end |
| Partition.TilesSum | script.js:478-492 | the counts of a tiling sum to the length of the range it covers |
| Partition.TilesDisjoint | script.js:586-588 | in a tiling at most one unit covers an index, and only indices of the stream are covered |
| Partition.FindUnit | script.js:586-588 | findIndex: the first unit covering the index, or -1 exactly when no unit covers it |
| Partition.FindInTiling | script.js:527-529 | on a tiling, lookup succeeds exactly for indices of the stream and finds the only unit covering the index |
| Partition.BuildBlocks | script.js:739-744 | the block loop builds block k at k*1500 with min(1500, total - k*1500) words, unrendered |
| Partition.BlocksTile | script.js:739-744 | blocks tile the stream; each holds 1 to 1500 words, all but the last exactly 1500 |
| Partition.Blocks3400 | script.js:739-744 | 3400 words give blocks of 1500, 1500 and 400 words at 0, 1500 and 3000 |
| Partition.FindBlock | script.js:586-588 | for blocks, the covering unit of an index is the index divided by 1500 |
| Partition.BuildChapters | script.js:478-492 | the chapter loop starts each chapter at the running sum of the counts before it |
| Partition.ChaptersTile | script.js:478-492 | chapters tile [0, sum of counts) and keep each chapter's count |
| Render.RenderBlock | script.js:601-633 | a missing or rendered block is left alone; otherwise exactly that block's flag is set |
| Render.RenderChapter | script.js:637-707 | like RenderBlock, except that a chapter whose content fails to load stays unrendered |
| Render.Unrender | script.js:574-599 | a missing or unrendered unit is left alone; otherwise exactly that unit's flag is cleared |
| Render.FindSameShape | script.js:586-588 | lookup reads only positions and counts, never the rendered flags |
| Render.RenderIdempotent | script.js:574-603 | rendering or unrendering twice is the same as once, as the `isRendered` guards of unrenderChapter, unrenderBlock and renderBlock make it |
| Render.RenderUnrenderRender | script.js:574-633 | render, unrender, render ends in the same table as a single render |
| Render.UnrenderRenderUnrender | script.js:574-633 | unrender, render, unrender ends in the same table as a single unrender |
| Render.Layout | script.js:607-618 | paragraphs concatenate to the range in order, none is empty, each but the last ends at a Paragraph-tagged index, none has one inside |
| Render.BlockRange | script.js:607-608 | the indices shown are exactly those the block covers that exist in the stream |
| Render.RenderBlockView | script.js:601-634 | a layout is produced exactly when the block gets rendered; its paragraphs list the block's range in order, none empty, each but the last ending at a Paragraph-tagged index and none holding one inside |
| Playback.BaseDelay | script.js:50 | the base delay times the rate is one minute; a non-positive rate gives 200 ms; the delay is positive |
| Playback.BaseDelayMonotone | script.js:50 | a faster rate never gives a longer base delay |
| Playback.Millis | script.js:313-320 | a delay lasts the base delay times its tag's multiplier, the base delay when untagged, and never less than the base delay |
| Playback.DelayOrder | script.js:51-55 | at one rate, an untagged word pauses less than a comma, a comma less than a period, a period less than a paragraph |
| Playback.DefaultDelay | script.js:45-50 | at the default rate of 300 words per minute the base delay is 200 ms |
| Playback.StepSchedulesWordDelay | script.js:313-324 | the step a playing reader schedules lasts the base delay times the pause multiplier of the word just shown, and exactly the base delay when that word has no pause entry |
| Playback.Stop | script.js:343-348 | stopping clears the scheduled step and the playing flag, and keeps the cursor |
| Playback.StopIdempotent | script.js:343-348 | stopping twice is stopping once |
| Playback.Step | script.js:301-327 | stopped or at the end, a step stops and reports the end for a non-empty stream; otherwise it shows the cursor word, advances by one and schedules the next step |
| Playback.Start | script.js:330-340 | nothing happens on an empty stream; otherwise playback starts at the cursor, or at 0 when at the end, showing that word at once |
| Playback.Tick | script.js:326 | a step runs only when one is scheduled |
| Playback.ChangeRate | script.js:835 | a stopped reader is unchanged; a playing one stops and restarts at once, showing the word at the cursor (the first word when at the end) and scheduling its delay at the new rate |
| Playback.SchedulerKeepsInv | script.js:301-348 | each scheduler operation keeps the cursor within the stream, a step scheduled exactly while playing, and playback only on a non-empty stream |
| Playback.RunToEnd | script.js:301-327 | left alone, a playing reader shows each remaining word once in order, then the end, then stops with nothing scheduled |
| Seek.Restart | script.js:848 | restart stops at cursor 0 and shows the first word exactly when the stream has one |
| Seek.Prev | script.js:849-855 | at cursor 0 or 1 previous is restart; otherwise it stops two words back and shows that word when it exists |
| Seek.Next | script.js:857-863 | at or past the last word next does nothing at all; otherwise it stops, shows the cursor word and moves one past it |
| Seek.Jump | script.js:622-630 | a click on a word of the stream stops and shows it with the cursor on it; other indices are ignored |
| Seek.SeekKeepsInv | script.js:848-863 | every seek keeps the cursor in [0, len], leaves playback stopped when it acts, and shows only existing words |
| Seek.NextAfterStep | script.js:857-863 | after a playback step, next shows the following word |
| Seek.PrevAfterNext | script.js:849-863 | after next, previous shows the word before the one next showed |
| Seek.PrevTwice | script.js:849-855 | two presses of previous go back four words from the cursor |
| Seek.RestartIdempotent | script.js:848 | restarting twice is restarting once |
| App.Initial | script.js:901 | at start-up nothing is loaded, the reader is stopped at 0 with nothing scheduled, at the default rate, and the invariant holds |
| App.Reset | script.js:209-219 | the reset state has no document, is stopped at 0 with no highlight, keeps the rate and satisfies the invariant |
| App.ChapterCounts | script.js:486 | each chapter's count is the number of its words |
| App.Highlight | script.js:532-555 | an index outside the stream clears the highlight; otherwise only the unit covering it may change, it ends rendered unless it is a failing chapter, and the word is highlighted exactly when that unit is rendered |
| App.HighlightKeepsInv | script.js:532-555 | highlighting keeps the application invariant |
| App.ChapterWords | script.js:478-494 | the chapter counts sum to the stream length, chapters tile the stream, and chapter k spans exactly the words of text k |
| App.LoadSpec | script.js:466-520 | a load leaves a consistent, stopped reader at 0 and keeps the rate; a document without words leaves it reset; otherwise the stream is processText of the text (of the chapters joined by a blank line), the units are the 1500-word blocks or the chapter table with only the unit of word 0 rendered (unless its chapter fails), and word 0 is highlighted exactly when that unit is rendered |
| App.LeaveUnit | script.js:753-761 | a unit leaving the view is unrendered, a highlight inside it is cleared, any other highlight is kept as it was, and nothing else changes |
| App.EnterKeepsInv | script.js:725-729 | rendering a unit that enters the view keeps the invariant, for the chapter observer here and the block observer at script.js:753-761 alike |
| App.LeaveKeepsInv | script.js:725-731 | unrendering a unit that leaves the view keeps the invariant, for the chapter observer here and the block observer at script.js:753-761 alike |
| App.ShowStepKeepsInv | script.js:301-327 | highlighting what a playback step showed keeps the invariant |
| App.ShowSeekKeepsInv | script.js:848-863 | highlighting what a seek showed keeps the invariant |
| App.HandleKeepsInv | script.js:835-863 | every event handler keeps the application invariant |
| App.PlayingHighlightsShownWord | script.js:313-316 | while a plain document plays, each step highlights the word it shows |
| App.DraggedRateAppliesAtNextStep | script.js:834 | moving the rate slider keeps the scheduled step; the next step schedules its delay at the new rate |
| App.PlayPauseTwice | script.js:856 | play then pause from a stopped reader leaves it stopped one word past where it resumed |

## Left out

- File extraction (PDF, EPUB, DOCX and plain text) depends on foreign libraries. A document enters the model as its extracted text, or as the text of each chapter.
- EPUB HTML cleaning, and the way `renderChapter` wraps the words of the chapter markup in spans, are DOM parsing. Which chapters fail to load when rendered again is a parameter of the load.
- App.Highlight: assumes that a rendered chapter holds a span for every word it covers. Its markup is numbered by walking the DOM, which is not modelled.
- Scroll geometry, the user-scroll cool-down and the programmatic-scroll flag are pixel arithmetic and timer races.
- The IntersectionObserver is modelled only as arbitrary enter and leave events for a unit index.
- UI chrome is not modelled: themes, panels, fullscreen, sliders, text size and font, the message area, keyboard shortcuts, storage, and the enabling of the control buttons.
- The fixation letter and bionic text are presentation helpers built on floating-point ratios.
- Floating point is not modelled: delays are exact rationals, so the rounding of `60000 / wpm` and of the multiplied delay is not represented.
- Asynchrony is not modelled: each handler runs to completion. In the program, `displayCurrentItem` awaits `highlightContextWord` (which may await a chapter render) and afterwards always advances the cursor and sets a new timer, whatever happened meanwhile. A stop during that await stays stopped, but the cursor ends one word further and the stale timer later fires into the stopped branch, which reports "End of document.", clears the highlight and shows END. A seek during the await has its cursor moved one word further, followed by the same false end. A rate change during the await runs stop and start, which begins a second step chain while the stale one schedules its own timer at the old rate; the two chains then run side by side, and since only the latest timer id is kept, a later stop cancels only one of them. So `playing` exactly when one step is scheduled holds in the model, not in the program under such interleavings.
- Tokenizer.AppendFragmentWords: only strings are modelled, so the early return for a non-string argument is not represented.
