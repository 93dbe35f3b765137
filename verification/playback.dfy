/**
 The playback scheduler: `displayCurrentItem`, `startRSVP`, `stopRSVP` and
 the base delay (script.js:50-55, 301-348).

 The browser timer becomes the `pending` field: Some(d) when a step is
 scheduled to run after delay d, None when nothing is scheduled. A delay is
 kept as the rate and pause tag it was computed from; `Millis` gives its
 length in milliseconds as an exact rational. What a step shows is returned
 as an observation.
 */
module Playback {
  import opened Config

  datatype Player = Player(cursor: nat, playing: bool, pending: Option<Delay>)

  /** A scheduled delay: the rate in force and the pause tag of the word
      just shown. */
  datatype Delay = Delay(wpm: int, tag: Option<Pause>)

  /** What a step puts on screen. */
  datatype Shown = Nothing | Word(index: nat) | EndOfDocument

  /** A step is scheduled exactly while playing, the cursor never runs past
      the end of the stream, and only a non-empty stream plays (`startRSVP`
      returns at once on an empty one). */
  predicate PlayerInv(p: Player, len: nat)
  {
    && p.cursor <= len
    && (p.playing <==> p.pending.Some?)
    && (p.playing ==> len > 0)
  }

  /** `Config.BASE_DELAY_MS()`: one minute divided by the rate, or the
      fallback when the rate is not positive. */
  function BaseDelay(wpm: int): (d: real)
    ensures wpm > 0 ==> d * (wpm as real) == 60000.0
    ensures wpm <= 0 ==> d == FALLBACK_DELAY_MS
    ensures d > 0.0
  {
    if wpm > 0 then 60000.0 / (wpm as real) else FALLBACK_DELAY_MS
  }

  /** A faster rate never gives a longer base delay. */
  lemma BaseDelayMonotone(w1: int, w2: int)
    requires 0 < w1 <= w2
    ensures BaseDelay(w2) <= BaseDelay(w1)
  {
    var a, b := w1 as real, w2 as real;
    ProductsOrder(BaseDelay(w1), BaseDelay(w2), a, b);
  }

  /** Two positive values whose products with a <= b agree: the one
      multiplied by the larger factor is the smaller. */
  lemma ProductsOrder(x: real, y: real, a: real, b: real)
    requires 0.0 < a <= b && x > 0.0 && y > 0.0
    requires x * a == y * b
    ensures y <= x
  {
    if x < y {
      MulLt(x, y, a);
      MulLe(y, a, b);
      assert false;
    }
  }

  lemma MulLe(x: real, a: real, b: real)
    requires x > 0.0 && a <= b
    ensures x * a <= x * b
  {
  }

  lemma MulLt(x: real, y: real, a: real)
    requires x < y && a > 0.0
    ensures x * a < y * a
  {
    var e := y - x;
    assert e * a > 0.0;
    assert y * a == x * a + e * a;
  }

  /** Length of a delay in milliseconds: the base delay times the
      multiplier of its pause tag, one when untagged. */
  function Millis(d: Delay): (ms: real)
    ensures ms >= BaseDelay(d.wpm)
    ensures d.tag.None? ==> ms == BaseDelay(d.wpm)
    ensures d.tag.Some? ==> ms == BaseDelay(d.wpm) * PauseMultiplier(d.tag.value)
  {
    BaseDelay(d.wpm) * MultiplierOf(d.tag)
  }

  /** At any one rate, stronger breaks pause longer: untagged < comma <
      period < paragraph. */
  lemma {:induction false} DelayOrder(wpm: int)
    ensures Millis(Delay(wpm, None)) < Millis(Delay(wpm, Some(Comma)))
    ensures Millis(Delay(wpm, Some(Comma))) < Millis(Delay(wpm, Some(Period)))
    ensures Millis(Delay(wpm, Some(Period))) < Millis(Delay(wpm, Some(Paragraph)))
  {
    var b := BaseDelay(wpm);
    MulLt(1.0, 13.0 / 10.0, b);
    MulLt(13.0 / 10.0, 22.0 / 10.0, b);
    MulLt(22.0 / 10.0, 35.0 / 10.0, b);
  }

  /** At the default rate of 300 words per minute a word lasts 200 ms. */
  lemma DefaultDelay()
    ensures BaseDelay(DEFAULT_WPM) == 200.0
  {
  }

  /** The delay scheduled after showing word `i`. */
  function DelayAfter(wpm: int, pauses: map<nat, Pause>, i: nat): Delay
  {
    Delay(wpm, Lookup(pauses, i))
  }

  /** `stopRSVP()`: cancel the scheduled step and stop. */
  function Stop(p: Player): (r: Player)
    ensures !r.playing && r.pending.None?
    ensures r.cursor == p.cursor
  {
    p.(playing := false, pending := None)
  }

  lemma StopIdempotent(p: Player)
    ensures Stop(Stop(p)) == Stop(p)
  {
  }

  /** `displayCurrentItem()`: when stopped or at the end, stop (reporting the
      end of a non-empty document); otherwise show the word at the cursor,
      advance the cursor by one and schedule the next step after that word's
      delay. */
  function Step(p: Player, len: nat, pauses: map<nat, Pause>, wpm: int): (r: (Player, Shown))
    ensures !p.playing || p.cursor >= len ==>
              r.0 == Stop(p) && r.1 == (if len > 0 then EndOfDocument else Nothing)
    ensures p.playing && p.cursor < len ==>
              && r.0.playing
              && r.0.cursor == p.cursor + 1
              && r.0.pending == Some(DelayAfter(wpm, pauses, p.cursor))
              && r.1 == Word(p.cursor)
  {
    if !p.playing || p.cursor >= len then
      (Stop(p), if len > 0 then EndOfDocument else Nothing)
    else
      (Player(p.cursor + 1, true, Some(DelayAfter(wpm, pauses, p.cursor))), Word(p.cursor))
  }

  /** The step a playing reader schedules lasts the delay of the word it
      has just shown. */
  lemma StepSchedulesWordDelay(p: Player, len: nat, pauses: map<nat, Pause>, wpm: int)
    requires p.playing && p.cursor < len
    ensures Step(p, len, pauses, wpm).0.pending.Some?
    ensures Millis(Step(p, len, pauses, wpm).0.pending.value)
            == if p.cursor in pauses then BaseDelay(wpm) * PauseMultiplier(pauses[p.cursor])
               else BaseDelay(wpm)
  {
  }

  /** The cursor `startRSVP` resumes from: back to 0 when at or past the end. */
  function ResumeIndex(p: Player, len: nat): nat
  {
    if p.cursor >= len then 0 else p.cursor
  }

  /** `startRSVP()`: nothing on an empty stream; otherwise stop, set playing,
      rewind when at the end, and run the first step at once. */
  function Start(p: Player, len: nat, pauses: map<nat, Pause>, wpm: int): (r: (Player, Shown))
    ensures len == 0 ==> r == (p, Nothing)
    ensures len > 0 ==>
              && r.0.playing
              && r.1 == Word(ResumeIndex(p, len))
              && r.0.cursor == ResumeIndex(p, len) + 1
              && r.0.pending == Some(DelayAfter(wpm, pauses, ResumeIndex(p, len)))
  {
    if len == 0 then (p, Nothing)
    else
      var q := Stop(p).(playing := true);
      var q' := if q.cursor >= len then q.(cursor := 0) else q;
      Step(q', len, pauses, wpm)
  }

  /** The scheduled step fires: nothing happens when none is scheduled. */
  function Tick(p: Player, len: nat, pauses: map<nat, Pause>, wpm: int): (r: (Player, Shown))
    ensures p.pending.None? ==> r == (p, Nothing)
    ensures p.pending.Some? ==> r == Step(p.(pending := None), len, pauses, wpm)
  {
    if p.pending.None? then (p, Nothing) else Step(p.(pending := None), len, pauses, wpm)
  }

  /** The rate slider's change handler: a playing reader is restarted so the
      new rate applies at once; a stopped one keeps its state. */
  function ChangeRate(p: Player, len: nat, pauses: map<nat, Pause>, newWpm: int): (r: (Player, Shown))
    ensures !p.playing ==> r == (p, Nothing)
    ensures p.playing && len == 0 ==> r == (Stop(p), Nothing)
    ensures p.playing && len > 0 ==>
              && r.0.playing
              && r.1 == Word(ResumeIndex(p, len))
              && r.0.cursor == ResumeIndex(p, len) + 1
              && r.0.pending == Some(DelayAfter(newWpm, pauses, ResumeIndex(p, len)))
  {
    if p.playing then Start(Stop(p), len, pauses, newWpm) else (p, Nothing)
  }

  /** Every scheduler operation keeps the player invariant. */
  lemma SchedulerKeepsInv(p: Player, len: nat, pauses: map<nat, Pause>, wpm: int)
    requires PlayerInv(p, len)
    ensures PlayerInv(Stop(p), len)
    ensures PlayerInv(Step(p, len, pauses, wpm).0, len)
    ensures PlayerInv(Start(p, len, pauses, wpm).0, len)
    ensures PlayerInv(Tick(p, len, pauses, wpm).0, len)
    ensures PlayerInv(ChangeRate(p, len, pauses, wpm).0, len)
  {
  }

  // ---------------------------------------------------------------------
  // Running to the end
  // ---------------------------------------------------------------------

  /** Let the scheduled steps fire `n` times, collecting what they show. */
  function Run(p: Player, len: nat, pauses: map<nat, Pause>, wpm: int, n: nat): (r: (Player, seq<Shown>))
    ensures |r.1| == n
    decreases n
  {
    if n == 0 then (p, [])
    else
      var (q, s) := Tick(p, len, pauses, wpm);
      var (q', ss) := Run(q, len, pauses, wpm, n - 1);
      (q', [s] + ss)
  }

  /** Words c, c+1, ..., len-1 and then the end. */
  function ShowsFrom(c: nat, len: nat): (ss: seq<Shown>)
    requires c <= len
    ensures |ss| == len - c + 1
    decreases len - c
  {
    if c == len then [EndOfDocument] else [Word(c)] + ShowsFrom(c + 1, len)
  }

  /** A playing reader left alone shows every remaining word once, in order,
      then reports the end and stops with nothing scheduled. */
  lemma {:induction false} RunToEnd(p: Player, len: nat, pauses: map<nat, Pause>, wpm: int)
    requires PlayerInv(p, len)
    requires p.playing
    ensures Run(p, len, pauses, wpm, len - p.cursor + 1).1 == ShowsFrom(p.cursor, len)
    ensures !Run(p, len, pauses, wpm, len - p.cursor + 1).0.playing
    ensures Run(p, len, pauses, wpm, len - p.cursor + 1).0.pending.None?
    decreases len - p.cursor
  {
    var (q, s) := Tick(p, len, pauses, wpm);
    if p.cursor < len {
      RunToEnd(q, len, pauses, wpm);
    }
  }
}
