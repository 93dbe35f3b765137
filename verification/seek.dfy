/**
 The seek controls: the restart, previous and next buttons
 (script.js:848-863) and a click on a word of the context view
 (script.js:622-630).

 Each control stops playback and moves the cursor; what it shows is the
 index of the word it puts on screen and highlights, or None when it shows
 nothing. The cursor convention differs between controls: after Restart,
 Prev and Jump the cursor is the index of the word shown, after Next (as
 after a playback step) it is one past it.
 */
module Seek {
  import opened Config
  import opened Playback

  /** The restart button: cursor back to 0, stop, and show the first word
      when there is one. */
  function Restart(p: Player, len: nat): (r: (Player, Option<nat>))
    ensures r.0 == Player(0, false, None)
    ensures r.1.Some? <==> len > 0
    ensures r.1.Some? ==> r.1.value == 0
  {
    (Player(0, false, None), if len > 0 then Some(0) else None)
  }

  /** The previous button: at cursor 0 or 1 it is the restart button;
      otherwise stop, move the cursor back two and show the word there when
      it exists. */
  function Prev(p: Player, len: nat): (r: (Player, Option<nat>))
    ensures p.cursor <= 1 ==> r == Restart(p, len)
    ensures p.cursor >= 2 ==> r.0 == Player(p.cursor - 2, false, None)
    ensures p.cursor >= 2 ==> (r.1.Some? <==> p.cursor - 2 < len)
    ensures r.1.Some? ==> r.1.value == r.0.cursor < len
  {
    if p.cursor <= 1 then Restart(p, len)
    else
      var c := p.cursor - 2;
      (Player(c, false, None), if c < len then Some(c) else None)
  }

  /** The next button: nothing at all happens when the cursor is at or past
      the last word; otherwise stop, show the word at the cursor and move the
      cursor one past it. */
  function Next(p: Player, len: nat): (r: (Player, Option<nat>))
    ensures p.cursor as int >= len - 1 ==> r == (p, None)
    ensures p.cursor as int < len - 1 ==>
              r == (Player(p.cursor + 1, false, None), Some(p.cursor))
  {
    if p.cursor as int >= len - 1 then (p, None)
    else (Player(p.cursor + 1, false, None), Some(p.cursor))
  }

  /** A click on word `w` of the context view: a word outside the stream is
      ignored; otherwise stop, put the cursor on it and show it. */
  function Jump(p: Player, len: nat, w: nat): (r: (Player, Option<nat>))
    ensures w >= len ==> r == (p, None)
    ensures w < len ==> r == (Player(w, false, None), Some(w))
  {
    if w < len then (Player(w, false, None), Some(w)) else (p, None)
  }

  /** Every control keeps the player invariant, leaves a stopped player (or,
      for an ineffective Next, the player as it was), and shows only words
      that exist. */
  lemma SeekKeepsInv(p: Player, len: nat, w: nat)
    requires PlayerInv(p, len)
    ensures PlayerInv(Restart(p, len).0, len) && PlayerInv(Prev(p, len).0, len)
    ensures PlayerInv(Next(p, len).0, len) && PlayerInv(Jump(p, len, w).0, len)
    ensures !Restart(p, len).0.playing && !Prev(p, len).0.playing
    ensures Next(p, len).1.Some? ==> !Next(p, len).0.playing
    ensures Jump(p, len, w).1.Some? ==> !Jump(p, len, w).0.playing
    ensures Restart(p, len).1.Some? ==> Restart(p, len).1.value < len
    ensures Prev(p, len).1.Some? ==> Prev(p, len).1.value < len
    ensures Next(p, len).1.Some? ==> Next(p, len).1.value < len
    ensures Jump(p, len, w).1.Some? ==> Jump(p, len, w).1.value < len
  {
  }

  /** The next button shows the word after the one a playback step has just
      shown. */
  lemma {:induction false} NextAfterStep(p: Player, len: nat, pauses: map<nat, Pause>, wpm: int)
    requires p.playing && p.cursor + 2 < len
    ensures Step(p, len, pauses, wpm).1 == Word(p.cursor)
    ensures Next(Step(p, len, pauses, wpm).0, len).1 == Some(p.cursor + 1)
  {
    var q := Step(p, len, pauses, wpm).0;
    assert q.cursor == p.cursor + 1;
  }

  /** Previous after Next shows the word before the one Next showed. */
  lemma {:induction false} PrevAfterNext(p: Player, len: nat)
    requires 1 <= p.cursor && p.cursor + 1 < len
    ensures Next(p, len).1 == Some(p.cursor)
    ensures Prev(Next(p, len).0, len).1 == Some(p.cursor - 1)
  {
    var q := Next(p, len).0;
    assert q.cursor == p.cursor + 1 >= 2;
  }

  /** Previous pressed twice goes back four words from the cursor, not two:
      the first press leaves the cursor on the word it shows. */
  lemma {:induction false} PrevTwice(p: Player, len: nat)
    requires 4 <= p.cursor <= len
    ensures Prev(p, len).1 == Some(p.cursor - 2)
    ensures Prev(Prev(p, len).0, len).1 == Some(p.cursor - 4)
  {
    var q := Prev(p, len).0;
    assert q.cursor == p.cursor - 2 >= 2;
  }

  /** Restarting twice is restarting once. */
  lemma RestartIdempotent(p: Player, len: nat)
    ensures Restart(Restart(p, len).0, len) == Restart(p, len)
  {
  }
}
