/**
 Configuration constants of the reader and the small shared vocabulary every
 other module uses: the pause kinds of the pause map and an Option type.
 */
module Config {

  datatype Option<+T> = None | Some(value: T)

  /** The three pause kinds a word can carry in the pause map. */
  datatype Pause = Comma | Period | Paragraph

  /** Default reading rate, in words per minute. */
  const DEFAULT_WPM: int := 300

  /** Delay used when the rate is not positive, in milliseconds. */
  const FALLBACK_DELAY_MS: real := 200.0

  /** Number of words per display block when the document has no chapters. */
  const VIRTUAL_BLOCK_WORDS: nat := 1500

  /** Delay multiplier of a pause kind, as an exact rational (1.3, 2.2, 3.5). */
  function PauseMultiplier(p: Pause): (m: real)
    ensures m > 1.0
  {
    match p
    case Comma => 13.0 / 10.0
    case Period => 22.0 / 10.0
    case Paragraph => 35.0 / 10.0
  }

  /** The pause recorded for index `k`, if any. */
  function Lookup(pauses: map<nat, Pause>, k: nat): Option<Pause>
  {
    if k in pauses then Some(pauses[k]) else None
  }

  /** Multiplier applied to the base delay for a lookup result; no entry means 1. */
  function MultiplierOf(p: Option<Pause>): (m: real)
    ensures m >= 1.0
    ensures p.None? <==> m == 1.0
  {
    match p
    case None => 1.0
    case Some(q) => PauseMultiplier(q)
  }
}
