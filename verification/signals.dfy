/** The four-way directional signal derived from the two portfolio means. */
module Signals {
  import opened Wrappers

  datatype Signal = Bullish | Bearish | Divergent | Neutral

  /** The fast reading is stretched one way and the slow one the other way. */
  predicate Diverges(f: real, s: real)
  {
    (f > 60.0 && s < 40.0) || (f < 40.0 && s > 60.0)
  }

  /** First match wins: both above 50, both below 50, a divergence, else
      Neutral. A missing mean fails every comparison, so it gives Neutral. */
  function SignalOf(fast: Option<real>, slow: Option<real>): (sig: Signal)
    ensures sig == Bullish <==> fast.Some? && slow.Some? && fast.value > 50.0 && slow.value > 50.0
    ensures sig == Bearish <==> fast.Some? && slow.Some? && fast.value < 50.0 && slow.value < 50.0
    ensures sig == Divergent <==> fast.Some? && slow.Some? && Diverges(fast.value, slow.value)
  {
    match (fast, slow)
    case (Some(f), Some(s)) =>
      if f > 50.0 && s > 50.0 then Bullish
      else if f < 50.0 && s < 50.0 then Bearish
      else if Diverges(f, s) then Divergent
      else Neutral
    case _ => Neutral
  }

  /** Neutral is exactly what is left: a missing mean, or two defined means
      that are neither on the same side of 50 nor divergent. In particular a
      mean of exactly 50 always gives Neutral. */
  lemma NeutralIff(fast: Option<real>, slow: Option<real>)
    ensures SignalOf(fast, slow) == Neutral <==>
      fast.None? || slow.None? ||
      (!(fast.value > 50.0 && slow.value > 50.0) && !(fast.value < 50.0 && slow.value < 50.0) &&
       !Diverges(fast.value, slow.value))
    ensures fast == Some(50.0) || slow == Some(50.0) ==> SignalOf(fast, slow) == Neutral
  {
  }

  /** Worked cases: 65/65 is Bullish, 65/35 Divergent, 50/50 Neutral. */
  lemma SignalExamples()
    ensures SignalOf(Some(65.0), Some(65.0)) == Bullish
    ensures SignalOf(Some(65.0), Some(35.0)) == Divergent
    ensures SignalOf(Some(50.0), Some(50.0)) == Neutral
    ensures SignalOf(Some(20.0), Some(45.0)) == Bearish
  {
  }
}
