/** The three-way alert tag, applied per ticker and to the portfolio means
    with the same rule. A missing input is `None`; a comparison against it
    is false, so it falls through to `Neutral`. */
module Alerts {
  import opened Wrappers

  /** Shown as "S-L" (strong long), "S-P" (strong short) and "Neutral". */
  datatype AlertTag = StrongLong | StrongShort | Neutral

  const Overbought: real := 70.0
  const Oversold: real := 30.0

  /** First match wins: both at or above 70, else both at or below 30, else
      Neutral. */
  function Classify(fast: Option<real>, slow: Option<real>): (tag: AlertTag)
    ensures tag == StrongLong <==>
      fast.Some? && slow.Some? && fast.value >= Overbought && slow.value >= Overbought
    ensures tag == StrongShort <==>
      fast.Some? && slow.Some? && fast.value <= Oversold && slow.value <= Oversold
    ensures fast.None? || slow.None? ==> tag == Neutral
  {
    match (fast, slow)
    case (Some(f), Some(s)) =>
      if f >= Overbought && s >= Overbought then StrongLong
      else if f <= Oversold && s <= Oversold then StrongShort
      else Neutral
    case _ => Neutral
  }

  /** The overbought threshold is inclusive on both timeframes. */
  lemma ClassifyBoundary()
    ensures Classify(Some(70.0), Some(70.0)) == StrongLong
    ensures Classify(Some(69.9), Some(70.0)) == Neutral
    ensures Classify(Some(30.0), Some(30.0)) == StrongShort
    ensures Classify(Some(30.1), Some(30.0)) == Neutral
  {
  }

  /** Raising both readings never demotes a strong-long tag, and lowering
      both never demotes a strong-short tag. */
  lemma ClassifyMonotone(f: real, s: real, f': real, s': real)
    ensures Classify(Some(f), Some(s)) == StrongLong && f <= f' && s <= s' ==>
            Classify(Some(f'), Some(s')) == StrongLong
    ensures Classify(Some(f), Some(s)) == StrongShort && f' <= f && s' <= s ==>
            Classify(Some(f'), Some(s')) == StrongShort
  {
  }
}
