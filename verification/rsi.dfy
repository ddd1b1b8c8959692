/** The RSI engine: `calculate_rsi` and the "current value" the dashboard
    takes from it. A closing price is `Option<real>`, `None` being a NaN
    close. */
module Rsi {
  import opened Wrappers
  import opened Series

  /** The lookback the dashboard always uses (`period=14`). */
  const DefaultPeriod: nat := 14

  /** `Close.diff()` at index `i`: NaN at index 0 and wherever either of the
      two closes involved is NaN. */
  function Delta(closes: seq<Option<real>>, i: nat): (d: Option<real>)
    requires i < |closes|
    ensures d.Some? <==> 0 < i && closes[i - 1].Some? && closes[i].Some?
    ensures d.Some? ==> closes[i - 1].value + d.value == closes[i].value
  {
    if i == 0 then None
    else
      match (closes[i - 1], closes[i])
      case (Some(prev), Some(cur)) => Some(cur - prev)
      case _ => None
  }

  /** `delta.where(delta > 0, 0)`: the delta where it is positive, otherwise
      0. A NaN delta fails the comparison, so it becomes 0 as well. */
  function Gain(closes: seq<Option<real>>, i: nat): (g: real)
    requires i < |closes|
    ensures g >= 0.0
  {
    match Delta(closes, i)
    case Some(d) => if d > 0.0 then d else 0.0
    case None => 0.0
  }

  /** `-delta.where(delta < 0, 0)`: the size of a negative delta, otherwise 0
      (again also for a NaN delta). */
  function Loss(closes: seq<Option<real>>, i: nat): (l: real)
    requires i < |closes|
    ensures l >= 0.0
  {
    match Delta(closes, i)
    case Some(d) => if d < 0.0 then -d else 0.0
    case None => 0.0
  }

  /** Gain and loss split a defined delta into its positive and negative
      parts, and are both 0 where the delta is NaN (in particular at index 0). */
  lemma GainLossSplit(closes: seq<Option<real>>, i: nat)
    requires i < |closes|
    ensures Gain(closes, i) == 0.0 || Loss(closes, i) == 0.0
    ensures Delta(closes, i).Some? ==> Gain(closes, i) - Loss(closes, i) == Delta(closes, i).value
    ensures Delta(closes, i).None? ==> Gain(closes, i) == 0.0 && Loss(closes, i) == 0.0
  {
  }

  /** The gain column; it never holds a NaN. */
  function Gains(closes: seq<Option<real>>): (g: seq<real>)
    ensures |g| == |closes|
    ensures forall i :: 0 <= i < |closes| ==>
      g[i] == if Delta(closes, i).Some? && Delta(closes, i).value > 0.0 then Delta(closes, i).value else 0.0
  {
    seq(|closes|, i requires 0 <= i < |closes| => Gain(closes, i))
  }

  /** The loss column; it never holds a NaN. */
  function Losses(closes: seq<Option<real>>): (l: seq<real>)
    ensures |l| == |closes|
    ensures forall i :: 0 <= i < |closes| ==>
      l[i] == if Delta(closes, i).Some? && Delta(closes, i).value < 0.0 then -Delta(closes, i).value else 0.0
  {
    seq(|closes|, i requires 0 <= i < |closes| => Loss(closes, i))
  }

  /** Total gain over the `period` positions ending at `i`. */
  function WindowGain(closes: seq<Option<real>>, period: nat, i: nat): real
    requires 1 <= period <= i + 1 && i < |closes|
  {
    Sum(Gains(closes)[i + 1 - period..i + 1])
  }

  /** Total loss over the `period` positions ending at `i`. */
  function WindowLoss(closes: seq<Option<real>>, period: nat, i: nat): real
    requires 1 <= period <= i + 1 && i < |closes|
  {
    Sum(Losses(closes)[i + 1 - period..i + 1])
  }

  /** The relative strength `gain / loss` as IEEE division yields it for
      non-negative operands: a finite ratio, an infinity, or NaN. */
  datatype Strength = Ratio(value: real) | Infinite | Undefined

  predicate NonNegative(x: Option<real>)
  {
    x.Some? ==> x.value >= 0.0
  }

  /** `rs = gain / loss` on two rolling means, either of which may be NaN. */
  function Divide(num: Option<real>, den: Option<real>): (rs: Strength)
    requires NonNegative(num) && NonNegative(den)
    ensures rs.Ratio? ==> num.Some? && den.Some? && rs.value >= 0.0 &&
                          rs.value * den.value == num.value
    ensures rs.Infinite? <==> num.Some? && num.value > 0.0 && den == Some(0.0)
    ensures rs.Undefined? <==> num.None? || den.None? || (num == Some(0.0) && den == Some(0.0))
  {
    match (num, den)
    case (Some(n), Some(d)) =>
      if d == 0.0 then (if n == 0.0 then Undefined else Infinite)
      else Ratio(n / d)
    case _ => Undefined
  }

  /** `100 - 100 / (1 + rs)`, with `100 / inf == 0` and NaN propagating. */
  function FromStrength(rs: Strength): (r: Option<real>)
    requires rs.Ratio? ==> rs.value >= 0.0
    ensures r.None? <==> rs.Undefined?
    ensures r.Some? ==> 0.0 <= r.value <= 100.0
    ensures r == Some(100.0) <==> rs.Infinite?
    ensures r == Some(0.0) <==> rs == Ratio(0.0)
  {
    match rs
    case Ratio(x) =>
      Oscillator(x);
      Some(100.0 - 100.0 / (1.0 + x))
    case Infinite => Some(100.0)
    case Undefined => None
  }

  /** For a finite, non-negative strength the oscillator stays below 100 and
      reaches 0 only at strength 0. */
  lemma Oscillator(x: real)
    requires x >= 0.0
    ensures 0.0 <= 100.0 - 100.0 / (1.0 + x) < 100.0
    ensures 100.0 - 100.0 / (1.0 + x) == 0.0 <==> x == 0.0
  {
    var q := 100.0 / (1.0 + x);
    assert q * (1.0 + x) == 100.0;
    assert 0.0 < q <= 100.0;
    if x > 0.0 {
      assert q < 100.0;
    }
  }

  /** One entry of `calculate_rsi(data, period)`. */
  function RsiAt(closes: seq<Option<real>>, period: nat, i: nat): (r: Option<real>)
    requires period >= 1 && i < |closes|
    ensures r.Some? ==> 0.0 <= r.value <= 100.0
    ensures i + 1 < period ==> r.None?
  {
    var avgGain := RollingMean(Gains(closes), period, i);
    var avgLoss := RollingMean(Losses(closes), period, i);
    FromStrength(Divide(avgGain, avgLoss))
  }

  /** `calculate_rsi(data, period)`: one entry per close, aligned by index. */
  function Rsi(closes: seq<Option<real>>, period: nat): (r: seq<Option<real>>)
    requires period >= 1
    ensures |r| == |closes|
    ensures forall i :: 0 <= i < |r| ==> r[i] == RsiAt(closes, period, i)
  {
    seq(|closes|, i requires 0 <= i < |closes| => RsiAt(closes, period, i))
  }

  /** `calculate_rsi(data).dropna().iloc[-1]`, or NaN when nothing is left:
      the last defined RSI entry, wherever it sits. */
  function CurrentRsi(closes: seq<Option<real>>, period: nat): (r: Option<real>)
    requires period >= 1
    ensures r.Some? ==> 0.0 <= r.value <= 100.0
    ensures r.None? <==> forall i :: 0 <= i < |closes| ==> RsiAt(closes, period, i).None?
    ensures r.Some? ==> exists k :: IsLastDefined(Rsi(closes, period), k) && RsiAt(closes, period, k) == r
  {
    LastDefined(Rsi(closes, period))
  }

  /** The textbook closed form of RSI over window sums: `100 * G / (G + L)`,
      undefined when the window saw no movement at all. */
  function ClosedForm(g: real, l: real): Option<real>
  {
    if g + l == 0.0 then None else Some(100.0 * g / (g + l))
  }

  /** `100 - 100 / (1 + (G/p) / (L/p))` is `100 * G / (G + L)`. */
  lemma OscillatorOfAverages(g: real, l: real, p: real)
    requires g >= 0.0 && l > 0.0 && p > 0.0
    ensures 100.0 - 100.0 / (1.0 + (g / p) / (l / p)) == 100.0 * g / (g + l)
  {
    var x := (g / p) / (l / p);
    assert x * l == g by {
      assert x * (l / p) == g / p;
      assert (l / p) * p == l;
      assert (g / p) * p == g;
      assert x * l == x * ((l / p) * p) == (x * (l / p)) * p;
    }
    var q := 100.0 / (1.0 + x);
    assert q * (1.0 + x) == 100.0;
    assert q * (g + l) == 100.0 * l by {
      assert (1.0 + x) * l == l + g;
      assert q * (g + l) == q * ((1.0 + x) * l) == (q * (1.0 + x)) * l;
    }
    var r := 100.0 - q;
    assert r * (g + l) == 100.0 * g;
    var v := 100.0 * g / (g + l);
    assert v * (g + l) == 100.0 * g;
    Cancel(r, v, g + l);
  }

  lemma Cancel(a: real, b: real, c: real)
    requires c != 0.0 && a * c == b * c
    ensures a == b
  {
    assert (a - b) * c == 0.0;
  }

  /** The two rolling means of one window, pushed through `rs` and the
      oscillator, give the closed form. */
  lemma StrengthOfWindow(g: real, l: real, p: real)
    requires g >= 0.0 && l >= 0.0 && p > 0.0
    ensures FromStrength(Divide(Some(g / p), Some(l / p))) == ClosedForm(g, l)
  {
    if l == 0.0 {
      assert l / p == 0.0;
      if g == 0.0 {
        assert g / p == 0.0;
      } else {
        assert g / p > 0.0;
        assert 100.0 * g / (g + l) == 100.0;
      }
    } else {
      assert l / p > 0.0;
      assert g / p >= 0.0;
      OscillatorOfAverages(g, l, p);
    }
  }

  /** Window sums of gains and losses are never negative. */
  lemma WindowsNonNegative(closes: seq<Option<real>>, period: nat, i: nat)
    requires 1 <= period <= i + 1 && i < |closes|
    ensures WindowGain(closes, period, i) >= 0.0 && WindowLoss(closes, period, i) >= 0.0
  {
    var gs := Gains(closes)[i + 1 - period..i + 1];
    var ls := Losses(closes)[i + 1 - period..i + 1];
    assert forall j :: 0 <= j < |gs| ==> gs[j] == Gain(closes, i + 1 - period + j);
    assert forall j :: 0 <= j < |ls| ==> ls[j] == Loss(closes, i + 1 - period + j);
    SumNonNegative(gs);
    SumNonNegative(ls);
  }

  /** Every entry from index `period - 1` on is the closed form over its
      window; earlier entries are undefined. Index 0 contributes a gain and
      a loss of 0, so the first full window holds only `period - 1` deltas. */
  lemma RsiClosedForm(closes: seq<Option<real>>, period: nat, i: nat)
    requires period >= 1 && i < |closes|
    ensures i + 1 < period ==> RsiAt(closes, period, i).None?
    ensures period <= i + 1 ==>
      RsiAt(closes, period, i) == ClosedForm(WindowGain(closes, period, i), WindowLoss(closes, period, i))
  {
    if period <= i + 1 {
      var g := WindowGain(closes, period, i);
      var l := WindowLoss(closes, period, i);
      var p := period as real;
      WindowsNonNegative(closes, period, i);
      assert RollingMean(Gains(closes), period, i) == Some(g / p);
      assert RollingMean(Losses(closes), period, i) == Some(l / p);
      StrengthOfWindow(g, l, p);
    }
  }

  /** An entry is defined exactly when its window is full and the window saw
      some gain or some loss; a window with neither is 0/0, which is NaN. */
  lemma RsiDefinedIff(closes: seq<Option<real>>, period: nat, i: nat)
    requires period >= 1 && i < |closes|
    ensures RsiAt(closes, period, i).Some? <==>
      period <= i + 1 && (WindowGain(closes, period, i) > 0.0 || WindowLoss(closes, period, i) > 0.0)
  {
    RsiClosedForm(closes, period, i);
    if period <= i + 1 {
      WindowsNonNegative(closes, period, i);
    }
  }

  /** With a full window, RSI is exactly 100 when the window has gains but no
      losses (rs is infinite) and exactly 0 when it has losses but no gains. */
  lemma RsiSaturation(closes: seq<Option<real>>, period: nat, i: nat)
    requires 1 <= period <= i + 1 && i < |closes|
    ensures RsiAt(closes, period, i) == Some(100.0) <==>
      WindowLoss(closes, period, i) == 0.0 && WindowGain(closes, period, i) > 0.0
    ensures RsiAt(closes, period, i) == Some(0.0) <==>
      WindowGain(closes, period, i) == 0.0 && WindowLoss(closes, period, i) > 0.0
  {
    var g := WindowGain(closes, period, i);
    var l := WindowLoss(closes, period, i);
    RsiClosedForm(closes, period, i);
    WindowsNonNegative(closes, period, i);
    if g + l > 0.0 {
      var v := 100.0 * g / (g + l);
      assert v * (g + l) == 100.0 * g;
      if v == 100.0 {
        assert 100.0 * (g + l) == 100.0 * g;
      }
      if v == 0.0 {
        assert 100.0 * g == 0.0;
      }
    }
  }

  /** Every close present and strictly above the one before. */
  predicate Rising(closes: seq<Option<real>>)
  {
    (forall i :: 0 <= i < |closes| ==> closes[i].Some?) &&
    forall i :: 0 < i < |closes| ==> closes[i - 1].value < closes[i].value
  }

  /** Every close present and strictly below the one before. */
  predicate Falling(closes: seq<Option<real>>)
  {
    (forall i :: 0 <= i < |closes| ==> closes[i].Some?) &&
    forall i :: 0 < i < |closes| ==> closes[i - 1].value > closes[i].value
  }

  /** Every close present and equal to the one before. */
  predicate Flat(closes: seq<Option<real>>)
  {
    (forall i :: 0 <= i < |closes| ==> closes[i].Some?) &&
    forall i :: 0 < i < |closes| ==> closes[i - 1] == closes[i]
  }

  /** A window whose last term is positive and whose other terms are
      non-negative has a positive sum. */
  lemma SumPositive(xs: seq<real>)
    requires |xs| > 0 && xs[|xs| - 1] > 0.0
    requires forall j :: 0 <= j < |xs| ==> xs[j] >= 0.0
    ensures Sum(xs) > 0.0
  {
    var init := xs[..|xs| - 1];
    assert forall j :: 0 <= j < |init| ==> init[j] == xs[j];
    SumNonNegative(init);
  }

  /** A window of zeros sums to zero. */
  lemma SumZero(xs: seq<real>)
    requires forall j :: 0 <= j < |xs| ==> xs[j] == 0.0
    ensures Sum(xs) == 0.0
  {
    SumNonNegative(xs);
    SumAtMost(xs, 0.0);
  }

  /** `SumPositive` for the slice `xs[lo..hi]`. */
  lemma SlicePositive(xs: seq<real>, lo: nat, hi: nat)
    requires lo < hi <= |xs| && xs[hi - 1] > 0.0
    requires forall j :: lo <= j < hi ==> xs[j] >= 0.0
    ensures Sum(xs[lo..hi]) > 0.0
  {
    var w := xs[lo..hi];
    assert forall k :: 0 <= k < |w| ==> w[k] == xs[lo + k];
    SumPositive(w);
  }

  /** `SumZero` for the slice `xs[lo..hi]`. */
  lemma SliceZero(xs: seq<real>, lo: nat, hi: nat)
    requires lo <= hi <= |xs|
    requires forall j :: lo <= j < hi ==> xs[j] == 0.0
    ensures Sum(xs[lo..hi]) == 0.0
  {
    var w := xs[lo..hi];
    assert forall k :: 0 <= k < |w| ==> w[k] == xs[lo + k];
    SumZero(w);
  }

  /** On a rising series nothing is ever lost, and every step after the
      first gains. */
  lemma RisingColumns(closes: seq<Option<real>>)
    requires Rising(closes)
    ensures forall j :: 0 <= j < |closes| ==> Losses(closes)[j] == 0.0
    ensures forall j :: 0 < j < |closes| ==> Gains(closes)[j] > 0.0
  {
    forall j | 0 <= j < |closes| ensures Losses(closes)[j] == 0.0 {
      GainLossSplit(closes, j);
    }
    forall j | 0 < j < |closes| ensures Gains(closes)[j] > 0.0 {
      GainLossSplit(closes, j);
    }
  }

  /** On a falling series nothing is ever gained, and every step after the
      first loses. */
  lemma FallingColumns(closes: seq<Option<real>>)
    requires Falling(closes)
    ensures forall j :: 0 <= j < |closes| ==> Gains(closes)[j] == 0.0
    ensures forall j :: 0 < j < |closes| ==> Losses(closes)[j] > 0.0
  {
    forall j | 0 <= j < |closes| ensures Gains(closes)[j] == 0.0 {
      GainLossSplit(closes, j);
    }
    forall j | 0 < j < |closes| ensures Losses(closes)[j] > 0.0 {
      GainLossSplit(closes, j);
    }
  }

  /** On a flat series there is neither gain nor loss anywhere. */
  lemma FlatColumns(closes: seq<Option<real>>)
    requires Flat(closes)
    ensures forall j :: 0 <= j < |closes| ==> Gains(closes)[j] == 0.0 && Losses(closes)[j] == 0.0
  {
    forall j | 0 <= j < |closes| ensures Gains(closes)[j] == 0.0 && Losses(closes)[j] == 0.0 {
      GainLossSplit(closes, j);
    }
  }

  /** On a strictly rising series every entry with a full window past index
      0 is exactly 100. */
  lemma RsiOfRisingSeries(closes: seq<Option<real>>, period: nat, i: nat)
    requires Rising(closes)
    requires 1 <= period <= i + 1 && 1 <= i < |closes|
    ensures RsiAt(closes, period, i) == Some(100.0)
  {
    RisingColumns(closes);
    SlicePositive(Gains(closes), i + 1 - period, i + 1);
    SliceZero(Losses(closes), i + 1 - period, i + 1);
    RsiSaturation(closes, period, i);
  }

  /** On a strictly falling series every entry with a full window past index
      0 is exactly 0. */
  lemma RsiOfFallingSeries(closes: seq<Option<real>>, period: nat, i: nat)
    requires Falling(closes)
    requires 1 <= period <= i + 1 && 1 <= i < |closes|
    ensures RsiAt(closes, period, i) == Some(0.0)
  {
    FallingColumns(closes);
    SlicePositive(Losses(closes), i + 1 - period, i + 1);
    SliceZero(Gains(closes), i + 1 - period, i + 1);
    RsiSaturation(closes, period, i);
  }

  /** A flat series never moves, so every window is 0/0 and the current RSI
      is undefined rather than 50 or 100. */
  lemma RsiOfFlatSeries(closes: seq<Option<real>>, period: nat)
    requires Flat(closes) && period >= 1
    ensures CurrentRsi(closes, period).None?
  {
    FlatColumns(closes);
    forall i | 0 <= i < |closes| ensures RsiAt(closes, period, i).None? {
      FlatEntry(closes, period, i);
    }
  }

  /** An entry of a series whose gain and loss columns are all zero is
      undefined. */
  lemma FlatEntry(closes: seq<Option<real>>, period: nat, i: nat)
    requires period >= 1 && i < |closes|
    requires forall j :: 0 <= j < |closes| ==> Gains(closes)[j] == 0.0 && Losses(closes)[j] == 0.0
    ensures RsiAt(closes, period, i).None?
  {
    RsiDefinedIff(closes, period, i);
    if period <= i + 1 {
      SliceZero(Gains(closes), i + 1 - period, i + 1);
      SliceZero(Losses(closes), i + 1 - period, i + 1);
    }
  }

  /** With period 2, two closes already give a defined entry at index 1: the
      zero gain and loss at index 0 fill the window's first slot. */
  lemma FirstWindowExample()
    ensures Rsi([Some(1.0), Some(2.0)], 2) == [None, Some(100.0)]
  {
    var c := [Some(1.0), Some(2.0)];
    assert Gains(c)[0..2] == [0.0, 1.0];
    assert Losses(c)[0..2] == [0.0, 0.0];
    SumOfTwo(0.0, 1.0);
    SumOfTwo(0.0, 0.0);
    RsiClosedForm(c, 2, 1);
  }

  /** Closes 1, 2, 2, 2: a gain, then no movement. */
  lemma TrailingFlatColumns()
    ensures Gains([Some(1.0), Some(2.0), Some(2.0), Some(2.0)]) == [0.0, 1.0, 0.0, 0.0]
    ensures Losses([Some(1.0), Some(2.0), Some(2.0), Some(2.0)]) == [0.0, 0.0, 0.0, 0.0]
  {
  }

  /** The RSI entries of closes 1, 2, 2, 2 with period 2. */
  lemma TrailingFlatEntries()
    ensures Rsi([Some(1.0), Some(2.0), Some(2.0), Some(2.0)], 2) ==
            [None, Some(100.0), Some(100.0), None]
  {
    var c := [Some(1.0), Some(2.0), Some(2.0), Some(2.0)];
    TrailingFlatColumns();
    var gs := [0.0, 1.0, 0.0, 0.0];
    var zs := [0.0, 0.0, 0.0, 0.0];
    assert gs[0..2] == [0.0, 1.0] && gs[1..3] == [1.0, 0.0] && gs[2..4] == [0.0, 0.0];
    assert zs[0..2] == [0.0, 0.0] && zs[1..3] == [0.0, 0.0] && zs[2..4] == [0.0, 0.0];
    SumOfTwo(0.0, 1.0);
    SumOfTwo(1.0, 0.0);
    SumOfTwo(0.0, 0.0);
    RsiClosedForm(c, 2, 1);
    RsiClosedForm(c, 2, 2);
    RsiClosedForm(c, 2, 3);
    assert RsiAt(c, 2, 0) == None;
  }

  /** `dropna()` of the entries above. */
  lemma TrailingFlatDropNa()
    ensures DropNa([None, Some(100.0), Some(100.0), None]) == [100.0, 100.0]
  {
    var r: seq<Option<real>> := [None, Some(100.0), Some(100.0), None];
    var none: seq<Option<real>> := [None];
    assert r[..3] == [None, Some(100.0), Some(100.0)];
    assert r[..3][..2] == [None, Some(100.0)];
    assert r[..3][..2][..1] == none;
    assert none[..0] == [];
    assert DropNa(none) == [];
    assert DropNa(r[..3][..2]) == [100.0];
    assert DropNa(r[..3]) == [100.0, 100.0];
  }

  /** The current RSI is the last defined entry, not the last index: here the
      final window is flat (0/0) but the one before it holds a gain. */
  lemma CurrentSkipsTrailingUndefined()
    ensures Rsi([Some(1.0), Some(2.0), Some(2.0), Some(2.0)], 2)[3].None?
    ensures CurrentRsi([Some(1.0), Some(2.0), Some(2.0), Some(2.0)], 2) == Some(100.0)
  {
    TrailingFlatEntries();
    TrailingFlatDropNa();
  }
}
