/** Per-ticker readings and the portfolio aggregate computed from them once
    per refresh. */
module Portfolio {
  import opened Wrappers
  import opened Series
  import Rsi
  import Alerts
  import Signals

  /** The closes fetched for one ticker: 5-minute bars over one day and
      15-minute bars over five days. Either may be empty. */
  datatype Feed = Feed(fiveMinute: seq<Option<real>>, fifteenMinute: seq<Option<real>>)

  /** A ticker's current fast RSI, slow RSI and price, each possibly NaN. */
  datatype Reading = Reading(fast: Option<real>, slow: Option<real>, price: Option<real>)

  /** The portfolio figures of one refresh. */
  datatype Snapshot = Snapshot(fast: Option<real>, slow: Option<real>, price: Option<real>,
                               tag: Alerts.AlertTag, signal: Signals.Signal)

  /** The current RSI on each timeframe and the last 5-minute close. Missing
      data yields NaN fields, never 0. */
  function ReadTicker(feed: Feed, period: nat): (r: Reading)
    requires period >= 1
    ensures r.fast.Some? ==> 0.0 <= r.fast.value <= 100.0
    ensures r.slow.Some? ==> 0.0 <= r.slow.value <= 100.0
    ensures r.fast.None? <==> forall i :: 0 <= i < |feed.fiveMinute| ==> Rsi.RsiAt(feed.fiveMinute, period, i).None?
    ensures r.fast.Some? ==>
      exists k :: IsLastDefined(Rsi.Rsi(feed.fiveMinute, period), k) && Rsi.RsiAt(feed.fiveMinute, period, k) == r.fast
    ensures r.slow.None? <==> forall i :: 0 <= i < |feed.fifteenMinute| ==> Rsi.RsiAt(feed.fifteenMinute, period, i).None?
    ensures r.slow.Some? ==>
      exists k :: IsLastDefined(Rsi.Rsi(feed.fifteenMinute, period), k) && Rsi.RsiAt(feed.fifteenMinute, period, k) == r.slow
    ensures r.price.None? <==> forall i :: 0 <= i < |feed.fiveMinute| ==> feed.fiveMinute[i].None?
    ensures r.price.Some? ==> exists k :: IsLastDefined(feed.fiveMinute, k) && feed.fiveMinute[k] == r.price
    ensures |feed.fiveMinute| < period ==> r.fast.None?
    ensures |feed.fifteenMinute| < period ==> r.slow.None?
  {
    Reading(Rsi.CurrentRsi(feed.fiveMinute, period),
            Rsi.CurrentRsi(feed.fifteenMinute, period),
            LastDefined(feed.fiveMinute))
  }

  /** With the script's period of 14, a ticker whose 5-minute closes rose
      at every bar over at least 14 bars reads a fast RSI of exactly 100. */
  lemma RisingFeedReadsHundred(feed: Feed)
    requires Rsi.Rising(feed.fiveMinute) && |feed.fiveMinute| >= Rsi.DefaultPeriod
    ensures ReadTicker(feed, Rsi.DefaultPeriod).fast == Some(100.0)
  {
    var closes := feed.fiveMinute;
    var n := |closes| - 1;
    Rsi.RsiOfRisingSeries(closes, Rsi.DefaultPeriod, n);
    var r := Rsi.CurrentRsi(closes, Rsi.DefaultPeriod);
    var k :| IsLastDefined(Rsi.Rsi(closes, Rsi.DefaultPeriod), k) && Rsi.RsiAt(closes, Rsi.DefaultPeriod, k) == r;
    assert k == n;
  }

  /** The alert tag printed next to one ticker. */
  function TickerTag(r: Reading): Alerts.AlertTag
  {
    Alerts.Classify(r.fast, r.slow)
  }

  function FastColumn(rs: seq<Reading>): (c: seq<Option<real>>)
    ensures |c| == |rs| && forall i :: 0 <= i < |rs| ==> c[i] == rs[i].fast
  {
    seq(|rs|, i requires 0 <= i < |rs| => rs[i].fast)
  }

  function SlowColumn(rs: seq<Reading>): (c: seq<Option<real>>)
    ensures |c| == |rs| && forall i :: 0 <= i < |rs| ==> c[i] == rs[i].slow
  {
    seq(|rs|, i requires 0 <= i < |rs| => rs[i].slow)
  }

  function PriceColumn(rs: seq<Reading>): (c: seq<Option<real>>)
    ensures |c| == |rs| && forall i :: 0 <= i < |rs| ==> c[i] == rs[i].price
  {
    seq(|rs|, i requires 0 <= i < |rs| => rs[i].price)
  }

  /** Skip-missing means of the three columns; the overall tag uses the same
      rule as a ticker's tag and the signal is derived from the two means. */
  function Aggregate(rs: seq<Reading>): (s: Snapshot)
    ensures s.fast.None? <==> forall i :: 0 <= i < |rs| ==> rs[i].fast.None?
    ensures s.slow.None? <==> forall i :: 0 <= i < |rs| ==> rs[i].slow.None?
    ensures s.price.None? <==> forall i :: 0 <= i < |rs| ==> rs[i].price.None?
    ensures s.tag == Alerts.Classify(s.fast, s.slow)
    ensures s.signal == Signals.SignalOf(s.fast, s.slow)
  {
    ColumnsUndefined(rs);
    var fast := Mean(FastColumn(rs));
    var slow := Mean(SlowColumn(rs));
    Snapshot(fast, slow, Mean(PriceColumn(rs)), Alerts.Classify(fast, slow), Signals.SignalOf(fast, slow))
  }

  /** A column's mean is undefined exactly when no ticker has a value. */
  lemma ColumnsUndefined(rs: seq<Reading>)
    ensures Mean(FastColumn(rs)).None? <==> forall i :: 0 <= i < |rs| ==> rs[i].fast.None?
    ensures Mean(SlowColumn(rs)).None? <==> forall i :: 0 <= i < |rs| ==> rs[i].slow.None?
    ensures Mean(PriceColumn(rs)).None? <==> forall i :: 0 <= i < |rs| ==> rs[i].price.None?
  {
    var f := FastColumn(rs);
    var s := SlowColumn(rs);
    var p := PriceColumn(rs);
    assert (forall i :: 0 <= i < |f| ==> f[i].None?) <==> forall i :: 0 <= i < |rs| ==> rs[i].fast.None?;
    assert (forall i :: 0 <= i < |s| ==> s[i].None?) <==> forall i :: 0 <= i < |rs| ==> rs[i].slow.None?;
    assert (forall i :: 0 <= i < |p| ==> p[i].None?) <==> forall i :: 0 <= i < |rs| ==> rs[i].price.None?;
  }

  /** Portfolio RSI means stay in [0, 100] whenever the tickers' do. */
  lemma AggregateInRange(rs: seq<Reading>)
    requires forall i :: 0 <= i < |rs| && rs[i].fast.Some? ==> 0.0 <= rs[i].fast.value <= 100.0
    requires forall i :: 0 <= i < |rs| && rs[i].slow.Some? ==> 0.0 <= rs[i].slow.value <= 100.0
    ensures Aggregate(rs).fast.Some? ==> 0.0 <= Aggregate(rs).fast.value <= 100.0
    ensures Aggregate(rs).slow.Some? ==> 0.0 <= Aggregate(rs).slow.value <= 100.0
  {
    MeanWithinBounds(FastColumn(rs), 0.0, 100.0);
    MeanWithinBounds(SlowColumn(rs), 0.0, 100.0);
  }

  /** Each portfolio figure lies between the smallest and the largest defined
      per-ticker value of its column. */
  lemma AggregateBetweenTickers(rs: seq<Reading>)
    ensures Aggregate(rs).fast.Some? ==>
      exists i, j :: 0 <= i < |rs| && 0 <= j < |rs| && rs[i].fast.Some? && rs[j].fast.Some? &&
        rs[i].fast.value <= Aggregate(rs).fast.value <= rs[j].fast.value
    ensures Aggregate(rs).slow.Some? ==>
      exists i, j :: 0 <= i < |rs| && 0 <= j < |rs| && rs[i].slow.Some? && rs[j].slow.Some? &&
        rs[i].slow.value <= Aggregate(rs).slow.value <= rs[j].slow.value
    ensures Aggregate(rs).price.Some? ==>
      exists i, j :: 0 <= i < |rs| && 0 <= j < |rs| && rs[i].price.Some? && rs[j].price.Some? &&
        rs[i].price.value <= Aggregate(rs).price.value <= rs[j].price.value
  {
    MeanBetweenExtremes(FastColumn(rs));
    MeanBetweenExtremes(SlowColumn(rs));
    MeanBetweenExtremes(PriceColumn(rs));
  }

  /** A ticker with no data at all (an empty download) leaves every
      portfolio figure as it was without that ticker. */
  lemma MissingTickerIgnored(a: seq<Reading>, b: seq<Reading>)
    ensures Aggregate(a + [Reading(None, None, None)] + b) == Aggregate(a + b)
  {
    var m := Reading(None, None, None);
    assert FastColumn(a + [m] + b) == FastColumn(a) + [None] + FastColumn(b);
    assert FastColumn(a + b) == FastColumn(a) + FastColumn(b);
    assert SlowColumn(a + [m] + b) == SlowColumn(a) + [None] + SlowColumn(b);
    assert SlowColumn(a + b) == SlowColumn(a) + SlowColumn(b);
    assert PriceColumn(a + [m] + b) == PriceColumn(a) + [None] + PriceColumn(b);
    assert PriceColumn(a + b) == PriceColumn(a) + PriceColumn(b);
    MeanIgnoresMissing(FastColumn(a), FastColumn(b));
    MeanIgnoresMissing(SlowColumn(a), SlowColumn(b));
    MeanIgnoresMissing(PriceColumn(a), PriceColumn(b));
  }

  /** Two-element mean, for the worked scenarios. */
  lemma MeanOfTwo(x: real, y: real)
    ensures Mean([Some(x), Some(y)]) == Some((x + y) / 2.0)
  {
    var xs := [Some(x), Some(y)];
    var one := [Some(x)];
    assert xs[..1] == one;
    assert one[..0] == [];
    assert DropNa(xs) == [x, y];
    SumOfTwo(x, y);
    assert (|[x, y]| as real) == 2.0;
  }

  /** One strong-long and one strong-short ticker average to 50/50, which is
      Neutral on both the tag and the signal. */
  lemma OpposedTickersScenario(p1: real, p2: real)
    ensures Aggregate([Reading(Some(80.0), Some(75.0), Some(p1)), Reading(Some(20.0), Some(25.0), Some(p2))]) ==
            Snapshot(Some(50.0), Some(50.0), Some((p1 + p2) / 2.0), Alerts.Neutral, Signals.Neutral)
    ensures TickerTag(Reading(Some(80.0), Some(75.0), Some(p1))) == Alerts.StrongLong
    ensures TickerTag(Reading(Some(20.0), Some(25.0), Some(p2))) == Alerts.StrongShort
  {
    var rs := [Reading(Some(80.0), Some(75.0), Some(p1)), Reading(Some(20.0), Some(25.0), Some(p2))];
    assert FastColumn(rs) == [Some(80.0), Some(20.0)];
    assert SlowColumn(rs) == [Some(75.0), Some(25.0)];
    assert PriceColumn(rs) == [Some(p1), Some(p2)];
    MeanOfTwo(80.0, 20.0);
    MeanOfTwo(75.0, 25.0);
    MeanOfTwo(p1, p2);
  }

  /** A single ticker at 65/65 is Bullish with a Neutral tag; at 65/35 it is
      Divergent. */
  lemma SingleTickerScenarios(p: real)
    ensures Aggregate([Reading(Some(65.0), Some(65.0), Some(p))]).signal == Signals.Bullish
    ensures Aggregate([Reading(Some(65.0), Some(65.0), Some(p))]).tag == Alerts.Neutral
    ensures Aggregate([Reading(Some(65.0), Some(35.0), Some(p))]).signal == Signals.Divergent
  {
    var a := [Reading(Some(65.0), Some(65.0), Some(p))];
    var b := [Reading(Some(65.0), Some(35.0), Some(p))];
    var s65 := [Some(65.0)];
    var s35 := [Some(35.0)];
    assert FastColumn(a) == s65 && SlowColumn(a) == s65;
    assert FastColumn(b) == s65 && SlowColumn(b) == s35;
    assert s65[..0] == [] && s35[..0] == [];
    assert DropNa(s65) == [65.0] && DropNa(s35) == [35.0];
    assert [65.0][..0] == [] && [35.0][..0] == [];
    assert Mean(s65) == Some(65.0) && Mean(s35) == Some(35.0);
  }

  /** Duplicated tickers count individually: 10, 10, 40 averages to 20, not
      to the 25 a de-duplicated mean would give. */
  lemma DuplicatesCount()
    ensures Mean([Some(10.0), Some(10.0), Some(40.0)]) == Some(20.0)
  {
    var xs := [Some(10.0), Some(10.0), Some(40.0)];
    var two := [Some(10.0), Some(10.0)];
    var one := [Some(10.0)];
    assert xs[..2] == two && two[..1] == one && one[..0] == [];
    assert DropNa(two) == [10.0, 10.0];
    assert DropNa(xs) == [10.0, 10.0, 40.0];
    SumOfTwo(10.0, 10.0);
    assert [10.0, 10.0, 40.0][..2] == [10.0, 10.0];
    assert Sum([10.0, 10.0, 40.0]) == 60.0;
  }
}
