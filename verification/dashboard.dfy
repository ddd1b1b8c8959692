/** One refresh of the dashboard, composed from the pieces: read every
    ticker, tag it, aggregate, and record the aggregate in the session's
    history. A click on "Clear Session" runs its callback before the
    refresh's script run. */
module Dashboard {
  import Alerts
  import Signals
  import Portfolio
  import History

  /** What one refresh shows: a tag per ticker, the portfolio snapshot, and
      whether the "Session cleared." notice appeared; plus the session it
      leaves behind. */
  datatype Outcome = Outcome(tags: seq<Alerts.AlertTag>, snapshot: Portfolio.Snapshot,
                             session: History.Session, notice: bool)

  function Readings(feeds: seq<Portfolio.Feed>, period: nat): (rs: seq<Portfolio.Reading>)
    requires period >= 1
    ensures |rs| == |feeds|
    ensures forall i :: 0 <= i < |rs| ==> rs[i] == Portfolio.ReadTicker(feeds[i], period)
  {
    seq(|feeds|, i requires 0 <= i < |feeds| => Portfolio.ReadTicker(feeds[i], period))
  }

  /** The portfolio snapshot of one refresh, stated over the tickers'
      readings: each figure is NaN exactly when every ticker's reading of it
      is, and the tag and the signal come from the two means. */
  function PortfolioOf(feeds: seq<Portfolio.Feed>, period: nat): (snap: Portfolio.Snapshot)
    requires period >= 1
    ensures snap.fast.Some? ==> 0.0 <= snap.fast.value <= 100.0
    ensures snap.slow.Some? ==> 0.0 <= snap.slow.value <= 100.0
    ensures snap.fast.None? <==> forall i :: 0 <= i < |feeds| ==> Readings(feeds, period)[i].fast.None?
    ensures snap.slow.None? <==> forall i :: 0 <= i < |feeds| ==> Readings(feeds, period)[i].slow.None?
    ensures snap.price.None? <==> forall i :: 0 <= i < |feeds| ==> Readings(feeds, period)[i].price.None?
    ensures snap.tag == Alerts.Classify(snap.fast, snap.slow)
    ensures snap.signal == Signals.SignalOf(snap.fast, snap.slow)
  {
    var rs := Readings(feeds, period);
    Portfolio.AggregateInRange(rs);
    Portfolio.Aggregate(rs)
  }

  /** The session side of one refresh: the clear callback if it was
      clicked, then the script run's flag check and append. */
  function Record(s: History.Session, clearClicked: bool, row: History.Row): (out: History.Refreshed)
    ensures out.notice <==> clearClicked || s.cleared
    ensures !out.session.cleared
    ensures History.SessionValid(s) || clearClicked ==> History.SessionValid(out.session)
    ensures clearClicked ==> History.Restore(out.session) == History.Lists([row.fast], [row.slow], [row.price])
    ensures !clearClicked ==> History.Restore(out.session) == History.Append(History.Restore(s), row)
  {
    History.ClearThenRefresh(s, row);
    History.Refresh(if clearClicked then History.ClearSession(s) else s, row)
  }

  /** The tag printed next to each ticker, in list order. */
  function Tags(feeds: seq<Portfolio.Feed>, period: nat): (tags: seq<Alerts.AlertTag>)
    requires period >= 1
    ensures |tags| == |feeds|
    ensures forall i :: 0 <= i < |feeds| ==>
      tags[i] == Alerts.Classify(Portfolio.ReadTicker(feeds[i], period).fast, Portfolio.ReadTicker(feeds[i], period).slow)
  {
    seq(|feeds|, i requires 0 <= i < |feeds| => Portfolio.TickerTag(Portfolio.ReadTicker(feeds[i], period)))
  }

  /** The row one refresh records: its portfolio figures. */
  function RowOf(snap: Portfolio.Snapshot): History.Row
  {
    History.Row(snap.fast, snap.slow, snap.price)
  }

  /** One refresh cycle over the fetched feeds, one feed per listed ticker.
      Each ticker is tagged by the same rule as the portfolio means, and the
      row recorded in the history is the snapshot shown. */
  function RunCycle(s: History.Session, clearClicked: bool, feeds: seq<Portfolio.Feed>, period: nat): (out: Outcome)
    requires period >= 1
    ensures |out.tags| == |feeds|
    ensures forall i :: 0 <= i < |feeds| ==>
      out.tags[i] == Alerts.Classify(Portfolio.ReadTicker(feeds[i], period).fast, Portfolio.ReadTicker(feeds[i], period).slow)
    ensures out.snapshot.tag == Alerts.Classify(out.snapshot.fast, out.snapshot.slow)
    ensures out.snapshot.signal == Signals.SignalOf(out.snapshot.fast, out.snapshot.slow)
    ensures out.snapshot == PortfolioOf(feeds, period)
    ensures out.notice <==> clearClicked || s.cleared
    ensures !out.session.cleared
    ensures History.SessionValid(s) || clearClicked ==> History.SessionValid(out.session)
    ensures out.snapshot.fast.Some? ==> 0.0 <= out.snapshot.fast.value <= 100.0
    ensures out.snapshot.slow.Some? ==> 0.0 <= out.snapshot.slow.value <= 100.0
    ensures clearClicked ==>
      History.Restore(out.session) == History.Lists([out.snapshot.fast], [out.snapshot.slow], [out.snapshot.price])
    ensures !clearClicked ==>
      History.Restore(out.session) ==
      History.Append(History.Restore(s), History.Row(out.snapshot.fast, out.snapshot.slow, out.snapshot.price))
  {
    var snap := PortfolioOf(feeds, period);
    var refreshed := Record(s, clearClicked, RowOf(snap));
    Outcome(Tags(feeds, period), snap, refreshed.session, refreshed.notice)
  }

  /** A refresh and whether "Clear Session" was clicked just before it. */
  datatype Event = Event(clearClicked: bool, feeds: seq<Portfolio.Feed>)

  /** The clicks of a series of refreshes. */
  function Clicks(events: seq<Event>): (clicks: seq<bool>)
    ensures |clicks| == |events| && forall i :: 0 <= i < |events| ==> clicks[i] == events[i].clearClicked
  {
    seq(|events|, i requires 0 <= i < |events| => events[i].clearClicked)
  }

  /** The rows a series of refreshes records. */
  function Rows(events: seq<Event>, period: nat): (rows: seq<History.Row>)
    requires period >= 1
    ensures |rows| == |events|
    ensures forall i :: 0 <= i < |events| ==> rows[i] == RowOf(PortfolioOf(events[i].feeds, period))
  {
    seq(|events|, i requires 0 <= i < |events| => RowOf(PortfolioOf(events[i].feeds, period)))
  }

  /** The session after recording `rows` one refresh after another, oldest
      first, with a clear before each refresh whose click is set. It stays
      valid, and after at least one refresh the cleared flag is down. */
  function Replay(s: History.Session, clicks: seq<bool>, rows: seq<History.Row>): (r: History.Session)
    requires |clicks| == |rows|
    ensures History.SessionValid(s) ==> History.SessionValid(r)
    ensures |rows| > 0 ==> !r.cleared
  {
    if |rows| == 0 then s
    else Record(Replay(s, clicks[..|clicks| - 1], rows[..|rows| - 1]), clicks[|clicks| - 1], rows[|rows| - 1]).session
  }

  /** The session after a series of refreshes. */
  function RunAll(s: History.Session, events: seq<Event>, period: nat): (r: History.Session)
    requires period >= 1
    ensures History.SessionValid(s) ==> History.SessionValid(r)
    ensures |events| > 0 ==> !r.cleared
  {
    Replay(s, Clicks(events), Rows(events, period))
  }

  /** `RunAll` takes each refresh exactly as `RunCycle` does. */
  lemma RunAllStep(s: History.Session, events: seq<Event>, period: nat)
    requires period >= 1 && |events| > 0
    ensures RunAll(s, events, period) ==
      RunCycle(RunAll(s, events[..|events| - 1], period), events[|events| - 1].clearClicked,
               events[|events| - 1].feeds, period).session
  {
    var init := events[..|events| - 1];
    assert Clicks(events)[..|events| - 1] == Clicks(init);
    assert Rows(events, period)[..|events| - 1] == Rows(init, period);
  }

  /** The refreshes since the last clear, counting the one it preceded. */
  function SinceClear(clicks: seq<bool>): nat
  {
    if |clicks| == 0 then 0
    else if clicks[|clicks| - 1] then 1
    else SinceClear(clicks[..|clicks| - 1]) + 1
  }

  /** One recorded row from a valid session: a click leaves one entry in
      each list, otherwise the lists grow by one up to `MaxHistory`. */
  lemma RecordLength(s: History.Session, clearClicked: bool, row: History.Row)
    requires History.SessionValid(s)
    ensures |History.Restore(Record(s, clearClicked, row).session).fast| ==
      if clearClicked then 1
      else if |History.Restore(s).fast| < History.MaxHistory then |History.Restore(s).fast| + 1
      else History.MaxHistory
  {
    if !clearClicked {
      History.AppendLength(History.Restore(s), row);
    }
  }

  /** From a new session, whatever rows are recorded, the three lists stay
      aligned and capped, and their length is the number of refreshes since
      the last clear, up to `MaxHistory`. */
  lemma {:induction false} ReplayHistory(clicks: seq<bool>, rows: seq<History.Row>)
    requires |clicks| == |rows|
    ensures History.SessionValid(Replay(History.Initial, clicks, rows))
    ensures |History.Restore(Replay(History.Initial, clicks, rows)).fast| ==
            if SinceClear(clicks) <= History.MaxHistory then SinceClear(clicks) else History.MaxHistory
  {
    if |rows| > 0 {
      var n := |rows| - 1;
      var prev := Replay(History.Initial, clicks[..n], rows[..n]);
      ReplayHistory(clicks[..n], rows[..n]);
      assert Replay(History.Initial, clicks, rows) == Record(prev, clicks[n], rows[n]).session;
      assert SinceClear(clicks) == if clicks[n] then 1 else SinceClear(clicks[..n]) + 1;
      RecordLength(prev, clicks[n], rows[n]);
    }
  }

  /** From a new session, after any series of refreshes and clears, the
      three lists stay aligned and capped, and their length is the number of
      refreshes since the last clear, up to `MaxHistory`. */
  lemma RunAllHistory(events: seq<Event>, period: nat)
    requires period >= 1
    ensures History.SessionValid(RunAll(History.Initial, events, period))
    ensures |History.Restore(RunAll(History.Initial, events, period)).fast| ==
            if SinceClear(Clicks(events)) <= History.MaxHistory then SinceClear(Clicks(events)) else History.MaxHistory
  {
    ReplayHistory(Clicks(events), Rows(events, period));
  }
}
