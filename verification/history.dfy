/** The rolling history kept in the session across refreshes: three
    parallel lists (fast RSI, slow RSI, average price) capped at
    `MaxHistory` entries, plus the one-shot "session cleared" flag. */
module History {
  import opened Wrappers

  const MaxHistory: nat := 100

  /** One refresh's portfolio figures, as appended to the three lists. */
  datatype Row = Row(fast: Option<real>, slow: Option<real>, price: Option<real>)

  /** The three lists, position `i` of each belonging to the same refresh. */
  datatype Lists = Lists(fast: seq<Option<real>>, slow: seq<Option<real>>, price: seq<Option<real>>)

  const Empty := Lists([], [], [])

  /** Python's `s[-n:]` for `n >= 1`: the last `n` elements, or all of `s`
      when it is shorter. */
  function KeepLast<T>(s: seq<T>, n: nat): (r: seq<T>)
    requires n >= 1
    ensures |r| == if |s| <= n then |s| else n
    ensures r == s[|s| - |r|..]
  {
    if |s| <= n then s else s[|s| - n..]
  }

  predicate Aligned(h: Lists)
  {
    |h.fast| == |h.slow| == |h.price|
  }

  /** The invariant the dashboard relies on for charting. */
  predicate Valid(h: Lists)
  {
    Aligned(h) && |h.fast| <= MaxHistory
  }

  /** Append one row to each list; if the fast-RSI list then exceeds the
      cap, keep only the last `MaxHistory` entries of all three. */
  function Append(h: Lists, row: Row): (h': Lists)
    ensures |h'.fast| > 0 && h'.fast[|h'.fast| - 1] == row.fast
    ensures |h'.slow| > 0 && h'.slow[|h'.slow| - 1] == row.slow
    ensures |h'.price| > 0 && h'.price[|h'.price| - 1] == row.price
    ensures Aligned(h) ==> Valid(h')
    ensures Aligned(h) ==>
      h'.fast == KeepLast(h.fast + [row.fast], MaxHistory) &&
      h'.slow == KeepLast(h.slow + [row.slow], MaxHistory) &&
      h'.price == KeepLast(h.price + [row.price], MaxHistory)
    ensures Aligned(h) && |h.fast| < MaxHistory ==>
      h' == Lists(h.fast + [row.fast], h.slow + [row.slow], h.price + [row.price])
  {
    var fast := h.fast + [row.fast];
    var slow := h.slow + [row.slow];
    var price := h.price + [row.price];
    if |fast| > MaxHistory then
      Lists(KeepLast(fast, MaxHistory), KeepLast(slow, MaxHistory), KeepLast(price, MaxHistory))
    else
      Lists(fast, slow, price)
  }

  /** Each append grows the lists by one until they reach the cap. */
  lemma AppendLength(h: Lists, row: Row)
    requires Aligned(h)
    ensures |Append(h, row).fast| == if |h.fast| < MaxHistory then |h.fast| + 1 else MaxHistory
  {
    assert Append(h, row).fast == KeepLast(h.fast + [row.fast], MaxHistory);
  }

  /** Appending rows one refresh after another, oldest first. */
  function AppendAll(h: Lists, rows: seq<Row>): Lists
  {
    if |rows| == 0 then h else Append(AppendAll(h, rows[..|rows| - 1]), rows[|rows| - 1])
  }

  function Fasts(rows: seq<Row>): seq<Option<real>>
  {
    seq(|rows|, i requires 0 <= i < |rows| => rows[i].fast)
  }

  function Slows(rows: seq<Row>): seq<Option<real>>
  {
    seq(|rows|, i requires 0 <= i < |rows| => rows[i].slow)
  }

  function Prices(rows: seq<Row>): seq<Option<real>>
  {
    seq(|rows|, i requires 0 <= i < |rows| => rows[i].price)
  }

  /** Trimming before or after an append keeps the same tail. */
  lemma KeepLastAppend<T>(s: seq<T>, x: T, n: nat)
    requires n >= 1
    ensures KeepLast(KeepLast(s, n) + [x], n) == KeepLast(s + [x], n)
  {
    var t := KeepLast(s, n);
    assert (s + [x])[|s + [x]| - |KeepLast(s + [x], n)|..] == KeepLast(s + [x], n);
    if |s| > n {
      assert t + [x] == (s + [x])[|s| - n..];
    }
  }

  /** One more append on one list, given the list so far is the tail of
      everything it was given. */
  lemma ColumnStep<T>(prev: seq<T>, col: seq<T>, x: T, kept: seq<T>)
    requires kept == KeepLast(prev + col, MaxHistory)
    ensures KeepLast(kept + [x], MaxHistory) == KeepLast(prev + (col + [x]), MaxHistory)
  {
    KeepLastAppend(prev + col, x, MaxHistory);
    assert prev + (col + [x]) == (prev + col) + [x];
  }

  /** The columns of rows with one more row at the end. */
  lemma ColumnsSnoc(rows: seq<Row>)
    requires |rows| > 0
    ensures Fasts(rows) == Fasts(rows[..|rows| - 1]) + [rows[|rows| - 1].fast]
    ensures Slows(rows) == Slows(rows[..|rows| - 1]) + [rows[|rows| - 1].slow]
    ensures Prices(rows) == Prices(rows[..|rows| - 1]) + [rows[|rows| - 1].price]
  {
  }

  /** After any number of appends to a valid history, each list is the last
      `MaxHistory` entries of everything it has been given, in order: the
      oldest entries are evicted first and none while under capacity. */
  lemma {:induction false} AppendAllKeepsLast(h: Lists, rows: seq<Row>)
    requires Valid(h)
    ensures Valid(AppendAll(h, rows))
    ensures AppendAll(h, rows) ==
      Lists(KeepLast(h.fast + Fasts(rows), MaxHistory),
              KeepLast(h.slow + Slows(rows), MaxHistory),
              KeepLast(h.price + Prices(rows), MaxHistory))
  {
    if |rows| == 0 {
      assert h.fast + Fasts(rows) == h.fast;
      assert h.slow + Slows(rows) == h.slow;
      assert h.price + Prices(rows) == h.price;
    } else {
      var init := rows[..|rows| - 1];
      var last := rows[|rows| - 1];
      AppendAllKeepsLast(h, init);
      var a := AppendAll(h, init);
      assert AppendAll(h, rows) == Append(a, last);
      ColumnsSnoc(rows);
      ColumnStep(h.fast, Fasts(init), last.fast, a.fast);
      ColumnStep(h.slow, Slows(init), last.slow, a.slow);
      ColumnStep(h.price, Prices(init), last.price, a.price);
    }
  }

  /** Refresh number `k` (from 1) appends the figures `k`. */
  function Numbered(count: nat): seq<Row>
  {
    seq(count, i requires 0 <= i < count => Row(Some((i + 1) as real), Some((i + 1) as real), Some((i + 1) as real)))
  }

  /** The last 100 fast figures of 105 numbered refreshes are 6 to 105. */
  lemma LastHundredOfNumbered()
    ensures KeepLast(Fasts(Numbered(105)), MaxHistory) == seq(100, j requires 0 <= j < 100 => Some((j + 6) as real))
  {
    var fs := Fasts(Numbered(105));
    assert |fs| == 105;
    var kept := KeepLast(fs, MaxHistory);
    assert kept == fs[5..];
    forall j | 0 <= j < 100 ensures kept[j] == Some((j + 6) as real) {
      assert kept[j] == fs[j + 5];
    }
  }

  /** 105 refreshes from an empty history leave refreshes 6 through 105, in
      order: the oldest five were evicted. */
  lemma HundredFiveRefreshes()
    ensures AppendAll(Empty, Numbered(105)).fast == seq(100, j requires 0 <= j < 100 => Some((j + 6) as real))
    ensures |AppendAll(Empty, Numbered(105)).slow| == 100
    ensures |AppendAll(Empty, Numbered(105)).price| == 100
  {
    var rows := Numbered(105);
    AppendAllKeepsLast(Empty, rows);
    assert Empty.fast + Fasts(rows) == Fasts(rows);
    assert Empty.slow + Slows(rows) == Slows(rows);
    assert Empty.price + Prices(rows) == Prices(rows);
    LastHundredOfNumbered();
  }

  /** The session's state: each list key may be absent (never set, or
      deleted by a clear), and the flag that a clear happened. */
  datatype Session = Session(fast: Option<seq<Option<real>>>, slow: Option<seq<Option<real>>>,
                             price: Option<seq<Option<real>>>, cleared: bool)

  /** A new session: no keys set, and a missing flag reads as false. */
  const Initial := Session(None, None, None, false)

  /** Every list key set and the lists valid, or none set. */
  predicate SessionValid(s: Session)
  {
    (s.fast.None? && s.slow.None? && s.price.None?) ||
    (s.fast.Some? && s.slow.Some? && s.price.Some? && Valid(Lists(s.fast.value, s.slow.value, s.price.value)))
  }

  /** The lists the script works with: each list that is absent starts
      empty. */
  function Restore(s: Session): (r: Lists)
    ensures s.fast.Some? ==> r.fast == s.fast.value
    ensures s.slow.Some? ==> r.slow == s.slow.value
    ensures s.price.Some? ==> r.price == s.price.value
    ensures s.fast.None? ==> r.fast == []
    ensures s.slow.None? ==> r.slow == []
    ensures s.price.None? ==> r.price == []
    ensures SessionValid(s) ==> Valid(r)
  {
    Lists(s.fast.GetOr([]), s.slow.GetOr([]), s.price.GetOr([]))
  }

  /** The "Clear Session" callback: delete whichever list keys exist and
      raise the flag. */
  function ClearSession(s: Session): (s': Session)
    ensures s'.cleared && SessionValid(s')
    ensures Restore(s') == Empty
  {
    Session(None, None, None, true)
  }

  /** The session after one script run, and whether "Session cleared." was
      shown during it. */
  datatype Refreshed = Refreshed(session: Session, notice: bool)

  /** One script run's session handling: show and lower the flag, set any
      missing list to empty, then append this refresh's row. */
  function Refresh(s: Session, row: Row): (out: Refreshed)
    ensures out.notice == s.cleared && !out.session.cleared
    ensures SessionValid(s) ==> SessionValid(out.session)
    ensures out.session.fast.Some? && out.session.slow.Some? && out.session.price.Some?
  {
    RestoreAligned(s);
    var h := Append(Restore(s), row);
    assert h == Lists(h.fast, h.slow, h.price);
    Refreshed(Session(Some(h.fast), Some(h.slow), Some(h.price), false), s.cleared)
  }

  /** A valid session restores to three lists of equal length. */
  lemma RestoreAligned(s: Session)
    ensures SessionValid(s) ==> Aligned(Restore(s))
  {
  }

  /** After a clear, the next run shows the notice and starts the lists over
      with exactly this run's row. */
  lemma ClearThenRefresh(s: Session, row: Row)
    ensures Refresh(ClearSession(s), row).notice
    ensures Refresh(ClearSession(s), row).session ==
      Session(Some([row.fast]), Some([row.slow]), Some([row.price]), false)
  {
    var c := ClearSession(s);
    assert Restore(c) == Empty;
    AppendToEmpty(row);
  }

  /** The first append to empty lists gives lists of one entry. */
  lemma AppendToEmpty(row: Row)
    ensures Append(Empty, row) == Lists([row.fast], [row.slow], [row.price])
  {
    assert Empty.fast + [row.fast] == [row.fast];
    assert Empty.slow + [row.slow] == [row.slow];
    assert Empty.price + [row.price] == [row.price];
  }

  /** The notice is shown by one run only: the run after any run shows
      nothing unless another clear comes in between. */
  lemma NoticeShownOnce(s: Session, row: Row, next: Row)
    ensures !Refresh(Refresh(s, row).session, next).notice
  {
  }
}
