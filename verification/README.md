# RSI + price dashboard, modelled in Dafny

The dashboard reads a list of ticker symbols from an uploaded text file and
refreshes once a minute. On each refresh it fetches 5-minute and 15-minute
closes for every ticker and computes a 14-period Relative Strength Index
(RSI) on each timeframe. It tags each ticker "strong long", "strong short"
or "neutral". It averages the tickers' readings into a portfolio snapshot
with its own tag and a four-way signal (bullish, bearish, divergent,
neutral). It appends the snapshot to a per-session history capped at 100
entries. A "Clear Session" button empties the history and raises a
one-shot "Session cleared." notice.

The project models that computation over exact reals:

- `wrappers.dfy`: `Option`, used throughout for a value that may be NaN.
- `series.dfy`: the pandas operations used. These are `dropna`,
  `dropna().iloc[-1]`, `mean(skipna=True)` and `rolling(window).mean()`.
- `rsi.dfy`: `calculate_rsi`. It covers the delta, the gain and loss
  columns, the rolling means, the relative strength as IEEE division yields
  it, and the oscillator. It also defines the "current RSI" read from the
  result.
- `alerts.dfy`: the three-way tag, used per ticker and for the portfolio.
- `signals.dfy`: the four-way signal.
- `portfolio.dfy`: the per-ticker reading and the skip-missing aggregate.
- `history.dfy`: the capped three-list history and the session keys. It also
  models the clear callback and the one-shot flag.
- `tickers.dfy`: the ticker-file parsing, with Python's `strip` and
  `splitlines` character sets.
- `dashboard.dfy`: one refresh composed from the pieces, and a series of
  refreshes.

A NaN is `None`. Every comparison against NaN is false, so a missing reading
falls through both classifiers to Neutral, as in the script.

The model follows the code of `app.py`. Two of its behaviours differ from
what a reader might expect:

- **First defined entry.** Textbook RSI leaves the first `period` entries
  undefined. Here `diff` leaves index 0 as NaN, and `.where(delta > 0, 0)`
  turns that NaN into a gain and a loss of 0. So the rolling window is full
  from index `period - 1`, and an entry can be defined there.
  `Rsi.FirstWindowExample` shows a defined entry at index `period - 1`.
- **History after a clear.** The clear callback deletes the lists, but it
  runs before the next script run, and that run appends its row straight
  away. So after a clear the lists hold one entry, not zero
  (`History.ClearThenRefresh`).

The script itself also settles the zero-loss cases:

- A window with gains but no losses gives RSI 100 (`rs` is infinite).
- A window with no movement at all gives NaN (0/0), which `dropna` then
  skips.

## Model

| member | source | states |
|---|---|---|
| Series.DropNa | app.py:69-71 | `dropna` keeps no more entries than the input has, and keeps nothing iff every entry is NaN |
| Series.DropNaMembers | app.py:69-71 | `dropna` keeps exactly the defined values: each kept value is a defined entry of the input, and each defined entry is kept |
| Series.LastDefined | app.py:69-71 | `dropna().iloc[-1]` guarded by `.empty`: NaN iff every entry is NaN, otherwise the value at an index holding the last defined entry |
| Series.LastOfDropNa | app.py:69-71 | the last element of `dropna()` is the value at the last defined index |
| Series.LastDefinedIndex | app.py:69-71 | returns the index of the last defined entry, whose value is the last element of `dropna()` |
| Series.Mean | app.py:85-87 | `mean(skipna=True)` is NaN iff every entry is NaN |
| Series.RollingMean | app.py:37-38 | `rolling(window).mean()` at index i is defined iff `window <= i + 1`, and is non-negative over a non-negative column |
| Series.DropNaLift | app.py:37-38 | `dropna` of a NaN-free column gives the column back |
| Series.RollingMeanIsMean | app.py:37-38 | a full rolling window's value is the skip-missing mean of the `window` entries ending at i, so the divisor is the window length |
| Series.DropNaConcat | app.py:85-87 | `dropna` of a concatenation is the concatenation of the two `dropna`s |
| Series.MeanIgnoresMissing | app.py:85-87 | inserting a NaN anywhere leaves the skip-missing mean unchanged |
| Series.MeanWithinBounds | app.py:85-87 | when every defined value lies in [lo, hi], so does the mean |
| Series.MeanBetweenExtremes | app.py:85-87 | a defined mean lies between two defined entries of the column |
| Rsi.Delta | app.py:36 | `diff()` is defined iff i > 0 and both closes are defined, and then previous close plus delta equals the current close |
| Rsi.Gain | app.py:37 | the gain column is never negative |
| Rsi.Loss | app.py:38 | the loss column is never negative |
| Rsi.Gains | app.py:37 | the gain column has one entry per close: the delta where it is positive, otherwise 0, including where the delta is NaN |
| Rsi.Losses | app.py:38 | the loss column has one entry per close: minus the delta where it is negative, otherwise 0, including where the delta is NaN |
| Rsi.GainLossSplit | app.py:36-38 | at most one of gain and loss is non-zero, gain minus loss is the delta, and a NaN delta gives 0 for both |
| Rsi.Divide | app.py:39 | `gain / loss` on non-negative means: a ratio that multiplies back to the numerator, infinite iff the gain is positive over a zero loss, NaN iff an operand is NaN or both are 0 |
| Rsi.FromStrength | app.py:40 | `100 - 100 / (1 + rs)` is NaN iff rs is NaN, lies in [0, 100], is 100 iff rs is infinite, and is 0 iff rs is 0 |
| Rsi.Oscillator | app.py:40 | for a finite rs ≥ 0 the oscillator lies in [0, 100) and is 0 only at rs = 0 |
| Rsi.RsiAt | app.py:35-41 | every defined RSI entry lies in [0, 100], and entries before index `period - 1` are NaN |
| Rsi.Rsi | app.py:35-41 | the RSI series has one entry per close, aligned by index |
| Rsi.CurrentRsi | app.py:69-70 | the current RSI lies in [0, 100], is NaN iff every entry of the RSI series is, and otherwise is the entry at the last defined index |
| Rsi.OscillatorOfAverages | app.py:39-40 | `100 - 100 / (1 + (G/p)/(L/p))` equals `100 G / (G + L)` for L > 0 |
| Rsi.StrengthOfWindow | app.py:37-40 | the two rolling means of a window, pushed through the division and the oscillator, give the closed form `100 G / (G + L)`, which is undefined when G + L = 0 |
| Rsi.WindowsNonNegative | app.py:37-38 | the window sums of gains and of losses are non-negative |
| Rsi.RsiClosedForm | app.py:35-41 | each entry from index `period - 1` on is the closed form over its window sums; earlier entries are NaN |
| Rsi.RsiDefinedIff | app.py:35-41 | an entry is defined iff its window is full and it saw some gain or some loss |
| Rsi.RsiSaturation | app.py:39-40 | an entry is exactly 100 iff its window lost nothing and gained something, and exactly 0 iff the reverse |
| Rsi.RisingColumns | app.py:36-38 | on a strictly rising series every loss is 0 and every gain after index 0 is positive |
| Rsi.FallingColumns | app.py:36-38 | on a strictly falling series every gain is 0 and every loss after index 0 is positive |
| Rsi.FlatColumns | app.py:36-38 | on a flat series every gain and every loss is 0 |
| Rsi.RsiOfRisingSeries | app.py:35-41 | on a strictly rising series every entry with a full window past index 0 is exactly 100 |
| Rsi.RsiOfFallingSeries | app.py:35-41 | on a strictly falling series every such entry is exactly 0 |
| Rsi.FlatEntry | app.py:35-41 | where no gain and no loss occurs, every entry is NaN |
| Rsi.RsiOfFlatSeries | app.py:69-70 | a flat series has no current RSI (NaN, not 50 or 100) |
| Rsi.FirstWindowExample | app.py:35-41 | closes 1, 2 with period 2 give NaN then 100: the first full window sits at index `period - 1` |
| Rsi.TrailingFlatColumns | app.py:36-38 | closes 1, 2, 2, 2 give gains 0, 1, 0, 0 and losses all 0 |
| Rsi.TrailingFlatEntries | app.py:35-41 | closes 1, 2, 2, 2 with period 2 give NaN, 100, 100, NaN |
| Rsi.TrailingFlatDropNa | app.py:69 | `dropna` of that RSI series is 100, 100 |
| Rsi.CurrentSkipsTrailingUndefined | app.py:69 | the current RSI of that series is 100, taken from index 2 although index 3 is NaN |
| Alerts.Classify | app.py:77-82 | strong long iff both readings are defined and at least 70; strong short iff both are defined and at most 30; a NaN reading gives Neutral |
| Alerts.ClassifyBoundary | app.py:77-82 | both thresholds are inclusive: 70/70 is strong long, 30/30 strong short, and 69.9/70 and 30.1/30 are Neutral |
| Alerts.ClassifyMonotone | app.py:77-82 | raising both readings keeps strong long; lowering both keeps strong short |
| Signals.SignalOf | app.py:105-112 | Bullish iff both means exceed 50; Bearish iff both are below 50; Divergent iff defined and one is above 60 while the other is below 40 |
| Signals.NeutralIff | app.py:105-112 | Neutral iff a mean is NaN or none of the three earlier branches applies; a mean of exactly 50 always gives Neutral |
| Signals.SignalExamples | app.py:105-112 | 65/65 is Bullish, 65/35 Divergent, 50/50 Neutral, 20/45 Bearish |
| Portfolio.ReadTicker | app.py:66-71 | the fast reading is NaN iff every entry of the 5-minute RSI series is, and otherwise is that series' last defined entry; the slow reading is the same over the 15-minute series; both lie in [0, 100]; the price is NaN iff every 5-minute close is, and otherwise is the last defined close; a feed shorter than the period has no RSI |
| Portfolio.RisingFeedReadsHundred | app.py:35-41 | with the script's period of 14, a ticker whose 5-minute closes rose at every bar over at least 14 bars reads a fast RSI of exactly 100 |
| Portfolio.FastColumn | app.py:73 | the fast-RSI column lists each ticker's fast reading in ticker order |
| Portfolio.SlowColumn | app.py:74 | the slow-RSI column lists each ticker's slow reading in ticker order |
| Portfolio.PriceColumn | app.py:75 | the price column lists each ticker's price in ticker order |
| Portfolio.Aggregate | app.py:85-94 | each portfolio figure is NaN iff no ticker has that value; the overall tag uses the per-ticker rule on the two means, and the signal is derived from them |
| Portfolio.ColumnsUndefined | app.py:85-87 | each column mean is NaN iff every ticker's value in it is NaN |
| Portfolio.AggregateInRange | app.py:85-86 | the portfolio RSI means stay in [0, 100] when the tickers' readings do |
| Portfolio.AggregateBetweenTickers | app.py:85-87 | the portfolio fast RSI, slow RSI and average price each lie between two tickers' defined values of that column |
| Portfolio.MissingTickerIgnored | app.py:69-87 | a ticker with no data leaves the whole snapshot as it would be without that ticker |
| Portfolio.MeanOfTwo | app.py:85-87 | the mean of two defined values is their midpoint |
| Portfolio.OpposedTickersScenario | app.py:77-112 | a strong-long and a strong-short ticker average to 50/50, which is Neutral for both the tag and the signal |
| Portfolio.SingleTickerScenarios | app.py:85-112 | one ticker at 65/65 gives Bullish with a Neutral tag; at 65/35 it gives Divergent |
| Portfolio.DuplicatesCount | app.py:65-87 | a ticker listed twice counts twice: 10, 10, 40 averages to 20 |
| History.KeepLast | app.py:100-103 | `s[-n:]` is the last n elements, or all of s when shorter |
| History.Append | app.py:96-103 | the new row ends each list; on aligned lists the result is aligned and capped, each list is the last 100 of the old list plus the row, and under capacity nothing is evicted |
| History.AppendLength | app.py:96-103 | each append grows aligned lists by one until they reach 100 entries, then keeps them at 100 |
| History.KeepLastAppend | app.py:96-103 | trimming before or after an append gives the same tail |
| History.AppendAllKeepsLast | app.py:96-103 | after any number of refreshes each list is the last 100 of everything appended to it, in order, and the history stays valid |
| History.LastHundredOfNumbered | app.py:100-103 | the last 100 of 105 numbered entries are entries 6 to 105 |
| History.HundredFiveRefreshes | app.py:96-103 | 105 refreshes from empty leave exactly entries 6 to 105 in the fast list, and 100 entries in each other list |
| History.ClearSession | app.py:43-47 | a clear deletes every list key and raises the flag, so the lists restore as empty |
| History.Restore | app.py:54-59 | each list key that is set is used as it is, each missing one starts as an empty list, and a valid session restores to valid lists |
| History.Refresh | app.py:50-103 | the notice is shown iff the flag was up, the flag is lowered, every list key is set, and a valid session stays valid |
| History.RestoreAligned | app.py:54-59 | a valid session restores to three lists of equal length |
| History.ClearThenRefresh | app.py:43-59 | the run after a clear shows the notice and leaves single-entry lists holding this run's row |
| History.AppendToEmpty | app.py:96-98 | the first append to empty lists gives one-entry lists |
| History.NoticeShownOnce | app.py:50-52 | the run after a run never shows the notice |
| Tickers.TrimStart | app.py:27 | `lstrip` removes exactly a whitespace prefix and leaves no leading whitespace |
| Tickers.TrimEnd | app.py:27 | `rstrip` removes exactly a whitespace suffix and leaves no trailing whitespace |
| Tickers.IsSpace | app.py:27 | the whitespace `strip` removes includes blanks, tabs and every line break, and excludes the letters, digits, dots and dashes of ticker symbols |
| Tickers.Strip | app.py:27 | `strip` returns the contiguous middle of the line, with only whitespace around it and no whitespace at its ends |
| Tickers.Lines | app.py:27 | the text cut at every line break: at least one piece, and no piece holds a line break |
| Tickers.StrippedLine | app.py:27 | a stripped line is blank or a ticker |
| Tickers.NonBlankTickers | app.py:27 | every entry the comprehension keeps is a ticker |
| Tickers.ParseTickers | app.py:26-27 | every parsed entry is non-empty, has no surrounding whitespace and holds no line break |
| Tickers.LinesAtBreak | app.py:27 | cutting at a line break splits the pieces in two, in order |
| Tickers.NonBlankConcat | app.py:27 | dropping blank lines distributes over concatenation |
| Tickers.ParseConcat | app.py:27 | lines are parsed independently and their tickers kept in file order |
| Tickers.LinesOfOneLine | app.py:27 | text without a line break is one piece |
| Tickers.LinesEdgeCases | app.py:27 | empty text is one empty piece and parses to no tickers; a trailing break leaves an empty last piece and `A` followed by a break parses to `A` alone |
| Tickers.StripTicker | app.py:27 | stripping leaves a ticker unchanged |
| Tickers.ParseJoinLines | app.py:27 | writing tickers one per line and parsing the text gives back the same list, in order, duplicates included |
| Dashboard.Readings | app.py:65-75 | one reading per fetched ticker, in list order |
| Dashboard.PortfolioOf | app.py:64-112 | each figure of a refresh's snapshot is NaN iff every ticker's reading of it is NaN; the tag is the three-way rule and the signal the four-way rule applied to the two means; both means lie in [0, 100] |
| Dashboard.Tags | app.py:77-83 | one tag per ticker, in list order, each the three-way rule applied to that ticker's fast and slow RSI |
| Dashboard.Record | app.py:43-103 | the notice is shown iff clear was clicked or the flag was up; after a click the lists hold just this refresh's row, otherwise the row is appended to the restored lists |
| Dashboard.RunCycle | app.py:64-112 | one refresh shows the snapshot `PortfolioOf` computes from its own feeds, with the signal of its two means; it tags each ticker by the same rule the portfolio means get; it shows the notice iff clear was clicked or the flag was up; the row it records is the snapshot it shows, appended to the restored lists or, after a click, alone in them; it keeps the session valid and both means in [0, 100] |
| Dashboard.RunAllHistory | app.py:43-103 | from a new session, after any series of refreshes and clears, the lists are aligned and capped, and their length is the number of refreshes since the last clear, up to 100 |
| Dashboard.Clicks | app.py:49 | the clicks of a series of refreshes, in order |
| Dashboard.Rows | app.py:96-98 | the row each refresh records is its portfolio snapshot's figures, in order |
| Dashboard.Replay | app.py:43-103 | recording rows one refresh after another keeps a valid session valid and leaves the cleared flag down |
| Dashboard.RunAll | app.py:43-103 | successive refreshes keep a valid session valid and leave the cleared flag down |
| Dashboard.RunAllStep | app.py:43-103 | each refresh in a series changes the session exactly as one `RunCycle` does |
| Dashboard.RecordLength | app.py:43-103 | after a click the lists hold one entry; otherwise they grow by one up to 100 |
| Dashboard.ReplayHistory | app.py:43-103 | from a new session, whatever rows are recorded, the lists stay aligned and capped with length min(refreshes since the last clear, 100) |

## Left out

- Page layout, styling, the alert text and number formatting (`:.1f`) are not modelled.
- The charts and the success/error banners are not modelled; only whether the "Session cleared." notice appears is.
- The file uploader, the UTF-8 decoding and `st.stop()` on a missing file are left out. Parsing starts from the decoded text.
- `yf.download` is a parameter: each ticker's two close series are given as inputs (`Portfolio.Feed`). Failed or empty downloads appear as empty or all-NaN series.
- The yfinance frame layout (single- versus multi-level columns) and the `float()` conversion of a one-element result are left out.
- `st_autorefresh` and the 60-second interval are left out. A series of refreshes is a sequence of events (`Dashboard.RunAll`).
- IEEE floating point is modelled as exact real arithmetic. Rounding and overflow are left out; only NaN and an infinite quotient are kept, as `None` and `Rsi.Infinite`.
- The RSI period must be at least 1 (`requires period >= 1`). The script always uses 14 (`Rsi.DefaultPeriod`), and pandas' behaviour for a window of 0 is left out.
- The pandas `rolling` minimum-period machinery is left out. The gain and loss columns never hold NaN, so only the full-window rule matters.
- Tickers.IsLineBreak: a `\r\n` pair is two boundaries here and one in `splitlines`. The empty piece between them is blank and dropped, so the parsed ticker list is the same.
- Tickers.Lines: unlike `splitlines`, empty text gives one empty piece and a trailing line break adds an empty last piece (`Tickers.LinesEdgeCases`). Both pieces are blank and dropped by the strip filter, so the parsed ticker list is the same.
- Tickers.NonBlank: its own contract only bounds the length. What it keeps is stated by `Tickers.NonBlankTickers`, `Tickers.NonBlankConcat` and `Tickers.ParseJoinLines`.
- Portfolio.TickerTag has no contract of its own. It is `Alerts.Classify` applied to a reading, whose contract covers it.
