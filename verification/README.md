# Index dashboard: intraday metrics and breakout model

A Dafny model of the one piece of logic in a small stock-index dashboard (`app.py`).
On every refresh the dashboard:

- takes the intraday 5-minute candles of each configured index (Nifty 50, BankNifty, Sensex), in configuration order;
- keeps the candles of today's session;
- skips an index that has none left;
- otherwise emits one table row holding:
  - the open (first candle's open);
  - the high (largest high) and the low (smallest low);
  - the current price (last candle's close);
  - the gain (high − open) and the loss (low − open), each with a percentage of the open;
  - a breakout signal;
- stores the trailing `blocks` candles as the chart window for that index.

The breakout signal is bullish when the last close is above every earlier high. It is bearish when the last close is not above every earlier high and is below every earlier low. The chart puts a breakout or breakdown marker on the window by the same rule.

A window of exactly one candle shows no marker, even when its row shows a breakout. The code behaves this way, and `WindowMarkerAgreesWithRow` states agreement only for windows with history.

The refresh time also gives:

- the number of session minutes elapsed, clamped to the 09:15–15:30 session;
- the number of blocks the window selector offers: the whole 5-minute blocks elapsed, but at least 1;
- the selector's default: the smaller of 12 and that block count.

Files:

- `options.dfy`: `Options.Option`, used for a percentage that is absent.
- `metrics.dfy`: module `Metrics`. The pure per-series computation:
  - `MaxHigh`, `MinLow`, `Percent`, `Breakout`, `Summarize` and `Tail`;
  - the lemmas that characterise them.
- `dashboard.dfy`: module `Dashboard`. The `get_data` pass:
  - `GetData` is the imperative loop that appends rows and stores windows;
  - it is proved equal to the specification function `Collect`;
  - the lemmas characterise `Collect`: which indices get rows and windows, in what order, and with what content.
- `session.dfy`: module `Session`. The clock clamp, the block count and the selector default.
- `styling.dfy`: module `Styling`. The green/red cell rule, and how it lines up with the summary.

Prices are exact reals, and percentages are `Option<real>`. A candle is `Sample(day, open, high, low, close)`. `day` stands for the date part of the candle's timestamp, which is what the today-filter compares. The quote source becomes an input `feed: map<Symbol, seq<Sample>>`, and a symbol with no entry reads as an empty history. The configured index dictionary becomes a `seq<(Symbol, Name)>`, which keeps the dictionary's iteration order. The clock becomes an input: whole seconds since local midnight in the exchange's time zone.

Three facts about `app.py` shape the model:

- `get_data` has no per-symbol `try`/`except`, so a failing fetch raises out of `get_data`; it does not skip the index. The model has no failing fetch, only an empty history.
- `get_data` returns a table built from the list of rows, each row carrying the display name, and a dictionary of windows keyed by symbol. The model keeps the list of rows.
- "High ≥ open and current" and "low ≤ open and current" hold only when every candle's low and high bracket its open and close. The model proves these bounds under that condition (`AllWellFormed`).

## Model

| member | source | states |
|---|---|---|
| Metrics.MaxHigh | app.py:80 | the day high is at least every candle's high |
| Metrics.MaxHighAttained | app.py:80 | the day high equals the high of some candle |
| Metrics.MinLow | app.py:81 | the day low is at most every candle's low |
| Metrics.MinLowAttained | app.py:81 | the day low equals the low of some candle |
| Metrics.Summarize | app.py:79-97 | a summary has both percentages or neither, and carries a signal only for a series of more than one candle |
| Metrics.Breakout | app.py:89-97 | the breakout rule gives a signal only when there is at least one earlier candle |
| Metrics.Percent | app.py:85-87 | a percentage is absent exactly when the open is zero; otherwise it times the open equals the change times 100 |
| Metrics.Tail | app.py:77 | the window is a suffix of the series, of length min(n, len) for n ≥ 0, or the series minus its first −n candles for negative n |
| Metrics.TailWhole | app.py:77 | a block count at least the series length gives back the whole series unchanged |
| Metrics.SummaryExtremes | app.py:79-86 | open is the first candle's open and current the last candle's close, for any length; high and low are attained bounds; gain and loss are high − open and low − open |
| Metrics.SummaryBounds | app.py:79-87 | on well-formed candles gain ≥ 0, loss ≤ 0, and open and current lie within [low, high] |
| Metrics.SummaryPercentages | app.py:84-87 | both percentages are absent exactly when the open is zero, and otherwise are gain/open·100 and loss/open·100 |
| Metrics.BreakoutCharacterised | app.py:89-97 | no signal for at most one candle; bullish iff the last close exceeds every earlier high; bearish iff some earlier high is not exceeded and every earlier low is above the last close |
| Metrics.SummarySignal | app.py:82-97 | the row's signal is bullish iff there is history and the current price tops every earlier high, and bearish iff it is not bullish and the current price is below every earlier low |
| Metrics.BreakoutMovesExtremes | app.py:80-97 | on well-formed candles a breakout implies a strictly positive gain and a breakdown a strictly negative loss |
| Metrics.TailEndsAtCurrent | app.py:77-82 | with at least one block the window is non-empty and ends at the last candle, whose close is the row's current price |
| Metrics.WindowMarkerAgreesWithRow | app.py:213-235 | the chart marker (the breakout rule on the window) keeps a session breakout, and on well-formed candles a session breakdown, whenever the window has history; a window holding the whole session shows exactly the row's signal |
| Metrics.ExampleBreakout | app.py:79-97 | the two-candle series 100/105/99/102, 102/108/101/107 summarises to open 100, high 108, low 99, current 107, gain 8 (8%), loss −1 (−1%), bullish |
| Metrics.ExampleBreakdown | app.py:89-97 | a second candle closing at 91, below the first candle's low of 99, gives a breakdown |
| Metrics.ExampleSingleCandle | app.py:89-90 | a single candle gives no signal |
| Dashboard.Fetched | app.py:67-71 | a symbol the quote source has an entry for gets exactly that entry, and a non-empty history always comes from such an entry |
| Dashboard.SameDay | app.py:73 | the today-filter never lengthens the history |
| Dashboard.SameDayAppend | app.py:73 | the today-filter of a concatenation is the concatenation of the filters, so it keeps today's candles in order and with repeats |
| Dashboard.SameDaySingle | app.py:73 | on one candle the filter keeps it exactly when it is dated today; with SameDayAppend this determines the filter |
| Dashboard.SameDayFirst | app.py:73 | the first candle kept is the earliest candle of the history dated today |
| Dashboard.SameDayLast | app.py:73 | the last candle kept is the latest candle of the history dated today |
| Dashboard.RowEndpoints | app.py:73-82 | a row's open is the open of the earliest candle dated today, and its current price the close of the latest one |
| Dashboard.SessionSeries | app.py:67-75 | the session series is no longer than the fetched history, and is empty when the history is, so the first skip is subsumed by the second |
| Dashboard.Collect | app.py:62-114 | a pass yields no more rows than there are configured entries |
| Dashboard.SameDayExact | app.py:73 | the today-filter returns only candles of the history dated today, keeps every such candle, and gives nothing exactly when there is none |
| Dashboard.GetData | app.py:62-114 | the loop with its two skips produces exactly the rows and windows of the specification `Collect` |
| Dashboard.Kept | app.py:66-77 | the kept entry positions are in range, strictly increasing and have a non-empty session series |
| Dashboard.KeptComplete | app.py:66-77 | every entry with a non-empty session series is kept |
| Dashboard.CollectRows | app.py:66-112 | the rows are one per kept entry, in configuration order, each the entry's name with the summary of its full session series |
| Dashboard.CollectWindows | app.py:66-77 | a symbol has a window iff it is configured and its session series is non-empty, and the window is the trailing `blocks` candles of that series |
| Dashboard.RowsIgnoreBlocks | app.py:77-82 | the rows do not depend on the block count |
| Dashboard.OneRowPerSymbol | app.py:66-99 | with distinct configured symbols, no two rows come from the same symbol |
| Dashboard.WindowsEndAtCurrent | app.py:171-213 | with a selector block count every stored window is non-empty and its last close is the current price of that index's summary |
| Dashboard.StaleIndexSkipped | app.py:70-75 | an index whose history has no candle of today gets no window and no row |
| Session.MinutesPassed | app.py:39-47 | minutes elapsed lie in [0, 375]: 0 before 09:15, 375 after 15:30, otherwise the whole minutes since the open |
| Session.MaxBlocks | app.py:49 | the block count is at least 1, and from 10 minutes on it is the whole number of 5-minute blocks elapsed |
| Session.SliderDefault | app.py:55 | the default is at most 12 and at most the block count, and is one of the two |
| Session.SliderBounds | app.py:42-55 | for any clock the block count lies in [1, 75] and the default in [1, block count] |
| Session.MinutesMonotone | app.py:42-47 | elapsed minutes never decrease as the clock advances |
| Session.BlocksMonotone | app.py:49 | the block count never decreases as the minutes grow |
| Styling.ValueTint | app.py:136-143 | an absent value is plain; a value is green exactly when it is strictly positive, so zero is red |
| Styling.SignalTint | app.py:145-150 | a signal cell is green exactly for a breakout and red exactly for a breakdown |
| Styling.LossNeverGreen | app.py:136-155 | on well-formed candles the loss cell is always red, and so is its percentage for a positive open; the gain cell is red exactly when the gain is zero |
| Styling.SignalTintAgreesWithGain | app.py:136-156 | a green signal cell comes with a green gain cell; a red signal cell with a strictly negative, red loss |

## Left out

- Fetching from the quote service (`yf.Ticker(...).history`): this is network I/O. The model takes each symbol's history as an input map.
- The wall clock and time zone (`datetime.now`, `pytz`): the model takes the time as whole seconds since local midnight. Sub-second parts cannot change the truncated minute count, so they are dropped.
- The result cache with a 10-second lifetime: the cache holds no logic of its own.
- The page auto-reload script: this is presentation.
- The slider widget: the selected block count is an input to `GetData`.
- `selected_minutes = selected_blocks * 5`: used only in a heading.
- Table formatting to two decimals, Plotly figure construction, the three reference lines and layout, and the Streamlit calls: presentation only.
- Timestamps other than their date, and the chart's x axis: no computation uses them.
- Floating point: prices are exact reals. IEEE rounding of the percentages is not modelled. Neither is the NaN that `pd.to_numeric(errors="coerce")` turns an absent percentage into; an absent value is `None`, shown plain.
- Missing values inside a candle: pandas `max`/`min` skip NaN, and the model's candles have no NaN.
- Reading a chart's day high, day low and current price back from the table by display name: the model relates windows to summaries by symbol (`WindowsEndAtCurrent`).
