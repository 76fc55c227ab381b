/** The data-gathering pass of the dashboard: for each configured index, in
    configuration order, take the quote source's intraday history, keep the
    samples of today's session, skip the index when none remain, and otherwise
    emit a summary row and store the trailing window for its chart. */
module Dashboard {
  import opened Metrics

  type Symbol = string
  type Name = string

  /** One table row: the index's display name and its summary. */
  datatype Row = Row(name: Name, summary: Summary)

  /** What one pass produces: the table rows in order, and the display window
      of every index that has data, keyed by symbol. */
  datatype Report = Report(rows: seq<Row>, windows: map<Symbol, seq<Sample>>)

  /** The quote source's history for a symbol; a symbol it has nothing for
      yields an empty history. */
  function Fetched(feed: map<Symbol, seq<Sample>>, sym: Symbol): (h: seq<Sample>)
    ensures h != [] ==> sym in feed && h == feed[sym]
    ensures sym in feed ==> h == feed[sym]
  {
    if sym in feed then feed[sym] else []
  }

  /** The samples of `h` dated `today`, in their original order. */
  function SameDay(h: seq<Sample>, today: int): (r: seq<Sample>)
    ensures |r| <= |h|
  {
    if h == [] then []
    else if h[0].day == today then [h[0]] + SameDay(h[1..], today)
    else SameDay(h[1..], today)
  }

  /** The today-filter keeps exactly the samples dated today: everything it
      returns is such a sample of `h`, every such sample of `h` is returned,
      and nothing is returned when `h` holds none. */
  lemma {:induction false} SameDayExact(h: seq<Sample>, today: int)
    ensures forall i :: 0 <= i < |SameDay(h, today)| ==>
              SameDay(h, today)[i].day == today && SameDay(h, today)[i] in h
    ensures forall i :: 0 <= i < |h| && h[i].day == today ==> h[i] in SameDay(h, today)
    ensures (forall i :: 0 <= i < |h| ==> h[i].day != today) <==> SameDay(h, today) == []
  {
    if h != [] {
      SameDayExact(h[1..], today);
      assert forall i :: 1 <= i < |h| ==> h[i] == h[1..][i - 1];
    }
  }

  /** The filter respects concatenation, so it keeps today's samples in their
      original order and with their repeats. */
  lemma {:induction false} SameDayAppend(a: seq<Sample>, b: seq<Sample>, today: int)
    ensures SameDay(a + b, today) == SameDay(a, today) + SameDay(b, today)
  {
    if a == [] {
      assert a + b == b;
    } else {
      assert (a + b)[1..] == a[1..] + b;
      assert (a + b)[0] == a[0];
      SameDayAppend(a[1..], b, today);
    }
  }

  /** On one sample the filter keeps it exactly when it is dated today.
      With SameDayAppend this determines the filter on every history. */
  lemma SameDaySingle(x: Sample, today: int)
    ensures SameDay([x], today) == if x.day == today then [x] else []
  {
    assert [x][1..] == [];
  }

  /** The first sample the filter keeps is the earliest sample of `h` dated
      today. */
  lemma {:induction false} SameDayFirst(h: seq<Sample>, today: int)
    requires SameDay(h, today) != []
    ensures exists j :: 0 <= j < |h| && h[j].day == today && SameDay(h, today)[0] == h[j] &&
              forall i :: 0 <= i < j ==> h[i].day != today
  {
    if h[0].day == today {
      assert SameDay(h, today)[0] == h[0];
    } else {
      SameDayFirst(h[1..], today);
      var j :| 0 <= j < |h[1..]| && h[1..][j].day == today && SameDay(h[1..], today)[0] == h[1..][j] &&
                forall i :: 0 <= i < j ==> h[1..][i].day != today;
      assert h[j + 1] == h[1..][j];
      assert forall i :: 1 <= i < j + 1 ==> h[i] == h[1..][i - 1];
    }
  }

  /** The last sample the filter keeps is the latest sample of `h` dated
      today. */
  lemma {:induction false} SameDayLast(h: seq<Sample>, today: int)
    requires SameDay(h, today) != []
    ensures exists j :: 0 <= j < |h| && h[j].day == today &&
              SameDay(h, today)[|SameDay(h, today)| - 1] == h[j] &&
              forall i :: j < i < |h| ==> h[i].day != today
  {
    assert h != [];
    var n := |h| - 1;
    var front := h[..n];
    assert front + [h[n]] == h;
    SameDayAppend(front, [h[n]], today);
    SameDaySingle(h[n], today);
    if h[n].day != today {
      SameDayLast(front, today);
      var j :| 0 <= j < |front| && front[j].day == today &&
                SameDay(front, today)[|SameDay(front, today)| - 1] == front[j] &&
                forall i :: j < i < |front| ==> front[i].day != today;
      assert h[j] == front[j];
      assert forall i :: j < i < n ==> h[i] == front[i];
    }
  }

  /** A row's open is the open of the earliest candle of the history dated
      today, and its current price the close of the latest one. */
  lemma RowEndpoints(h: seq<Sample>, today: int)
    requires SameDay(h, today) != []
    ensures exists j :: 0 <= j < |h| && h[j].day == today &&
              Summarize(SameDay(h, today)).open == h[j].open &&
              forall i :: 0 <= i < j ==> h[i].day != today
    ensures exists j :: 0 <= j < |h| && h[j].day == today &&
              Summarize(SameDay(h, today)).current == h[j].close &&
              forall i :: j < i < |h| ==> h[i].day != today
  {
    SameDayFirst(h, today);
    SameDayLast(h, today);
  }

  /** Today's session series for a symbol. An empty history filters to an
      empty series, so the first of the two skips is subsumed by the second. */
  function SessionSeries(feed: map<Symbol, seq<Sample>>, sym: Symbol, today: int): (r: seq<Sample>)
    ensures |r| <= |Fetched(feed, sym)|
    ensures Fetched(feed, sym) == [] ==> r == []
  {
    SameDay(Fetched(feed, sym), today)
  }

  /** The report of a pass over `entries`, built one entry at a time. */
  function Collect(entries: seq<(Symbol, Name)>, feed: map<Symbol, seq<Sample>>,
                   blocks: int, today: int): (r: Report)
    ensures |r.rows| <= |entries|
  {
    if entries == [] then Report([], map[])
    else
      var before := Collect(entries[..|entries| - 1], feed, blocks, today);
      var (sym, name) := entries[|entries| - 1];
      var series := SessionSeries(feed, sym, today);
      if series == [] then before
      else Report(before.rows + [Row(name, Summarize(series))],
                  before.windows[sym := Tail(series, blocks)])
  }

  /** The pass itself, as the dashboard runs it: a loop that appends rows and
      stores windows, skipping an index whose history is empty before or
      after the today-filter. */
  method GetData(entries: seq<(Symbol, Name)>, feed: map<Symbol, seq<Sample>>,
                 blocks: int, today: int)
    returns (rows: seq<Row>, windows: map<Symbol, seq<Sample>>)
    ensures Report(rows, windows) == Collect(entries, feed, blocks, today)
  {
    rows := [];
    windows := map[];
    for i := 0 to |entries|
      invariant Report(rows, windows) == Collect(entries[..i], feed, blocks, today)
    {
      assert entries[..i + 1][..i] == entries[..i];
      var (sym, name) := entries[i];
      var history := Fetched(feed, sym);
      if history == [] {
        continue;
      }
      history := SameDay(history, today);
      if history == [] {
        continue;
      }
      windows := windows[sym := Tail(history, blocks)];
      var summary := Summarize(history);
      rows := rows + [Row(name, summary)];
    }
    assert entries[..|entries|] == entries;
  }

  /** The positions in `entries` whose session series is not empty, in
      increasing order. */
  ghost function Kept(entries: seq<(Symbol, Name)>, feed: map<Symbol, seq<Sample>>,
                      today: int): (r: seq<int>)
    ensures |r| <= |entries|
    ensures forall k :: 0 <= k < |r| ==> 0 <= r[k] < |entries|
    ensures forall k, l :: 0 <= k < l < |r| ==> r[k] < r[l]
    ensures forall k :: 0 <= k < |r| ==> SessionSeries(feed, entries[r[k]].0, today) != []
  {
    if entries == [] then []
    else
      var last := |entries| - 1;
      var prefix := entries[..last];
      var before := Kept(prefix, feed, today);
      assert forall k :: 0 <= k < |before| ==> prefix[before[k]] == entries[before[k]];
      if SessionSeries(feed, entries[last].0, today) == [] then before
      else
        var r := before + [last];
        assert forall k :: 0 <= k < |before| ==> r[k] == before[k];
        r
  }

  // ---------------------------------------------------------------------
  // Properties of a pass

  /** Every position whose session series is not empty is kept. */
  lemma {:induction false} KeptComplete(entries: seq<(Symbol, Name)>,
                                        feed: map<Symbol, seq<Sample>>, today: int)
    ensures forall i :: 0 <= i < |entries| && SessionSeries(feed, entries[i].0, today) != [] ==>
              i in Kept(entries, feed, today)
  {
    if entries != [] {
      var prefix := entries[..|entries| - 1];
      KeptComplete(prefix, feed, today);
      assert forall i :: 0 <= i < |prefix| ==> prefix[i] == entries[i];
    }
  }

  /** `rows` holds, position by position, the row of the entry at the
      matching kept index: its name and the summary of its session series. */
  ghost predicate RowsMatch(rows: seq<Row>, kept: seq<int>, entries: seq<(Symbol, Name)>,
                            feed: map<Symbol, seq<Sample>>, today: int)
  {
    |rows| == |kept| &&
    forall k :: 0 <= k < |kept| ==>
      0 <= kept[k] < |entries| &&
      SessionSeries(feed, entries[kept[k]].0, today) != [] &&
      rows[k] == Row(entries[kept[k]].1, Summarize(SessionSeries(feed, entries[kept[k]].0, today)))
  }

  /** Row correspondence with a prefix of the entries carries over to the
      entries themselves. */
  lemma RowsMatchWiden(rows: seq<Row>, kept: seq<int>, entries: seq<(Symbol, Name)>,
                       n: nat, feed: map<Symbol, seq<Sample>>, today: int)
    requires n <= |entries|
    requires RowsMatch(rows, kept, entries[..n], feed, today)
    ensures RowsMatch(rows, kept, entries, feed, today)
  {
    assert forall k :: 0 <= k < |kept| ==> entries[..n][kept[k]] == entries[kept[k]];
  }

  /** Row correspondence grows by one row for one more kept index. */
  lemma RowsMatchAppend(rows: seq<Row>, kept: seq<int>, entries: seq<(Symbol, Name)>,
                        i: int, feed: map<Symbol, seq<Sample>>, today: int)
    requires RowsMatch(rows, kept, entries, feed, today)
    requires 0 <= i < |entries| && SessionSeries(feed, entries[i].0, today) != []
    ensures RowsMatch(rows + [Row(entries[i].1, Summarize(SessionSeries(feed, entries[i].0, today)))],
                      kept + [i], entries, feed, today)
  {
  }

  /** The rows are, in configuration order, exactly one per kept position:
      its display name with the summary of its full session series. */
  lemma {:induction false} CollectRows(entries: seq<(Symbol, Name)>,
                                       feed: map<Symbol, seq<Sample>>, blocks: int, today: int)
    ensures RowsMatch(Collect(entries, feed, blocks, today).rows, Kept(entries, feed, today),
                      entries, feed, today)
  {
    if entries != [] {
      var last := |entries| - 1;
      CollectRows(entries[..last], feed, blocks, today);
      var rows, before := Collect(entries[..last], feed, blocks, today).rows,
                          Kept(entries[..last], feed, today);
      RowsMatchWiden(rows, before, entries, last, feed, today);
      if SessionSeries(feed, entries[last].0, today) != [] {
        RowsMatchAppend(rows, before, entries, last, feed, today);
      }
    }
  }

  /** `sym` is the symbol of some entry. */
  ghost predicate Configured(entries: seq<(Symbol, Name)>, sym: Symbol) {
    exists i :: 0 <= i < |entries| && entries[i].0 == sym
  }

  /** The symbols of the entries are those of all but the last, plus the last. */
  lemma ConfiguredSplit(entries: seq<(Symbol, Name)>, sym: Symbol)
    requires entries != []
    ensures Configured(entries, sym) <==>
              Configured(entries[..|entries| - 1], sym) || entries[|entries| - 1].0 == sym
  {
    var prefix := entries[..|entries| - 1];
    if Configured(entries, sym) && entries[|entries| - 1].0 != sym {
      var i :| 0 <= i < |entries| && entries[i].0 == sym;
      assert prefix[i].0 == sym;
    }
    if Configured(prefix, sym) {
      var i :| 0 <= i < |prefix| && prefix[i].0 == sym;
      assert entries[i].0 == sym;
    }
  }

  /** `windows` holds a window for exactly the configured symbols with a
      non-empty session series, each the trailing `blocks` of that series. */
  ghost predicate WindowsMatch(windows: map<Symbol, seq<Sample>>, entries: seq<(Symbol, Name)>,
                               feed: map<Symbol, seq<Sample>>, blocks: int, today: int)
  {
    forall sym ::
      (sym in windows <==> Configured(entries, sym) && SessionSeries(feed, sym, today) != []) &&
      (sym in windows ==> windows[sym] == Tail(SessionSeries(feed, sym, today), blocks))
  }

  /** The window stored for one symbol under `WindowsMatch`. */
  lemma WindowAt(windows: map<Symbol, seq<Sample>>, entries: seq<(Symbol, Name)>,
                 feed: map<Symbol, seq<Sample>>, blocks: int, today: int, sym: Symbol)
    requires WindowsMatch(windows, entries, feed, blocks, today) && sym in windows
    ensures SessionSeries(feed, sym, today) != []
    ensures windows[sym] == Tail(SessionSeries(feed, sym, today), blocks)
  {
  }

  /** An index has a window exactly when it is configured and its session
      series is not empty, and its window is the trailing `blocks` samples of
      that series. */
  lemma {:induction false} CollectWindows(entries: seq<(Symbol, Name)>,
                                          feed: map<Symbol, seq<Sample>>, blocks: int, today: int)
    ensures WindowsMatch(Collect(entries, feed, blocks, today).windows, entries, feed, blocks, today)
  {
    if entries != [] {
      var last := |entries| - 1;
      CollectWindows(entries[..last], feed, blocks, today);
      var before := Collect(entries[..last], feed, blocks, today).windows;
      var windows := Collect(entries, feed, blocks, today).windows;
      var sym := entries[last].0;
      var series := SessionSeries(feed, sym, today);
      assert windows == if series == [] then before else before[sym := Tail(series, blocks)];
      forall other
        ensures (other in windows <==>
                   Configured(entries, other) && SessionSeries(feed, other, today) != []) &&
                (other in windows ==>
                   windows[other] == Tail(SessionSeries(feed, other, today), blocks))
      {
        ConfiguredSplit(entries, other);
      }
    }
  }

  /** The block count shapes only the windows: the rows never depend on it. */
  lemma {:induction false} RowsIgnoreBlocks(entries: seq<(Symbol, Name)>,
                                            feed: map<Symbol, seq<Sample>>,
                                            blocks: int, otherBlocks: int, today: int)
    ensures Collect(entries, feed, blocks, today).rows ==
            Collect(entries, feed, otherBlocks, today).rows
  {
    if entries != [] {
      RowsIgnoreBlocks(entries[..|entries| - 1], feed, blocks, otherBlocks, today);
    }
  }

  /** With configured symbols all distinct, no two rows come from the same
      symbol. */
  lemma OneRowPerSymbol(entries: seq<(Symbol, Name)>, feed: map<Symbol, seq<Sample>>,
                        today: int)
    requires forall i, j :: 0 <= i < j < |entries| ==> entries[i].0 != entries[j].0
    ensures forall k, l :: 0 <= k < l < |Kept(entries, feed, today)| ==>
              entries[Kept(entries, feed, today)[k]].0 != entries[Kept(entries, feed, today)[l]].0
  {
  }

  /** A window the chart can draw from: not empty, cut from a non-empty
      series, and ending at that series' current price. */
  ghost predicate EndsAtCurrent(w: seq<Sample>, series: seq<Sample>) {
    |w| >= 1 && series != [] && w[|w| - 1].close == Summarize(series).current
  }

  /** With a block count from the selector (at least one), every stored
      window can be charted: it is not empty and its last close is the
      current price of the index's summary. */
  lemma {:induction false} WindowsEndAtCurrent(entries: seq<(Symbol, Name)>,
                                               feed: map<Symbol, seq<Sample>>,
                                               blocks: int, today: int)
    requires blocks >= 1
    ensures forall sym :: sym in Collect(entries, feed, blocks, today).windows ==>
              EndsAtCurrent(Collect(entries, feed, blocks, today).windows[sym],
                            SessionSeries(feed, sym, today))
  {
    var windows := Collect(entries, feed, blocks, today).windows;
    CollectWindows(entries, feed, blocks, today);
    forall sym | sym in windows
      ensures EndsAtCurrent(windows[sym], SessionSeries(feed, sym, today))
    {
      WindowAt(windows, entries, feed, blocks, today, sym);
      TailEndsAtCurrent(SessionSeries(feed, sym, today), blocks);
    }
  }

  /** An index whose quote history holds no sample of today gets neither a
      row nor a window. */
  lemma {:induction false} StaleIndexSkipped(entries: seq<(Symbol, Name)>,
                                             feed: map<Symbol, seq<Sample>>,
                                             blocks: int, today: int, i: int)
    requires 0 <= i < |entries|
    requires forall j :: 0 <= j < |Fetched(feed, entries[i].0)| ==>
               Fetched(feed, entries[i].0)[j].day != today
    ensures entries[i].0 !in Collect(entries, feed, blocks, today).windows
    ensures i !in Kept(entries, feed, today)
  {
    CollectWindows(entries, feed, blocks, today);
    SameDayExact(Fetched(feed, entries[i].0), today);
  }
}
