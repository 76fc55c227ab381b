/** Intraday statistics of one index: the session summary (open, high, low,
    current, gain and loss with their percentages), the breakout signal, and
    the trailing display window. Everything here is a pure function of the
    session's ordered samples. */
module Metrics {
  import opened Options

  /** One 5-minute candle. `day` is the session date of its timestamp; the
      time of day is not needed by any computation. */
  datatype Sample = Sample(day: int, open: real, high: real, low: real, close: real)

  /** A candle whose low and high bracket its open and its close. */
  predicate WellFormed(x: Sample) {
    x.low <= x.open <= x.high && x.low <= x.close <= x.high
  }

  predicate AllWellFormed(s: seq<Sample>) {
    forall i :: 0 <= i < |s| ==> WellFormed(s[i])
  }

  datatype Signal = BullishBreakout | BearishBreakdown | NoSignal

  datatype Summary = Summary(
    open: real,
    high: real,
    low: real,
    current: real,
    gain: real,
    pctGain: Option<real>,
    loss: real,
    pctLoss: Option<real>,
    signal: Signal)

  function Min(a: int, b: int): int {
    if a <= b then a else b
  }

  /** The largest high of a non-empty series. */
  function MaxHigh(s: seq<Sample>): (r: real)
    requires |s| > 0
    ensures forall i :: 0 <= i < |s| ==> s[i].high <= r
  {
    if |s| == 1 then s[0].high
    else
      var m := MaxHigh(s[..|s| - 1]);
      assert forall i :: 0 <= i < |s| - 1 ==> s[..|s| - 1][i] == s[i];
      if s[|s| - 1].high > m then s[|s| - 1].high else m
  }

  /** The smallest low of a non-empty series. */
  function MinLow(s: seq<Sample>): (r: real)
    requires |s| > 0
    ensures forall i :: 0 <= i < |s| ==> r <= s[i].low
  {
    if |s| == 1 then s[0].low
    else
      var m := MinLow(s[..|s| - 1]);
      assert forall i :: 0 <= i < |s| - 1 ==> s[..|s| - 1][i] == s[i];
      if s[|s| - 1].low < m then s[|s| - 1].low else m
  }

  /** The day high is reached by some sample. */
  lemma {:induction false} MaxHighAttained(s: seq<Sample>)
    requires |s| > 0
    ensures exists i :: 0 <= i < |s| && s[i].high == MaxHigh(s)
  {
    if |s| > 1 {
      var n := |s| - 1;
      MaxHighAttained(s[..n]);
      var k :| 0 <= k < n && s[..n][k].high == MaxHigh(s[..n]);
      assert s[k] == s[..n][k];
      if s[n].high > MaxHigh(s[..n]) {
        assert s[n].high == MaxHigh(s);
      } else {
        assert s[k].high == MaxHigh(s);
      }
    } else {
      assert s[0].high == MaxHigh(s);
    }
  }

  /** The day low is reached by some sample. */
  lemma {:induction false} MinLowAttained(s: seq<Sample>)
    requires |s| > 0
    ensures exists i :: 0 <= i < |s| && s[i].low == MinLow(s)
  {
    if |s| > 1 {
      var n := |s| - 1;
      MinLowAttained(s[..n]);
      var k :| 0 <= k < n && s[..n][k].low == MinLow(s[..n]);
      assert s[k] == s[..n][k];
      if s[n].low < MinLow(s[..n]) {
        assert s[n].low == MinLow(s);
      } else {
        assert s[k].low == MinLow(s);
      }
    } else {
      assert s[0].low == MinLow(s);
    }
  }

  /** A change relative to a base, in percent; absent when the base is zero. */
  function Percent(change: real, base: real): (p: Option<real>)
    ensures p.None? <==> base == 0.0
    ensures p.Some? ==> p.value * base == change * 100.0
  {
    if base != 0.0 then Some(change / base * 100.0) else None
  }

  /** The breakout rule: the last close against the extremes of every
      earlier sample. A series of at most one sample has no history. */
  function Breakout(s: seq<Sample>): (r: Signal)
    ensures r != NoSignal ==> |s| > 1
  {
    if |s| <= 1 then NoSignal
    else
      var previous := s[..|s| - 1];
      var current := s[|s| - 1].close;
      if current > MaxHigh(previous) then BullishBreakout
      else if current < MinLow(previous) then BearishBreakdown
      else NoSignal
  }

  /** The summary row of a non-empty session series. */
  function Summarize(s: seq<Sample>): (r: Summary)
    requires |s| > 0
    ensures r.pctGain.None? <==> r.pctLoss.None?
    ensures r.signal != NoSignal ==> |s| > 1
  {
    var open := s[0].open;
    var high := MaxHigh(s);
    var low := MinLow(s);
    var gain := high - open;
    var loss := low - open;
    Summary(open, high, low, s[|s| - 1].close,
            gain, Percent(gain, open), loss, Percent(loss, open),
            Breakout(s))
  }

  /** The trailing `n` samples, as a data frame's `tail(n)` gives them; a
      negative `n` drops the first `-n` samples instead. */
  function Tail(s: seq<Sample>, n: int): (w: seq<Sample>)
    ensures |w| <= |s| && w == s[|s| - |w|..]
    ensures n >= 0 ==> |w| == Min(n, |s|)
    ensures n < 0 ==> |w| == |s| - Min(-n, |s|)
  {
    if n >= 0 then s[|s| - Min(n, |s|)..] else s[Min(-n, |s|)..]
  }

  // ---------------------------------------------------------------------
  // Properties of the summary

  /** The summary takes its open from the first sample and its current price
      from the last, and its high and low are the extremes actually reached. */
  lemma SummaryExtremes(s: seq<Sample>)
    requires |s| > 0
    ensures Summarize(s).open == s[0].open
    ensures Summarize(s).current == s[|s| - 1].close
    ensures forall i :: 0 <= i < |s| ==> s[i].high <= Summarize(s).high
    ensures exists i :: 0 <= i < |s| && s[i].high == Summarize(s).high
    ensures forall i :: 0 <= i < |s| ==> Summarize(s).low <= s[i].low
    ensures exists i :: 0 <= i < |s| && s[i].low == Summarize(s).low
    ensures Summarize(s).gain == Summarize(s).high - Summarize(s).open
    ensures Summarize(s).loss == Summarize(s).low - Summarize(s).open
  {
    MaxHighAttained(s);
    MinLowAttained(s);
  }

  /** On well-formed candles the gain is never negative, the loss never
      positive, and open and current both lie between the day's low and high. */
  lemma SummaryBounds(s: seq<Sample>)
    requires |s| > 0 && AllWellFormed(s)
    ensures Summarize(s).gain >= 0.0 && Summarize(s).loss <= 0.0
    ensures Summarize(s).low <= Summarize(s).open <= Summarize(s).high
    ensures Summarize(s).low <= Summarize(s).current <= Summarize(s).high
  {
    assert WellFormed(s[0]) && WellFormed(s[|s| - 1]);
  }

  /** The percentages are absent exactly when the open is zero, and otherwise
      are the gain and the loss as a percentage of the open. */
  lemma SummaryPercentages(s: seq<Sample>)
    requires |s| > 0
    ensures Summarize(s).pctGain.None? <==> s[0].open == 0.0
    ensures Summarize(s).pctLoss.None? <==> s[0].open == 0.0
    ensures Summarize(s).pctGain.Some? ==>
              Summarize(s).pctGain.value * s[0].open == Summarize(s).gain * 100.0
    ensures Summarize(s).pctLoss.Some? ==>
              Summarize(s).pctLoss.value * s[0].open == Summarize(s).loss * 100.0
  {
  }

  // ---------------------------------------------------------------------
  // Properties of the breakout rule

  /** The breakout rule stated sample by sample: bullish exactly when the last
      close is above every earlier high; bearish exactly when it is not bullish
      and the last close is below every earlier low; no signal without
      history. */
  lemma BreakoutCharacterised(s: seq<Sample>)
    ensures |s| <= 1 ==> Breakout(s) == NoSignal
    ensures Breakout(s) == BullishBreakout <==>
              |s| > 1 && forall i :: 0 <= i < |s| - 1 ==> s[i].high < s[|s| - 1].close
    ensures Breakout(s) == BearishBreakdown <==>
              |s| > 1 &&
              (exists i :: 0 <= i < |s| - 1 && s[i].high >= s[|s| - 1].close) &&
              (forall i :: 0 <= i < |s| - 1 ==> s[i].low > s[|s| - 1].close)
  {
    if |s| > 1 {
      var previous := s[..|s| - 1];
      assert forall i :: 0 <= i < |s| - 1 ==> previous[i] == s[i];
      var hi := MaxHigh(previous);
      var lo := MinLow(previous);
      MaxHighAttained(previous);
      MinLowAttained(previous);
      var k :| 0 <= k < |previous| && previous[k].high == hi;
      var j :| 0 <= j < |previous| && previous[j].low == lo;
      assert s[k].high == hi && s[j].low == lo;
    }
  }

  /** The summary's signal is the breakout rule of the whole series. */
  lemma SummarySignal(s: seq<Sample>)
    requires |s| > 0
    ensures |s| == 1 ==> Summarize(s).signal == NoSignal
    ensures Summarize(s).signal == BullishBreakout <==>
              |s| > 1 && forall i :: 0 <= i < |s| - 1 ==> s[i].high < Summarize(s).current
    ensures Summarize(s).signal == BearishBreakdown <==>
              |s| > 1 && Summarize(s).signal != BullishBreakout &&
              (forall i :: 0 <= i < |s| - 1 ==> s[i].low > Summarize(s).current)
  {
    BreakoutCharacterised(s);
  }

  /** A bullish breakout on well-formed candles always sets a strictly
      positive gain, and a bearish breakdown a strictly negative loss. */
  lemma BreakoutMovesExtremes(s: seq<Sample>)
    requires |s| > 0 && AllWellFormed(s)
    ensures Summarize(s).signal == BullishBreakout ==> Summarize(s).gain > 0.0
    ensures Summarize(s).signal == BearishBreakdown ==> Summarize(s).loss < 0.0
  {
    BreakoutCharacterised(s);
    SummaryExtremes(s);
    var last := |s| - 1;
    assert WellFormed(s[0]) && WellFormed(s[last]);
    if Summarize(s).signal == BullishBreakout {
      assert s[0].open <= s[0].high < s[last].close <= s[last].high;
    }
    if Summarize(s).signal == BearishBreakdown {
      assert s[last].low <= s[last].close < s[0].low <= s[0].open;
    }
  }

  // ---------------------------------------------------------------------
  // Properties of the display window

  /** With a positive block count the window of a non-empty series is not
      empty and ends with the series' last sample, so the chart's last point
      is the summary's current price. */
  lemma TailEndsAtCurrent(s: seq<Sample>, n: int)
    requires |s| > 0 && n >= 1
    ensures |Tail(s, n)| >= 1
    ensures Tail(s, n)[|Tail(s, n)| - 1] == s[|s| - 1]
    ensures Tail(s, n)[|Tail(s, n)| - 1].close == Summarize(s).current
  {
    var w := Tail(s, n);
    assert w == s[|s| - |w|..];
  }

  /** The chart marker is the breakout rule applied to the window. A breakout
      of the whole session is still a breakout of any window with history; on
      well-formed candles so is a breakdown; and a window that holds the whole
      session shows exactly the session's signal. */
  lemma WindowMarkerAgreesWithRow(s: seq<Sample>, n: int)
    ensures |Tail(s, n)| > 1 && Breakout(s) == BullishBreakout ==>
              Breakout(Tail(s, n)) == BullishBreakout
    ensures |Tail(s, n)| > 1 && Breakout(s) == BearishBreakdown && AllWellFormed(s) ==>
              Breakout(Tail(s, n)) == BearishBreakdown
    ensures |Tail(s, n)| == |s| ==> Breakout(Tail(s, n)) == Breakout(s)
  {
    var w := Tail(s, n);
    var d := |s| - |w|;
    assert forall i :: 0 <= i < |w| ==> w[i] == s[d + i];
    BreakoutCharacterised(s);
    BreakoutCharacterised(w);
    if |w| > 1 && Breakout(s) == BearishBreakdown && AllWellFormed(s) {
      assert WellFormed(w[0]);
      assert w[0].high >= w[0].low > w[|w| - 1].close;
    }
  }

  /** A window at least as long as the series is the series itself. */
  lemma TailWhole(s: seq<Sample>, n: int)
    requires n >= |s|
    ensures Tail(s, n) == s
  {
  }

  // ---------------------------------------------------------------------
  // Worked examples

  /** A second candle closing above the first one's high is a breakout. */
  lemma ExampleBreakout()
    ensures var s := [Sample(0, 100.0, 105.0, 99.0, 102.0), Sample(0, 102.0, 108.0, 101.0, 107.0)];
            Summarize(s) == Summary(100.0, 108.0, 99.0, 107.0, 8.0, Some(8.0), -1.0, Some(-1.0),
                                    BullishBreakout)
  {
  }

  /** A second candle closing below the first one's low is a breakdown. */
  lemma ExampleBreakdown()
    ensures var s := [Sample(0, 100.0, 105.0, 99.0, 102.0), Sample(0, 102.0, 104.0, 90.0, 91.0)];
            Summarize(s).signal == BearishBreakdown && Summarize(s).loss == -10.0
  {
  }

  /** A single candle carries no signal, whatever its prices. */
  lemma ExampleSingleCandle()
    ensures Summarize([Sample(0, 100.0, 105.0, 99.0, 102.0)]).signal == NoSignal
  {
  }
}
