/** The colour rule of the summary table: a numeric gain or loss cell is green
    when strictly positive and red otherwise (zero included), an absent value
    is left plain; a signal cell is green for a breakout and red for a
    breakdown. */
module Styling {
  import opened Options
  import opened Metrics

  datatype Tint = Green | Red | Plain

  /** The tint of a numeric cell. */
  function ValueTint(v: Option<real>): (t: Tint)
    ensures t == Plain <==> v.None?
    ensures t == Green <==> v.Some? && v.value > 0.0
  {
    match v
    case None => Plain
    case Some(x) => if x > 0.0 then Green else Red
  }

  /** The tint of a signal cell. */
  function SignalTint(s: Signal): (t: Tint)
    ensures t == Green <==> s == BullishBreakout
    ensures t == Red <==> s == BearishBreakdown
  {
    match s
    case BullishBreakout => Green
    case BearishBreakdown => Red
    case NoSignal => Plain
  }

  /** On well-formed candles the loss columns are never green: the loss is
      red, and so is its percentage whenever the open is positive; the gain is
      red exactly when the day has not risen above its open. */
  lemma LossNeverGreen(s: seq<Sample>)
    requires |s| > 0 && AllWellFormed(s)
    ensures ValueTint(Some(Summarize(s).loss)) == Red
    ensures s[0].open > 0.0 ==> ValueTint(Summarize(s).pctLoss) == Red
    ensures ValueTint(Some(Summarize(s).gain)) == Red <==> Summarize(s).gain == 0.0
    ensures s[0].open > 0.0 ==>
              (ValueTint(Summarize(s).pctGain) == Red <==> Summarize(s).gain == 0.0)
  {
    SummaryBounds(s);
    SummaryPercentages(s);
  }

  /** A row whose signal cell is green also has a green gain cell, and one
      whose signal cell is red has a red loss cell. */
  lemma SignalTintAgreesWithGain(s: seq<Sample>)
    requires |s| > 0 && AllWellFormed(s)
    ensures SignalTint(Summarize(s).signal) == Green ==> ValueTint(Some(Summarize(s).gain)) == Green
    ensures SignalTint(Summarize(s).signal) == Red ==>
              ValueTint(Some(Summarize(s).loss)) == Red && Summarize(s).loss < 0.0
  {
    BreakoutMovesExtremes(s);
  }
}
