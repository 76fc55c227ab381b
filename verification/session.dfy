/** The trading-session clock: how many minutes of the session have passed,
    how many 5-minute blocks the window selector may offer, and its default.
    Times are whole seconds since local midnight in the exchange's time zone. */
module Session {

  /** 09:15, the market open, in seconds since midnight. */
  const MarketOpen: int := 9 * 3600 + 15 * 60
  /** 15:30, the market close, in seconds since midnight. */
  const MarketClose: int := 15 * 3600 + 30 * 60
  /** Length of the session in minutes. */
  const SessionMinutes: int := 375
  /** Minutes per block of the window selector. */
  const BlockMinutes: int := 5
  /** The selector's preferred default, one hour of blocks. */
  const DefaultBlocks: int := 12

  /** Whole minutes of the session elapsed at `now`: zero before the open,
      the full session after the close, otherwise the elapsed seconds
      divided by sixty and truncated. */
  function MinutesPassed(now: int): (m: int)
    ensures 0 <= m <= SessionMinutes
    ensures now < MarketOpen ==> m == 0
    ensures now > MarketClose ==> m == SessionMinutes
    ensures MarketOpen <= now <= MarketClose ==>
              m * 60 <= now - MarketOpen < m * 60 + 60
  {
    if now < MarketOpen then 0
    else if now > MarketClose then SessionMinutes
    else (now - MarketOpen) / 60
  }

  /** The number of whole blocks elapsed, but never fewer than one. */
  function MaxBlocks(minutes: int): (b: int)
    ensures b >= 1
    ensures minutes < 2 * BlockMinutes ==> b == 1
    ensures minutes >= 2 * BlockMinutes ==>
              b * BlockMinutes <= minutes < b * BlockMinutes + BlockMinutes
  {
    var whole := minutes / BlockMinutes;
    if 1 <= whole then whole else 1
  }

  /** The selector's default: an hour of blocks when that many exist. */
  function SliderDefault(maxBlocks: int): (v: int)
    ensures v <= DefaultBlocks && v <= maxBlocks
    ensures v == DefaultBlocks || v == maxBlocks
  {
    if DefaultBlocks <= maxBlocks then DefaultBlocks else maxBlocks
  }

  /** Whatever the clock says, the selector's range is one to seventy-five
      blocks and its default lies inside that range. */
  lemma SliderBounds(now: int)
    ensures 1 <= MaxBlocks(MinutesPassed(now)) <= SessionMinutes / BlockMinutes
    ensures 1 <= SliderDefault(MaxBlocks(MinutesPassed(now))) <= MaxBlocks(MinutesPassed(now))
  {
    var m := MinutesPassed(now);
    var b := MaxBlocks(m);
    if m >= 2 * BlockMinutes {
      assert b * BlockMinutes <= SessionMinutes;
    }
  }

  /** The elapsed minutes never run backwards as the clock advances. */
  lemma MinutesMonotone(earlier: int, later: int)
    requires earlier <= later
    ensures MinutesPassed(earlier) <= MinutesPassed(later)
  {
  }

  /** The block count never shrinks as the session goes on. */
  lemma BlocksMonotone(fewer: int, more: int)
    requires fewer <= more
    ensures MaxBlocks(fewer) <= MaxBlocks(more)
  {
  }
}
