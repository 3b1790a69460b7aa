/** Fixed-width integers and the millisecond timestamp arithmetic of time.h. */
module Time {

  type U16 = x: int | 0 <= x < 0x1_0000
  type U32 = x: int | 0 <= x < 0x1_0000_0000
  type U64 = x: int | 0 <= x < 0x1_0000_0000_0000_0000
  type I32 = x: int | -0x8000_0000 <= x < 0x8000_0000

  /** The uint64_t difference `now - since`: the plain difference when the
      clock is at or ahead of the stamp, wrapped by 2^64 when it is behind. */
  function Elapsed(now: U64, since: U64): U64
  {
    if since <= now then now - since else now - since + 0x1_0000_0000_0000_0000
  }

  /** Elapsed is unsigned 64-bit subtraction: the difference reduced modulo
      2^64. */
  lemma ElapsedIsUint64Difference(now: U64, since: U64)
    ensures Elapsed(now, since) == (now - since) % 0x1_0000_0000_0000_0000
  {
  }

  /** IS_TIME_EXPIRED_EX(tle, period, now): the unsigned difference has reached
      the period, or the clock is behind the timestamp (a wrap is taken as
      already expired). It is false exactly inside [tle, tle + period). */
  function IsTimeExpiredEx(tle: U64, period: U64, now: U64): (r: bool)
    ensures r <==> (now < tle || tle + period <= now)
  {
    Elapsed(now, tle) >= period || now < tle
  }

  /** A clock behind the timestamp counts as expired. */
  lemma ExpiredWhenClockBehind(tle: U64, period: U64, now: U64)
    requires now < tle
    ensures IsTimeExpiredEx(tle, period, now)
  {
  }

  /** With a zero period the test always holds. */
  lemma ExpiredWithZeroPeriod(tle: U64, now: U64)
    ensures IsTimeExpiredEx(tle, 0, now)
  {
  }

  /** Once expired with the clock ahead of the timestamp, it stays expired as
      the clock advances. */
  lemma ExpiryIsMonotone(tle: U64, period: U64, now: U64, later: U64)
    requires tle <= now <= later
    requires IsTimeExpiredEx(tle, period, now)
    ensures IsTimeExpiredEx(tle, period, later)
  {
  }
}
