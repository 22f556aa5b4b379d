/**
 * The renewal deadline given to a leased message: nine tenths of the time
 * left on its lock, in ticks of 100 nanoseconds, rounded to the nearest tick
 * with ties rounded away from zero. The arithmetic is exact here; the system
 * goes through a double and a cast to a 64-bit count of ticks.
 */
module Renewal {
  const TicksPerMinute: int := 600_000_000

  /** The deadline, in ticks, for a lock with the given number of ticks left (negative once it has expired). */
  function RenewInterval(remainingTicks: int): (interval: int)
    ensures -5 <= 10 * interval - 9 * remainingTicks <= 5
    ensures 10 * interval - 9 * remainingTicks == 5 ==> remainingTicks > 0
    ensures 10 * interval - 9 * remainingTicks == -5 ==> remainingTicks < 0
  {
    if remainingTicks >= 0 then (9 * remainingTicks + 5) / 10
    else -((9 * -remainingTicks + 5) / 10)
  }

  /** The rounding is determined: the nearest tick, and on a tie the one farther from zero. */
  lemma RenewIntervalUnique(remainingTicks: int, interval: int)
    requires -5 <= 10 * interval - 9 * remainingTicks <= 5
    requires 10 * interval - 9 * remainingTicks == 5 ==> remainingTicks > 0
    requires 10 * interval - 9 * remainingTicks == -5 ==> remainingTicks < 0
    ensures interval == RenewInterval(remainingTicks)
  {
  }

  /** The deadline is negative exactly when the lock has already expired, and never later than the lock. */
  lemma RenewIntervalSign(remainingTicks: int)
    ensures RenewInterval(remainingTicks) < 0 <==> remainingTicks < 0
    ensures remainingTicks >= 0 ==> RenewInterval(remainingTicks) <= remainingTicks
  {
  }

  /** Ten minutes left on the lock gives nine minutes to process the message. */
  lemma TenMinutesGiveNine()
    ensures RenewInterval(10 * TicksPerMinute) == 9 * TicksPerMinute
  {
  }
}
