// Clocks: how far behind the present a candle can still be written, and which retention
// settings are therefore safe.
module Timing {
  import opened Options
  import opened Trades
  import opened Validation

  // unix_timestamp(current_timestamp()) * 1000: the batch clock in whole seconds.
  function NowMs(clock: int): int {
    clock - clock % 1000
  }

  // LATE_EVENT_AFTER_MINUTES, never less than a minute.
  function ResolveLateAfterMs(minutes: int): (ms: int)
    ensures ms >= MINUTE && ms % MINUTE == 0
    ensures ms == if minutes >= 1 then minutes * 60000 else 60000
  {
    Max(1, minutes) * 60 * 1000
  }

  // NOW() - keep_days, negative settings counting as zero.
  function Cutoff(now: int, keepDays: int): int {
    now - Max(0, keepDays) * DAY
  }

  // A trade time the stream accepts at a batch clock.
  predicate OnTime(t: int, clock: int, late: nat, skew: nat) {
    !BadTime(t, NowMs(clock), skew) && !IsLate(t, NowMs(clock), Some(late))
  }

  // A candle row of the batch is written at most `lag` after the batch clock, and after the purge
  // transaction took its NOW().
  predicate WrittenAfterPurge(clock: int, at: int, now: int, lag: nat) {
    clock <= at <= clock + lag && now <= at
  }

  function CeilSecond(ms: int): int {
    ms + (-ms) % 1000
  }

  // No schedule lets a batch write a candle that a purge still open, or already finished, counts
  // as old.
  ghost predicate NeverWritesOld(late: nat, skew: nat, lag: nat, keep: nat) {
    forall t, clock, at, now ::
      OnTime(t, clock, late, skew) && WrittenAfterPurge(clock, at, now, lag) ==> now - keep <= FloorToMinute(t)
  }

  predicate SafeSettings(late: nat, skew: nat, lag: nat, keep: nat) {
    CeilSecond(Min(late, skew)) + 59999 + lag <= keep
  }

  // Every minute a batch can touch starts late enough.
  lemma OldestMinute(t: int, clock: int, late: nat, skew: nat)
    requires OnTime(t, clock, late, skew)
    ensures clock - CeilSecond(Min(late, skew)) - 59999 <= FloorToMinute(t)
  {
    var b, m := NowMs(clock), Min(late, skew);
    assert b % 1000 == 0 && clock - 999 <= b;
    assert b - m <= t;
    FloorMonotone(b - m, t);
    FloorOfSecond(b, m);
  }

  lemma FloorMonotone(s: int, t: int)
    requires s <= t
    ensures FloorToMinute(s) <= FloorToMinute(t)
  {
  }

  lemma FloorIs(t: int, q: int, r: int)
    requires t == MINUTE * q + r && 0 <= r < MINUTE
    ensures FloorToMinute(t) == MINUTE * q
  {
  }

  lemma FloorOfSecond(b: int, m: int)
    requires b % 1000 == 0
    ensures b - CeilSecond(m) - 59000 <= FloorToMinute(b - m)
  {
    var r := (-m) % 1000;
    var sec := (b - CeilSecond(m)) / 1000;
    assert b - m == 1000 * sec + r;
    assert sec == 60 * (sec / 60) + sec % 60;
    FloorIs(b - m, sec / 60, 1000 * (sec % 60) + r);
  }

  // The schedule that comes closest to the bound.
  lemma TightSchedule(late: nat, skew: nat, lag: nat) returns (t: int, clock: int, at: int, now: int)
    ensures OnTime(t, clock, late, skew) && WrittenAfterPurge(clock, at, now, lag)
    ensures now == FloorToMinute(t) + CeilSecond(Min(late, skew)) + 59999 + lag
  {
    var m := Min(late, skew);
    var start := MINUTE;
    var b := start + 59000 + CeilSecond(m);
    assert b % 1000 == 0;
    clock := b + 999;
    assert NowMs(clock) == b;
    t := b - m;
    assert start <= t < start + MINUTE;
    assert FloorToMinute(t) == start;
    at := clock + lag;
    now := at;
  }

  // Interleaved purges are safe for every schedule exactly when the retention horizon covers the
  // late rule, one minute, the truncation to seconds and the write lag.
  lemma SafeSettingsIff(late: nat, skew: nat, lag: nat, keep: nat)
    ensures NeverWritesOld(late, skew, lag, keep) <==> SafeSettings(late, skew, lag, keep)
  {
    if SafeSettings(late, skew, lag, keep) {
      forall t, clock, at, now | OnTime(t, clock, late, skew) && WrittenAfterPurge(clock, at, now, lag)
        ensures now - keep <= FloorToMinute(t)
      {
        OldestMinute(t, clock, late, skew);
      }
    } else {
      var t, clock, at, now := TightSchedule(late, skew, lag);
    }
  }
}
