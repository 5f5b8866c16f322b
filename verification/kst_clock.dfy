/**
  Wall-clock arithmetic of the scheduler. An instant is a whole number of
  seconds since 1970-01-01 00:00:00 (sub-second parts play no role in any
  decision). Korea Standard Time is UTC plus a fixed nine hours, with no
  daylight-saving rule.
 */
module KstClock {

  const KST_OFFSET_HOURS := 9
  const TARGET_HOUR_KST := 8
  const MONITOR_INTERVAL_SECONDS := 60

  const SECONDS_PER_MINUTE := 60
  const SECONDS_PER_HOUR := 3600
  const SECONDS_PER_DAY := 86400

  /** Day 0 (1970-01-01) was a Thursday; weekdays count Monday as 0. */
  const EPOCH_WEEKDAY := 3

  /**
    The KST instant of a UTC instant: a fixed shift, nothing else. The KST
    time of day is the UTC one nine hours on, and the KST date is one day
    ahead of the UTC date exactly from 15:00 UTC on.
   */
  function KstInstant(utc: int): (k: int)
    ensures SecondOfDay(k) == (SecondOfDay(utc) + KST_OFFSET_HOURS * SECONDS_PER_HOUR) % SECONDS_PER_DAY
    ensures KstDay(k) == KstDay(utc) + (if SecondOfDay(utc) >= 15 * SECONDS_PER_HOUR then 1 else 0)
  {
    utc + KST_OFFSET_HOURS * SECONDS_PER_HOUR
  }

  /** The calendar day number of a KST instant (day 0 is 1970-01-01). */
  function KstDay(kst: int): (d: int)
    ensures d * SECONDS_PER_DAY <= kst < (d + 1) * SECONDS_PER_DAY
  {
    kst / SECONDS_PER_DAY
  }

  function SecondOfDay(kst: int): (s: nat)
    ensures s < SECONDS_PER_DAY
  {
    kst % SECONDS_PER_DAY
  }

  /**
    Monday = 0, ..., Sunday = 6, as Python's `weekday()`: `w` days before
    the instant's day lies a Monday, a whole number of weeks from Monday
    1970-01-05 (day 4).
   */
  function Weekday(kst: int): (w: nat)
    ensures w < 7
    ensures (KstDay(kst) - w - 4) % 7 == 0
  {
    (KstDay(kst) + EPOCH_WEEKDAY) % 7
  }

  function HourOf(kst: int): (h: nat)
    ensures h < 24
  {
    SecondOfDay(kst) / SECONDS_PER_HOUR
  }

  function MinuteOf(kst: int): (m: nat)
    ensures m < 60
  {
    SecondOfDay(kst) % SECONDS_PER_HOUR / SECONDS_PER_MINUTE
  }

  function DigitChar(d: nat): char
    requires d < 10
  {
    (48 + d) as char
  }

  /** Two-digit, zero-padded decimal text, as `%02d`. */
  function Pad2(n: nat): string
    requires n < 100
  {
    [DigitChar(n / 10), DigitChar(n % 10)]
  }

  /** The `%H:%M` text of a KST instant: five characters, the two-digit
      hour, a colon and the two-digit minute. */
  function ClockText(kst: int): (t: string)
    ensures |t| == 5 && t[2] == ':'
    ensures t[..2] == Pad2(HourOf(kst)) && t[3..] == Pad2(MinuteOf(kst))
  {
    Pad2(HourOf(kst)) + ":" + Pad2(MinuteOf(kst))
  }

  /** Distinct numbers below 100 have distinct two-digit texts. */
  lemma Pad2Injective(a: nat, b: nat)
    requires a < 100 && b < 100
    requires Pad2(a) == Pad2(b)
    ensures a == b
  {
  }

  /** The `%H:%M` text determines the hour and the minute. */
  lemma ClockTextDeterminesMinute(kst: int, h: nat, m: nat)
    requires h < 24 && m < 60
    ensures ClockText(kst) == Pad2(h) + ":" + Pad2(m) <==> HourOf(kst) == h && MinuteOf(kst) == m
  {
    var text := ClockText(kst);
    if text == Pad2(h) + ":" + Pad2(m) {
      assert text[..2] == Pad2(HourOf(kst)) && text[..2] == Pad2(h);
      assert text[3..] == Pad2(MinuteOf(kst)) && text[3..] == Pad2(m);
      Pad2Injective(HourOf(kst), h);
      Pad2Injective(MinuteOf(kst), m);
    }
  }

  /** Later instants never fall on earlier days. */
  lemma KstDayMonotone(a: int, b: int)
    requires a <= b
    ensures KstDay(a) <= KstDay(b)
  {
  }

  /** One day later is one weekday later, cyclically. */
  lemma NextDayWeekday(kst: int)
    ensures KstDay(kst + SECONDS_PER_DAY) == KstDay(kst) + 1
    ensures Weekday(kst + SECONDS_PER_DAY) == (Weekday(kst) + 1) % 7
  {
  }

  /** `k` days later is `k` weekdays later, cyclically. */
  lemma {:induction false} WeekdayAfterDays(kst: int, k: nat)
    ensures Weekday(kst + k * SECONDS_PER_DAY) == (Weekday(kst) + k) % 7
  {
    if k > 0 {
      WeekdayAfterDays(kst, k - 1);
      NextDayWeekday(kst + (k - 1) * SECONDS_PER_DAY);
    }
  }
}
