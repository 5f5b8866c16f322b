/**
  The daily send decision of the monitor loop as a pure state machine:
  the in-memory status, the three tick tests, the skip chain, the effect of
  one tick on the status, and runs of many ticks.

  Date strings `%Y-%m-%d` are represented by KST day numbers: the status
  only ever holds the sentinel or a string printed from a KST instant, and
  two such strings are equal exactly when the day numbers are.
 */
module Schedule {

  import opened Wrappers
  import opened KstClock
  import opened TelegramSend

  /** Day number of the sentinel date "1970-01-01". */
  const SENTINEL_DAY := 0

  /** The `status` record: the KST day of the last successful send and the
      KST instant of the last check ("N/A" before the first tick). */
  datatype Status = Status(lastSentDay: int, lastCheckKst: Option<int>)

  const INITIAL_STATUS := Status(SENTINEL_DAY, None)

  /** What the world supplies to one tick: the UTC clock reading, whether
      the market data for the chart came back, and the outcome of each
      send attempt. */
  datatype TickInput = TickInput(nowUtc: int, dataAvailable: bool, responses: seq<bool>)

  /** The branches of the tick's if/elif chain, in source order. */
  datatype Branch = Send | SkipInvalidDay | SkipAlreadySent | SkipTimeMismatch | Wait

  /** The target `HH:MM`, zero-padded hour and minute "00". */
  function TargetTimeText(): string {
    Pad2(TARGET_HOUR_KST) + ":00"
  }

  /** Tuesday (1) to Saturday (5): every day but Sunday and Monday. */
  function IsValidDay(kst: int): (b: bool)
    ensures b <==> Weekday(kst) != 0 && Weekday(kst) != 6
  {
    1 <= Weekday(kst) <= 5
  }

  /** The five-character `%H:%M` text is exactly "08:00". */
  function IsTargetTime(kst: int): (b: bool)
    ensures b <==> ClockText(kst) == "08:00"
  {
    ClockText(kst) == TargetTimeText()
  }

  /** The instant falls inside the recorded day. */
  function IsAlreadySent(lastSentDay: int, kst: int): (b: bool)
    ensures b <==> lastSentDay * SECONDS_PER_DAY <= kst < (lastSentDay + 1) * SECONDS_PER_DAY
  {
    lastSentDay == KstDay(kst)
  }

  predicate ShouldSend(lastSentDay: int, kst: int) {
    IsValidDay(kst) && IsTargetTime(kst) && !IsAlreadySent(lastSentDay, kst)
  }

  function TickKst(t: TickInput): int {
    KstInstant(t.nowUtc)
  }

  function TickDay(t: TickInput): int {
    KstDay(TickKst(t))
  }

  /** The tick `t` taken in status `s` starts the report job. */
  predicate Attempts(s: Status, t: TickInput) {
    ShouldSend(s.lastSentDay, TickKst(t))
  }

  /** The report job of `t` would succeed: a chart, and a send that gets an
      `ok` response within its attempt budget. */
  predicate RunSucceeds(t: TickInput) {
    t.dataAvailable && AnyAttemptOk(t.responses)
  }

  /** The time matches exactly the 60 seconds from 08:00:00 to 08:00:59 KST. */
  lemma TargetTimeIsExactMinute(kst: int)
    ensures IsTargetTime(kst) <==>
      TARGET_HOUR_KST * SECONDS_PER_HOUR <= SecondOfDay(kst) < TARGET_HOUR_KST * SECONDS_PER_HOUR + SECONDS_PER_MINUTE
  {
    assert Pad2(0) == "00";
    ClockTextDeterminesMinute(kst, TARGET_HOUR_KST, 0);
    var s := SecondOfDay(kst);
    assert s == HourOf(kst) * SECONDS_PER_HOUR + MinuteOf(kst) * SECONDS_PER_MINUTE + s % SECONDS_PER_MINUTE;
  }

  /**
    The skip chain. Every tick lands in exactly one of four branches, and
    the final fallback branch is never taken.
   */
  function Classify(lastSentDay: int, kst: int): (b: Branch)
    ensures b == Send <==> ShouldSend(lastSentDay, kst)
    ensures b == Send ==> Weekday(kst) != 0 && Weekday(kst) != 6
    ensures b == SkipInvalidDay <==> !IsValidDay(kst)
    ensures b == SkipAlreadySent <==> IsValidDay(kst) && IsAlreadySent(lastSentDay, kst)
    ensures b == SkipTimeMismatch <==>
      IsValidDay(kst) && !IsTargetTime(kst) && !IsAlreadySent(lastSentDay, kst)
    ensures b != Wait
  {
    var isValidDay := IsValidDay(kst);
    var isTargetTime := IsTargetTime(kst);
    var isAlreadySent := IsAlreadySent(lastSentDay, kst);
    if isValidDay && isTargetTime && !isAlreadySent then Send
    else if !isValidDay then SkipInvalidDay
    else if isAlreadySent then SkipAlreadySent
    else if isValidDay && !isTargetTime && !isAlreadySent then SkipTimeMismatch
    else Wait
  }

  /**
    The status after one tick. The check time always becomes the tick's KST
    instant; the last-sent day moves only when the job was started and
    succeeded, and then to the tick's own day.
   */
  function Step(s: Status, t: TickInput): (s': Status)
    ensures s'.lastCheckKst == Some(TickKst(t))
    ensures s'.lastSentDay != s.lastSentDay ==> Attempts(s, t) && RunSucceeds(t)
    ensures Attempts(s, t) && RunSucceeds(t) ==> s'.lastSentDay == TickDay(t)
    ensures !Attempts(s, t) ==> s' == s.(lastCheckKst := Some(TickKst(t)))
    ensures !RunSucceeds(t) ==> s' == s.(lastCheckKst := Some(TickKst(t)))
  {
    var kst := TickKst(t);
    if ShouldSend(s.lastSentDay, kst) && RunSucceeds(t) then
      Status(KstDay(kst), Some(kst))
    else
      s.(lastCheckKst := Some(kst))
  }

  /** The status after the ticks `ts`, in order, starting from `s`: no
      ticks change nothing, and the check time is the last tick's. */
  function Run(s: Status, ts: seq<TickInput>): (r: Status)
    ensures |ts| == 0 ==> r == s
    ensures |ts| > 0 ==> r.lastCheckKst == Some(TickKst(ts[|ts| - 1]))
    decreases |ts|
  {
    if |ts| == 0 then s else Step(Run(s, ts[..|ts| - 1]), ts[|ts| - 1])
  }

  /** Ticks are in clock order. */
  predicate Chronological(ts: seq<TickInput>) {
    forall j, k :: 0 <= j < k < |ts| ==> ts[j].nowUtc <= ts[k].nowUtc
  }

  /** Once today's date is recorded, ticks on that date start no job and
      leave it recorded. */
  lemma {:induction false} SameDayTicksNeverResend(s: Status, ts: seq<TickInput>)
    requires forall i :: 0 <= i < |ts| ==> TickDay(ts[i]) == s.lastSentDay
    ensures Run(s, ts).lastSentDay == s.lastSentDay
    ensures forall i :: 0 <= i < |ts| ==> !Attempts(Run(s, ts[..i]), ts[i])
  {
    if |ts| > 0 {
      var init := ts[..|ts| - 1];
      SameDayTicksNeverResend(s, init);
      forall i | 0 <= i < |ts|
        ensures !Attempts(Run(s, ts[..i]), ts[i])
      {
        if i < |ts| - 1 {
          assert ts[..i] == init[..i];
        } else {
          assert ts[..i] == init;
        }
      }
    }
  }

  /**
    The day guard: after a successful send at tick `t0`, no later tick on
    the same KST date starts the job again, whatever happens in between.
   */
  lemma NoResendAfterSuccess(s: Status, t0: TickInput, ts: seq<TickInput>, i: nat)
    requires Attempts(s, t0) && RunSucceeds(t0)
    requires forall j :: 0 <= j < |ts| ==> t0.nowUtc <= ts[j].nowUtc
    requires Chronological(ts)
    requires i < |ts| && TickDay(ts[i]) == TickDay(t0)
    ensures !Attempts(Run(Step(s, t0), ts[..i]), ts[i])
  {
    var s1 := Step(s, t0);
    var upTo := ts[..i + 1];
    forall j | 0 <= j < |upTo|
      ensures TickDay(upTo[j]) == s1.lastSentDay
    {
      KstDayMonotone(TickKst(t0), TickKst(ts[j]));
      KstDayMonotone(TickKst(ts[j]), TickKst(ts[i]));
    }
    SameDayTicksNeverResend(s1, upTo);
    assert upTo[..i] == ts[..i];
  }

  /** The last-sent day is the starting one or the day of one of the ticks. */
  lemma {:induction false} LastSentComesFromATick(s: Status, ts: seq<TickInput>)
    ensures Run(s, ts).lastSentDay == s.lastSentDay
      || exists j :: 0 <= j < |ts| && Run(s, ts).lastSentDay == TickDay(ts[j])
  {
    if |ts| > 0 {
      var init := ts[..|ts| - 1];
      LastSentComesFromATick(s, init);
      if Run(s, ts).lastSentDay != s.lastSentDay {
        if Run(s, ts).lastSentDay != TickDay(ts[|ts| - 1]) {
          var j :| 0 <= j < |init| && Run(s, init).lastSentDay == TickDay(init[j]);
          assert ts[j] == init[j];
        }
      }
    }
  }

  /** With ticks in clock order, none before the recorded day, the
      recorded day only moves forward. */
  lemma {:induction false} LastSentNeverMovesBack(s: Status, ts: seq<TickInput>)
    requires Chronological(ts)
    requires forall j :: 0 <= j < |ts| ==> s.lastSentDay <= TickDay(ts[j])
    ensures s.lastSentDay <= Run(s, ts).lastSentDay
    ensures |ts| > 0 ==> Run(s, ts).lastSentDay <= TickDay(ts[|ts| - 1])
  {
    LastSentComesFromATick(s, ts);
    if |ts| > 0 {
      if Run(s, ts).lastSentDay != s.lastSentDay {
        var j :| 0 <= j < |ts| && Run(s, ts).lastSentDay == TickDay(ts[j]);
        KstDayMonotone(TickKst(ts[j]), TickKst(ts[|ts| - 1]));
      }
    }
  }

  /** Ticks none of which could send successfully leave the last-sent day
      as it was: failures never record a date. */
  lemma {:induction false} FailuresKeepLastSent(s: Status, ts: seq<TickInput>)
    requires forall i :: 0 <= i < |ts| ==>
      !(IsValidDay(TickKst(ts[i])) && IsTargetTime(TickKst(ts[i])) && RunSucceeds(ts[i]))
    ensures Run(s, ts).lastSentDay == s.lastSentDay
  {
    if |ts| > 0 {
      var init := ts[..|ts| - 1];
      assert forall i :: 0 <= i < |init| ==> init[i] == ts[i];
      FailuresKeepLastSent(s, init);
    }
  }

  /**
    After a start (or restart) with the sentinel date, the first tick at
    08:00 KST on a Tuesday to Saturday starts the job unless it falls on
    1970-01-01 itself, even if a send already happened that day before the
    restart.
   */
  lemma {:induction false} FirstEligibleTickAfterStart(ts: seq<TickInput>, t: TickInput)
    requires forall i :: 0 <= i < |ts| ==> !(IsValidDay(TickKst(ts[i])) && IsTargetTime(TickKst(ts[i])))
    requires IsValidDay(TickKst(t)) && IsTargetTime(TickKst(t))
    ensures Attempts(Run(INITIAL_STATUS, ts), t) <==> TickDay(t) != SENTINEL_DAY
  {
    FailuresKeepLastSent(INITIAL_STATUS, ts);
  }

  /** Polling at most one interval apart, the tick that first reaches
      08:00:00 KST is still inside the target minute. */
  lemma PollWithinIntervalHitsTarget(before: int, after: int)
    requires before < KstDay(after) * SECONDS_PER_DAY + TARGET_HOUR_KST * SECONDS_PER_HOUR <= after
    requires after - before <= MONITOR_INTERVAL_SECONDS
    ensures IsTargetTime(after)
  {
  }

  /** A gap of one second more than the interval can step over the whole
      target minute: 07:59:59 and 08:01:00 both miss. */
  lemma LongerGapCanMissTarget()
    ensures !IsTargetTime(TARGET_HOUR_KST * SECONDS_PER_HOUR - 1)
    ensures !IsTargetTime(TARGET_HOUR_KST * SECONDS_PER_HOUR + SECONDS_PER_MINUTE)
  {
    TargetTimeIsExactMinute(TARGET_HOUR_KST * SECONDS_PER_HOUR - 1);
    TargetTimeIsExactMinute(TARGET_HOUR_KST * SECONDS_PER_HOUR + SECONDS_PER_MINUTE);
  }

  /**
    Ticks whose whole-second readings are 61 seconds apart, as a 60-second
    sleep plus a pass of a second or more makes them, can step over the
    target minute and skip a send day: on Wednesday 2024-01-03 (day 19725),
    ticks at 07:59:59 and 08:01:00 KST start no job, and no later tick of
    that day passes the time test.
   */
  lemma DriftCanSkipDay()
    ensures var ts := [TickInput(1704236399, true, [true]), TickInput(1704236460, true, [true])];
      && Chronological(ts)
      && ts[1].nowUtc - ts[0].nowUtc == MONITOR_INTERVAL_SECONDS + 1
      && TickDay(ts[0]) == TickDay(ts[1]) == 19725 && IsValidDay(TickKst(ts[0]))
      && !Attempts(INITIAL_STATUS, ts[0]) && !Attempts(Run(INITIAL_STATUS, ts[..1]), ts[1])
      && Run(INITIAL_STATUS, ts).lastSentDay == SENTINEL_DAY
    ensures forall u :: 1704236460 <= u && KstDay(KstInstant(u)) == 19725 ==> !IsTargetTime(KstInstant(u))
  {
    var ts := [TickInput(1704236399, true, [true]), TickInput(1704236460, true, [true])];
    TargetTimeIsExactMinute(TickKst(ts[0]));
    TargetTimeIsExactMinute(TickKst(ts[1]));
    assert ts[..1] == [ts[0]];
    forall u | 1704236460 <= u && KstDay(KstInstant(u)) == 19725
      ensures !IsTargetTime(KstInstant(u))
    {
      TargetTimeIsExactMinute(KstInstant(u));
    }
  }

  /** How many of the `n` days starting at the day of `kst` are send days. */
  function CountValidDays(kst: int, n: nat): nat {
    if n == 0 then 0
    else CountValidDays(kst, n - 1) + (if IsValidDay(kst + (n - 1) * SECONDS_PER_DAY) then 1 else 0)
  }

  /** How many of the weekdays `w`, `w + 1`, ..., `w + n - 1` (mod 7) are
      Tuesday to Saturday. */
  function CountSendWeekdays(w: nat, n: nat): nat {
    if n == 0 then 0
    else CountSendWeekdays(w, n - 1) + (if 1 <= (w + n - 1) % 7 <= 5 then 1 else 0)
  }

  lemma {:induction false} CountValidDaysByWeekday(kst: int, n: nat)
    ensures CountValidDays(kst, n) == CountSendWeekdays(Weekday(kst), n)
  {
    if n > 0 {
      CountValidDaysByWeekday(kst, n - 1);
      WeekdayAfterDays(kst, n - 1);
    }
  }

  /** Any seven consecutive days hold exactly five send days. */
  lemma FiveSendDaysInAnyWeek(kst: int)
    ensures CountValidDays(kst, 7) == 5
  {
    CountValidDaysByWeekday(kst, 7);
    var w := Weekday(kst);
    if w == 0 {
      assert CountSendWeekdays(0, 7) == 5;
    } else if w == 1 {
      assert CountSendWeekdays(1, 7) == 5;
    } else if w == 2 {
      assert CountSendWeekdays(2, 7) == 5;
    } else if w == 3 {
      assert CountSendWeekdays(3, 7) == 5;
    } else if w == 4 {
      assert CountSendWeekdays(4, 7) == 5;
    } else if w == 5 {
      assert CountSendWeekdays(5, 7) == 5;
    } else {
      assert CountSendWeekdays(6, 7) == 5;
    }
  }
}
