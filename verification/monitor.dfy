/**
  The background monitor: the process-wide status record, updated in place
  by one tick of the monitor loop, and the loop itself over the ticks it is
  given. Each tick reads the clock once, records the check time, and starts
  the report job exactly when the schedule says so.
 */
module Monitor {

  import opened Wrappers
  import opened KstClock
  import opened TelegramSend
  import opened Schedule

  class MonitorStatus {
    /** KST day number of `last_sent_date_kst`. */
    var lastSentDay: int
    /** KST instant of `last_check_time_kst`; None stands for "N/A". */
    var lastCheckKst: Option<int>

    function Snapshot(): Status
      reads this
    {
      Status(lastSentDay, lastCheckKst)
    }

    /** The status at process start: the sentinel date and no check yet. */
    constructor ()
      ensures Snapshot() == INITIAL_STATUS
    {
      lastSentDay := SENTINEL_DAY;
      lastCheckKst := None;
    }

    /**
      One pass of the monitor loop's body. `job` is the send call the
      report job made, if it made one.
     */
    method Tick(t: TickInput) returns (branch: Branch, sent: bool, job: Option<Delivery>)
      modifies this
      ensures branch == Classify(old(lastSentDay), TickKst(t))
      ensures branch == Send <==> Attempts(old(Snapshot()), t)
      ensures job.Some? <==> branch == Send && t.dataAvailable
      ensures job.Some? ==> SendOutcome(t.responses, job.value) && sent == job.value.ok
      ensures sent <==> branch == Send && RunSucceeds(t)
      ensures Snapshot() == Step(old(Snapshot()), t)
      ensures TickReport(old(Snapshot()), t, branch, job)
    {
      var nowKst := KstInstant(t.nowUtc);
      var today := KstDay(nowKst);
      lastCheckKst := Some(nowKst);

      var isValidDay := IsValidDay(nowKst);
      var isTargetTime := IsTargetTime(nowKst);
      var isAlreadySent := lastSentDay == today;

      sent, job := false, None;
      if isValidDay && isTargetTime && !isAlreadySent {
        branch := Send;
        var success, delivery, _ := RunAndSendPlot(t.dataAvailable, t.responses);
        job := delivery;
        if success {
          lastSentDay := today;
          sent := true;
        }
      } else if !isValidDay {
        branch := SkipInvalidDay;
      } else if isAlreadySent {
        branch := SkipAlreadySent;
      } else if isValidDay && !isTargetTime && !isAlreadySent {
        branch := SkipTimeMismatch;
      } else {
        branch := Wait;
        assert false;
      }
    }

    /**
      The monitor loop over a finite run of ticks. In the source each pass
      is followed by a 60-second sleep, so consecutive clock readings are
      60 seconds plus the pass's own duration apart. It returns the branch
      each tick took and the send call, if any, each tick's job made.
     */
    method MonitorLoop(ticks: seq<TickInput>) returns (branches: seq<Branch>, jobs: seq<Option<Delivery>>)
      modifies this
      ensures Snapshot() == Run(old(Snapshot()), ticks)
      ensures |branches| == |ticks| && |jobs| == |ticks|
      ensures forall i :: 0 <= i < |ticks| ==>
        TickReport(Run(old(Snapshot()), ticks[..i]), ticks[i], branches[i], jobs[i])
    {
      ghost var start := Snapshot();
      branches, jobs := [], [];
      for i := 0 to |ticks|
        invariant Snapshot() == Run(start, ticks[..i])
        invariant |branches| == i && |jobs| == i
        invariant forall k :: 0 <= k < i ==> TickReport(Run(start, ticks[..k]), ticks[k], branches[k], jobs[k])
      {
        assert ticks[..i + 1][..i] == ticks[..i];
        var branch, _, job := Tick(ticks[i]);
        branches, jobs := branches + [branch], jobs + [job];
      }
      assert ticks[..|ticks|] == ticks;
    }
  }

  /**
    What a tick taken in status `s` did: the branch the skip chain gives,
    and a send call exactly when the job started and had a chart, with the
    outcome the attempts fix.
   */
  predicate TickReport(s: Status, t: TickInput, branch: Branch, job: Option<Delivery>) {
    && branch == Classify(s.lastSentDay, TickKst(t))
    && (job.Some? <==> Attempts(s, t) && t.dataAvailable)
    && (job.Some? ==> SendOutcome(t.responses, job.value))
  }

  /**
    A morning as a client sees it: a fresh process, a Wednesday
    (2024-01-03) at 08:00:00 KST with a chart and a first-try delivery,
    then the next tick a minute later.
   */
  method SameMorningScenario() {
    var monitor := new MonitorStatus();
    var at0800 := TickInput(1704236400, true, [true]);
    assert TickDay(at0800) == 19725 && Weekday(TickKst(at0800)) == 2;
    TargetTimeIsExactMinute(TickKst(at0800));
    assert AttemptOk(at0800.responses, 0);
    var branch, sent, job := monitor.Tick(at0800);
    assert branch == Send && sent && job.Some? && job.value.attempts == 1;
    assert monitor.lastSentDay == 19725;

    var at0801 := TickInput(1704236460, true, [true]);
    branch, sent, job := monitor.Tick(at0801);
    assert branch == SkipAlreadySent && !sent && job == None;
    assert monitor.lastSentDay == 19725;
  }
}
