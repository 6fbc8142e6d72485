/**
  How long ev_run (libev-master/ev.c) sleeps and polls.
 */
module Blocking {
  import opened EventLoop
  import opened TimerHeap
  import opened Timers
  import opened Periodics

  const MAX_BLOCKTIME := 59.743

  function Max(a: real, b: real): real {
    if a < b then b else a
  }

  // The time left before a deadline of any armed timer or periodic.
  ghost predicate TimeLeft(t: real, timers: TimerLoop, periodics: PeriodicLoop)
    requires timers.HeapOk() && periodics.Valid()
    reads timers, timers.timers, timers.all, periodics, periodics.periodics, periodics.all, periodics.queues
    reads periodics.queues.watchers
  {
    || (exists w :: w in timers.Armed() && t == w.at - timers.mnNow)
    || (exists w :: w in periodics.Armed() && t == w.at - periodics.rtNow)
  }

  /** The least of MAX_BLOCKTIME and the times left before all deadlines. */
  ghost predicate LeastWait(t: real, timers: TimerLoop, periodics: PeriodicLoop)
    requires timers.HeapOk() && periodics.Valid()
    reads timers, timers.timers, timers.all, periodics, periodics.periodics, periodics.all, periodics.queues
    reads periodics.queues.watchers
  {
    && t <= MAX_BLOCKTIME
    && (forall w :: w in timers.Armed() ==> t <= w.at - timers.mnNow)
    && (forall w :: w in periodics.Armed() ==> t <= w.at - periodics.rtNow)
    && (t == MAX_BLOCKTIME || TimeLeft(t, timers, periodics))
  }

  // How long the loop may sleep before it polls: no longer than what is left of io_blocktime, and
  // so that backend_mintime of the whole `wait` is left.
  predicate MaySleep(t: real, wait: real, ioBlocktime: real, elapsed: real, backendMintime: real) {
    ioBlocktime != 0.0 && t > 0.0 && t <= ioBlocktime - elapsed && t <= wait - backendMintime
  }

  // The longest time that the loop may sleep, or zero if it may not sleep.
  ghost predicate LongestSleep(slept: real, wait: real, ioBlocktime: real, elapsed: real, backendMintime: real) {
    && (slept == 0.0 || MaySleep(slept, wait, ioBlocktime, elapsed, backendMintime))
    && forall t: real :: MaySleep(t, wait, ioBlocktime, elapsed, backendMintime) ==> t <= slept
  }

  /** The part of ev_run that computes the poll timeout, `waittime`, and how long to sleep
      before polling. */
  method BlockingTime(timers: TimerLoop, periodics: PeriodicLoop, nowait: bool, idleall: nat, activecnt: int, skipped: bool,
                      timeoutBlocktime: real, backendMintime: real, ioBlocktime: real, prevMnNow: real)
    returns (waittime: real, slept: real, ghost least: real)
    requires timers.HeapOk() && periodics.Valid()
    ensures nowait || idleall > 0 || activecnt == 0 || skipped ==> waittime == slept == 0.0
    ensures !nowait && idleall == 0 && activecnt != 0 && !skipped ==>
              && LeastWait(least, timers, periodics)
              && slept + waittime == Max(Max(least, timeoutBlocktime), backendMintime)
              && waittime >= backendMintime && slept >= 0.0
              && LongestSleep(slept, slept + waittime, ioBlocktime, timers.mnNow - prevMnNow, backendMintime)
  {
    waittime, slept, least := 0.0, 0.0, 0.0;
    if !(nowait || idleall > 0 || activecnt == 0 || skipped) {
      waittime := MAX_BLOCKTIME;
      if timers.timercnt != 0 {
        RootIsEarliest(timers.timers[..], timers.timercnt);
        var to := timers.timers[HEAP0].at - timers.mnNow;
        if waittime > to {
          waittime := to;
        }
      }
      if periodics.periodiccnt != 0 {
        RootIsEarliest(periodics.periodics[..], periodics.periodiccnt);
        var to := periodics.periodics[HEAP0].at - periodics.rtNow;
        if waittime > to {
          waittime := to;
        }
      }
      least := waittime;
      if waittime < timeoutBlocktime {
        waittime := timeoutBlocktime;
      }
      if waittime < backendMintime {
        waittime := backendMintime;
      }
      if ioBlocktime != 0.0 {
        var sleeptime := ioBlocktime - (timers.mnNow - prevMnNow);
        if sleeptime > waittime - backendMintime {
          sleeptime := waittime - backendMintime;
        }
        if sleeptime > 0.0 {
          slept := sleeptime;
          waittime := waittime - sleeptime;
        }
      }
    }
  }
}
