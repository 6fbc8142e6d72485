/**
  libev's periodic timers (libev-master/ev.c): starting and stopping a periodic, and
  periodics_reify and periodics_reschedule over the heap of periodics.  What the reschedule
  callbacks return is an input: `answers` maps each watcher that has such a callback to the
  time the callback now returns.
 */
module Periodics {
  import opened Wrappers
  import opened EventLoop
  import opened TimerHeap
  import opened PendingQueues
  import opened Growth
  import opened PeriodicTimes

  const ENTRY_SIZE := 16  // sizeof (ANHE)

  // What periodic_recalc may set a deadline to.
  ghost predicate NextDue(at: real, w: Watcher, now: real)
    reads w`offset, w`interval
    ensures NextDue(at, w, now) ==> at > now
  {
    && now < at <= now + w.interval
    && w.interval > 0.0
    && LeastBeyond(at, StartPoint(w.offset, w.interval, now), w.interval, now)
  }

  /** Whether a periodic stays in the heap when it comes due. */
  ghost predicate Recurs(w: Watcher, answers: map<Watcher, real>)
    reads w`interval
  {
    w in answers || w.interval != 0.0
  }

  /** The deadline w gets when it comes due at `now`, if it had deadline `was`. */
  ghost predicate DueAgain(at: real, was: real, w: Watcher, answers: map<Watcher, real>, now: real)
    reads w`offset, w`interval
  {
    if w in answers then at == answers[w]
    else if w.interval != 0.0 then NextDue(at, w, now)
    else at == was
  }

  /** The documented deadlines: the callback's answer if there is a callback; the first
      offset + n * interval beyond now for any interval of at least 1/8192 second, and some time
      within an interval for a shorter one; and otherwise the old deadline. */
  lemma DeadlinesAreAsDocumented(at: real, was: real, w: Watcher, answers: map<Watcher, real>, now: real)
    requires DueAgain(at, was, w, answers, now)
    ensures w in answers ==> at == answers[w]
    ensures w !in answers && w.interval >= MIN_INTERVAL ==>
              && at > now
              && (exists n: int :: at == Point(w.offset, w.interval, n))
              && (forall n: int :: Point(w.offset, w.interval, n) > now ==> at <= Point(w.offset, w.interval, n))
    ensures w !in answers && 0.0 < w.interval ==> now < at <= now + w.interval
    ensures w !in answers && w.interval == 0.0 ==> at == was
  {
    if w !in answers && w.interval >= MIN_INTERVAL {
      LongIntervals(w.offset, w.interval, now);
      RecalculatedOnGrid(at, w.offset, w.interval, now);
    }
  }

  class PeriodicLoop {
    var periodics: array<Entry>
    var periodiccnt: nat
    var rtNow: real
    var activecnt: int
    var answers: map<Watcher, real>
    const queues: Queues
    ghost const all: set<Watcher>  // every periodic watcher there is

    ghost function Armed(): set<Watcher>
      requires Fits(periodics[..], periodiccnt)
      reads `periodics, `periodiccnt, periodics
    {
      Watchers(periodics[..], periodiccnt)
    }

    ghost function Deadlines(): map<Watcher, real>
      requires Fits(periodics[..], periodiccnt)
      reads `periodics, `periodiccnt, periodics, Armed()`at
    {
      map w | w in Armed() :: w.at
    }

    ghost predicate WatcherOk(w: Watcher)
      requires Fits(periodics[..], periodiccnt)
      reads `periodics, `periodiccnt, periodics, w`active, w`priority
    {
      && (w.active != 0 <==> w in Armed())
      && (w in Armed() ==> PriorityInRange(w))
    }

    // The active watchers, or references, that activecnt counts besides the armed ones.
    ghost function Others(): int
      requires Fits(periodics[..], periodiccnt)
      reads `periodics, `periodiccnt, `activecnt, periodics
    {
      activecnt - |Armed()|
    }

    ghost predicate Valid()
      reads `periodics, `periodiccnt, periodics, all`active, all`priority
      reads queues, queues.watchers`pending, queues.watchers`priority
      reads if Fits(periodics[..], periodiccnt) then Armed() else {}
      ensures Valid() ==> Fits(periodics[..], periodiccnt)
    {
      && queues.Valid() && all <= queues.watchers
      && Fits(periodics[..], periodiccnt) && IsHeap(periodics[..], periodiccnt) && Armed() <= all
      && (forall w :: w in all ==> WatcherOk(w))
      && (forall w :: w in queues.rfeeds ==> PriorityInRange(w))
    }

    constructor (queues: Queues, ghost all: set<Watcher>, now: real)
      requires queues.Valid() && queues.rfeeds == [] && all <= queues.watchers
      requires forall w :: w in all ==> w.active == 0
      ensures Valid() && Armed() == {} && fresh(periodics)
    {
      periodics := new Entry[0];
      periodiccnt, rtNow, activecnt, answers := 0, now, 0, map[];
      this.queues, this.all := queues, all;
    }

    /** periodic_recalc */
    method PeriodicRecalc(w: Watcher)
      requires w.interval > 0.0
      modifies w`at
      ensures NextDue(w.at, w, rtNow) && w.at > rtNow
    {
      w.at := NextDeadline(w.offset, w.interval, rtNow);
    }

    // The reschedule callback's answer, the next point of the grid, or, for a periodic that
    // has neither, `once`.
    method Reschedule(w: Watcher, once: real)
      requires w !in answers ==> w.interval >= 0.0
      modifies w`at
      ensures DueAgain(w.at, once, w, answers, rtNow)
      ensures w !in answers && w.interval != 0.0 ==> w.at > rtNow
    {
      if w in answers {
        w.at := answers[w];
      } else if w.interval != 0.0 {
        PeriodicRecalc(w);
      } else {
        w.at := once;
      }
    }

    /** ev_periodic_start */
    method PeriodicStart(w: Watcher)
      requires Valid() && w in all && (w !in answers ==> w.interval >= 0.0)
      modifies `periodics, `periodiccnt, `activecnt, periodics, all`active, w`at, w`priority
      ensures Valid() && (periodics == old(periodics) || fresh(periodics))
      ensures Armed() == old(Armed()) + {w} && w.active != 0
      ensures Others() == old(Others())
      ensures old(w.active) != 0 ==> w.at == old(w.at)
      ensures old(w.active) == 0 ==> DueAgain(w.at, w.offset, w, answers, rtNow)
      ensures old(PriorityInRange(w)) ==> w.priority == old(w.priority)
    {
      hide Others, IsHeap, Watchers, Queues.Valid, DueAgain;
      assert WatcherOk(w);
      queues.PendingInRange();
      if w.active != 0 {
        return;
      }
      Reschedule(w, w.offset);
      Arm(w);
      queues.IdlePriority(w);
    }

    // The part of ev_periodic_start that puts w into the heap.
    method Arm(w: Watcher)
      requires Fits(periodics[..], periodiccnt) && IsHeap(periodics[..], periodiccnt) && w !in Armed()
      modifies `periodics, `periodiccnt, `activecnt, periodics, Armed()`active, w`active, w`priority
      ensures Fits(periodics[..], periodiccnt) && IsHeap(periodics[..], periodiccnt)
      ensures Armed() == old(Armed()) + {w} && Others() == old(Others())
      ensures periodics == old(periodics) || fresh(periodics)
      ensures forall u :: u in Armed() ==> u.active != 0
      ensures PriorityInRange(w) && (old(PriorityInRange(w)) ==> w.priority == old(w.priority))
    {
      hide IsHeap;
      periodiccnt := periodiccnt + 1;
      StartWatcher(w, periodiccnt + HEAP0 - 1);
      activecnt := activecnt + 1;
      Insert(w);
      ActiveInHeap();
    }

    // Make room for w in the heap and put it there.
    method Insert(w: Watcher)
      requires periodiccnt > 0 && Fits(periodics[..], periodiccnt - 1) && IsHeap(periodics[..], periodiccnt - 1)
      requires w !in Watchers(periodics[..], periodiccnt - 1) && w.active == periodiccnt - 1 + HEAP0
      modifies `periodics, periodics, Watchers(periodics[..], periodiccnt - 1)`active, w`active
      ensures Fits(periodics[..], periodiccnt) && IsHeap(periodics[..], periodiccnt)
      ensures Armed() == old(Watchers(periodics[..], periodiccnt - 1)) + {w}
      ensures periodics == old(periodics) || fresh(periodics)
    {
      hide IsHeap;
      ghost var h := periodics[..];
      periodics := NeedSize(ENTRY_SIZE, periodics, w.active + 1, Entry(w.at, w));
      GrownHeap(h, periodics[..], periodiccnt - 1);
      HeapAdd(periodics, periodiccnt - 1, w);
    }

    lemma ActiveInHeap()
      requires Fits(periodics[..], periodiccnt) && IsHeap(periodics[..], periodiccnt)
      ensures forall w :: w in Armed() ==> w.active != 0
    {}

    /** ev_periodic_stop */
    method PeriodicStop(w: Watcher)
      requires Valid() && w in all
      modifies `periodiccnt, `activecnt, periodics, all`active
      modifies queues`pendings, queues`trace, w`pending
      ensures Valid()
      ensures Armed() == old(Armed()) - {w} && w.active == 0
      ensures Others() == old(Others())
      ensures w.pending == 0 && queues.trace == old(queues.trace) + [Cleared(w)]
      ensures old(w.pending) == 0 ==> queues.pendings == old(queues.pendings)
    {
      hide Others, IsHeap, Watchers, Queues.Valid;
      assert WatcherOk(w);
      var _ := queues.ClearPending(w);
      if w.active == 0 {
        return;
      }
      Disarm(w);
    }

    // The part of ev_periodic_stop that takes w out of the heap.
    method Disarm(w: Watcher)
      requires Fits(periodics[..], periodiccnt) && IsHeap(periodics[..], periodiccnt) && w in Armed()
      modifies `periodiccnt, `activecnt, periodics, Armed()`active
      ensures Fits(periodics[..], periodiccnt) && IsHeap(periodics[..], periodiccnt)
      ensures Armed() == old(Armed()) - {w} && Others() == old(Others())
      ensures w.active == 0 && forall u :: u in Armed() ==> u.active != 0
    {
      hide Ordered, Distinct;
      periodiccnt := periodiccnt - 1;
      HeapDrop(periodics, periodiccnt + 1, w);
      activecnt := activecnt - 1;
      w.active := 0;
      ActiveInHeap();
    }

    /** ev_periodic_again */
    method PeriodicAgain(w: Watcher)
      requires Valid() && w in all && (w !in answers ==> w.interval >= 0.0)
      modifies `periodics, `periodiccnt, `activecnt, periodics, all`active, w`at, w`priority
      modifies queues`pendings, queues`trace, w`pending
      ensures Valid() && (periodics == old(periodics) || fresh(periodics))
      ensures Armed() == old(Armed()) + {w} && w.active != 0 && w.pending == 0
      ensures Others() == old(Others())
      ensures DueAgain(w.at, w.offset, w, answers, rtNow)
    {
      hide Others, Valid, Watchers, DueAgain;
      PeriodicStop(w);
      PeriodicStart(w);
    }

    // ---------- Expiry ----------

    // The part of periodics_reify that moves the root, w, away from the root.
    method RekeyRoot(w: Watcher)
      requires Fits(periodics[..], periodiccnt) && IsHeap(periodics[..], periodiccnt)
      requires periodiccnt > 0 && periodics[HEAP0].w == w && periodics[HEAP0].at < rtNow
      requires Recurs(w, answers)
      requires if w in answers then answers[w] >= rtNow else w.interval >= 0.0
      modifies periodics, Armed()`active, w`at
      ensures Fits(periodics[..], periodiccnt) && IsHeap(periodics[..], periodiccnt)
      ensures Armed() == old(Armed()) && Others() == old(Others())
      ensures DueAgain(w.at, old(w.at), w, answers, rtNow)
    {
      hide Ordered, Distinct, NextDue;
      Reschedule(w, w.at);
      assert w.at >= rtNow;
      HeapRekeyRoot(periodics, periodiccnt, w);
    }

    // What periodics_reify asks of the callbacks and of the intervals.
    ghost predicate AnswersOk()
      reads `rtNow, `answers, all`interval
    {
      && (forall w :: w in answers ==> answers[w] >= rtNow)
      && (forall w :: w in all && w !in answers ==> w.interval >= 0.0)
    }

    /** The body of periodics_reify's inner loop. */
    method Expire() returns (w: Watcher)
      requires Valid() && AnswersOk() && periodiccnt > 0 && periodics[HEAP0].at < rtNow
      modifies `periodiccnt, `activecnt, periodics, all`active, all`at
      modifies queues`pendings, queues`trace, queues`rfeeds, all`pending
      ensures Valid() && queues.rfeeds == old(queues.rfeeds) + [w]
      ensures w in all
      ensures w in old(Armed()) && old(w.at) < rtNow && forall u :: u in old(Armed()) ==> old(w.at) <= old(u.at)
      ensures forall u :: u in all && u != w ==> u.at == old(u.at)
      ensures Others() == old(Others())
      ensures DueAgain(w.at, old(w.at), w, answers, rtNow)
      ensures Armed() == if Recurs(w, answers) then old(Armed()) else old(Armed()) - {w}
      ensures queues.trace == old(queues.trace) + if Recurs(w, answers) then [] else [Cleared(w)]
    {
      hide Others, IsHeap, Queues.Valid, NextDue;
      RootIsEarliest(periodics[..], periodiccnt);
      w := periodics[HEAP0].w;
      assert WatcherOk(w);
      // the source's two branches for recurring periodics differ in Reschedule only
      if w in answers || w.interval != 0.0 {
        RekeyRoot(w);
        ActiveInHeap();
      } else {
        PeriodicStop(w);
      }
      queues.FeedReverse(w);
    }

    /** When the periodics `fired` have come due, in this order, of those in at0, which were
        armed with these deadlines before. */
    ghost predicate Outcome(at0: map<Watcher, real>, fired: seq<Watcher>)
      requires Fits(periodics[..], periodiccnt)
      reads `periodics, `periodiccnt, `rtNow, `answers, periodics, at0.Keys`at, at0.Keys`interval, at0.Keys`offset
    {
      && (forall w :: w in fired ==> w in at0 && at0[w] < rtNow)
      && (forall i, j :: 0 <= i < j < |fired| ==> fired[i] != fired[j] && at0[fired[i]] <= at0[fired[j]])
      && (forall w, i :: w in at0 && w !in fired && 0 <= i < |fired| ==> at0[fired[i]] <= at0[w])
      && Armed() == (set w | w in at0 && (w in fired ==> Recurs(w, answers)))
      && (forall w :: w in at0 ==>
            if w !in fired then w.at == at0[w] else DueAgain(w.at, at0[w], w, answers, rtNow))
    }

    // The earliest periodic comes due next.
    twostate lemma ExpiredNext(at0: map<Watcher, real>)
      requires old(Valid()) && Valid() && rtNow == old(rtNow) && answers == old(answers) && AnswersOk()
      requires queues.rfeeds != [] && old(queues.rfeeds) == queues.rfeeds[..|queues.rfeeds| - 1]
      requires old(Outcome(at0, queues.rfeeds)) && at0.Keys <= all
      requires forall u :: u in all ==> u.interval == old(u.interval) && u.offset == old(u.offset)
      requires var w := queues.rfeeds[|queues.rfeeds| - 1];
               && w in all && w in old(Armed()) && old(w.at) < rtNow
               && (forall u :: u in old(Armed()) ==> old(w.at) <= old(u.at))
               && (forall u :: u in all && u != w ==> u.at == old(u.at))
               && DueAgain(w.at, old(w.at), w, answers, rtNow)
               && Armed() == if Recurs(w, answers) then old(Armed()) else old(Armed()) - {w}
      ensures var w := queues.rfeeds[|queues.rfeeds| - 1]; w in at0 && w !in old(queues.rfeeds)
      ensures Outcome(at0, queues.rfeeds)
    {
      hide Watchers, Valid, NextDue;
      var fired, w := old(queues.rfeeds), queues.rfeeds[|queues.rfeeds| - 1];
      assert queues.rfeeds == fired + [w];
      assert forall u :: u in fired + [w] <==> u in fired || u == w;
      assert w in at0 && w !in fired;
    }

    // Stopping periodics that do not recur clears whatever they were pending for.
    ghost function Clears(fired: seq<Watcher>): seq<Happening>
      reads `answers, (set w | w in fired)`interval
      decreases |fired|
    {
      if fired == [] then []
      else
        var w := fired[|fired| - 1];
        Clears(fired[..|fired| - 1]) + if Recurs(w, answers) then [] else [Cleared(w)]
    }

    lemma ClearsNext(trace: seq<Happening>, fired: seq<Watcher>, w: Watcher)
      ensures trace + Clears(fired + [w])
           == trace + Clears(fired) + if Recurs(w, answers) then [] else [Cleared(w)]
    {
      assert (fired + [w])[..|fired|] == fired;
    }

    // The number of periodics that have not come due yet.
    ghost function Left(at0: map<Watcher, real>): nat
      reads queues`rfeeds
    {
      |at0.Keys - (set w | w in queues.rfeeds)|
    }

    // The body of the inner loop of periodics_reify, and what it adds to what the loop has done.
    method ExpireNext(ghost at0: map<Watcher, real>, ghost trace: seq<Happening>)
      requires Valid() && AnswersOk() && periodiccnt > 0 && periodics[HEAP0].at < rtNow
      requires at0.Keys <= all && Outcome(at0, queues.rfeeds)
      requires queues.trace == trace + Clears(queues.rfeeds)
      modifies `periodiccnt, `activecnt, periodics, all`active, all`at
      modifies queues`pendings, queues`trace, queues`rfeeds, all`pending
      ensures Valid() && Outcome(at0, queues.rfeeds)
      ensures queues.trace == trace + Clears(queues.rfeeds)
      ensures Others() == old(Others())
      ensures periodiccnt == 0 || periodiccnt + HEAP0 <= periodics.Length
      ensures queues.rfeeds != [] && Left(at0) < old(Left(at0))
    {
      hide Others, Valid, Outcome, Watchers, DueAgain, Recurs, AnswersOk, Left, Clears;
      ghost var fired := queues.rfeeds;
      var w := Expire();
      ExpiredNext(at0);
      ClearsNext(trace, fired, w);
      Unfold();
      OneLess(at0, w);
    }

    twostate lemma OneLess(at0: map<Watcher, real>, new w: Watcher)
      requires queues.rfeeds == old(queues.rfeeds) + [w] && w in at0 && w !in old(queues.rfeeds)
      ensures Left(at0) < old(Left(at0))
    {
      assert at0.Keys - (set u | u in queues.rfeeds) == at0.Keys - (set u | u in old(queues.rfeeds)) - {w};
    }

    lemma Unfold()
      requires Valid()
      ensures periodiccnt == 0 || periodiccnt + HEAP0 <= periodics.Length
      ensures Armed() <= all <= queues.watchers
    {}

    // The inner do-while loop of periodics_reify.
    method ExpireLoop(ghost at0: map<Watcher, real>)
      requires Valid() && AnswersOk() && periodiccnt > 0 && periodics[HEAP0].at < rtNow
      requires queues.rfeeds == [] && at0.Keys <= all && Outcome(at0, [])
      modifies `periodiccnt, `activecnt, periodics, all`active, all`at
      modifies queues`pendings, queues`trace, queues`rfeeds, all`pending
      ensures Valid() && Outcome(at0, queues.rfeeds)
      ensures queues.trace == old(queues.trace) + Clears(queues.rfeeds)
      ensures periodiccnt == 0 || (periodiccnt + HEAP0 <= periodics.Length && periodics[HEAP0].at >= rtNow)
      ensures queues.rfeeds != []
      ensures Others() == old(Others())
    {
      hide Others, Valid, Outcome, Watchers, Left;
      Unfold();
      while periodiccnt != 0 && periodics[HEAP0].at < rtNow
        invariant Valid() && Outcome(at0, queues.rfeeds)
        invariant queues.trace == old(queues.trace) + Clears(queues.rfeeds)
        invariant Others() == old(Others())
        invariant periodiccnt == 0 || periodiccnt + HEAP0 <= periodics.Length
        invariant queues.rfeeds == [] ==> periodiccnt != 0 && periodics[HEAP0].at < rtNow
        decreases Left(at0)
      {
        ExpireNext(at0, old(queues.trace));
      }
    }

    lemma NoneOverdue()
      requires Valid()
      requires periodiccnt == 0 || (periodiccnt + HEAP0 <= periodics.Length && periodics[HEAP0].at >= rtNow)
      ensures forall w :: w in Armed() ==> w.at >= rtNow
    {
      if periodiccnt != 0 {
        RootIsEarliest(periodics[..], periodiccnt);
      }
    }

    // When nothing armed is overdue, the fired periodics are all those that were.
    lemma ExactlyTheOverdue(at0: map<Watcher, real>, fired: seq<Watcher>)
      requires Fits(periodics[..], periodiccnt) && Outcome(at0, fired)
      requires forall w :: w in Armed() ==> w.at >= rtNow
      ensures AreOverdue(fired, at0, rtNow) && SortedBy(fired, at0)
    {
      assert Armed() == set w | w in at0 && (w in fired ==> Recurs(w, answers));
    }

    lemma NothingFired(at0: map<Watcher, real>)
      requires Valid() && at0 == Deadlines()
      ensures Outcome(at0, []) && at0.Keys <= all
    {}

    // feed_reverse_done, for periodics_reify.
    method Settle()
      requires Valid() && queues.rfeeds != []
      modifies queues`pendings, queues`pendingpri, queues`trace, queues`rfeeds, queues.watchers`pending
      ensures Valid() && queues.rfeeds == []
      ensures queues.trace == old(queues.trace) + FedBackwards(old(queues.rfeeds), {PeriodicBit})
    {
      hide Queues.Valid, IsHeap, Watchers;
      assert forall w :: w in queues.rfeeds ==> PriorityInRange(w);
      queues.FeedReverseDone({PeriodicBit});
    }

    // The body of the outer loop of periodics_reify.
    method ReifyRound(ghost at0: map<Watcher, real>) returns (ghost fired: seq<Watcher>)
      requires Valid() && AnswersOk() && periodiccnt > 0 && periodics[HEAP0].at < rtNow
      requires queues.rfeeds == [] && at0.Keys <= all && Outcome(at0, [])
      modifies `periodiccnt, `activecnt, periodics, all`active, all`at
      modifies queues`pendings, queues`pendingpri, queues`trace, queues`rfeeds, queues.watchers`pending
      ensures Valid() && queues.rfeeds == [] && Outcome(at0, fired)
      ensures queues.trace == old(queues.trace) + Clears(fired) + FedBackwards(fired, {PeriodicBit})
      ensures periodiccnt == 0 || (periodiccnt + HEAP0 <= periodics.Length && periodics[HEAP0].at >= rtNow)
      ensures Others() == old(Others())
    {
      hide Others, Valid, Outcome, Watchers, Clears, FedBackwards;
      Unfold();
      ExpireLoop(at0);
      fired := queues.rfeeds;
      Settle();
    }

    // The outer loop of periodics_reify, which runs at most once.
    method ReifyLoop(ghost at0: map<Watcher, real>) returns (ghost fired: seq<Watcher>)
      requires Valid() && AnswersOk() && queues.rfeeds == [] && at0.Keys <= all && Outcome(at0, [])
      modifies `periodiccnt, `activecnt, periodics, all`active, all`at
      modifies queues`pendings, queues`pendingpri, queues`trace, queues`rfeeds, queues.watchers`pending
      ensures Valid() && queues.rfeeds == [] && Outcome(at0, fired)
      ensures periodiccnt == 0 || (periodiccnt + HEAP0 <= periodics.Length && periodics[HEAP0].at >= rtNow)
      ensures Others() == old(Others())
      ensures queues.trace == old(queues.trace) + Clears(fired) + FedBackwards(fired, {PeriodicBit})
    {
      hide Others, Valid, Outcome, Watchers, Clears, FedBackwards, AnswersOk;
      NothingFed();
      Unfold();
      fired := [];
      ghost var done := false;
      while periodiccnt != 0 && periodics[HEAP0].at < rtNow
        invariant Valid() && queues.rfeeds == [] && Outcome(at0, fired)
        invariant queues.trace == old(queues.trace) + Clears(fired) + FedBackwards(fired, {PeriodicBit})
        invariant Others() == old(Others())
        invariant periodiccnt == 0 || periodiccnt + HEAP0 <= periodics.Length
        invariant if done then periodiccnt == 0 || periodics[HEAP0].at >= rtNow else fired == []
        invariant !done ==> AnswersOk() && queues.trace == old(queues.trace)
        decreases !done
      {
        fired := ReifyRound(at0);
        done := true;
      }
    }

    lemma NothingFed()
      ensures queues.trace == queues.trace + Clears([]) + FedBackwards([], {PeriodicBit})
    {}

    /** periodics_reify: every overdue periodic comes due once, in the order of the deadlines,
        and afterwards none is overdue. */
    method PeriodicsReify() returns (ghost fired: seq<Watcher>)
      requires Valid() && AnswersOk() && queues.rfeeds == []
      modifies `periodiccnt, `activecnt, periodics, all`active, all`at
      modifies queues`pendings, queues`pendingpri, queues`trace, queues`rfeeds, queues.watchers`pending
      ensures Valid() && queues.rfeeds == []
      ensures Outcome(old(Deadlines()), fired) && SortedBy(fired, old(Deadlines()))
      ensures AreOverdue(fired, old(Deadlines()), rtNow)
      // the overdue ones come due, and of them those with a callback or an interval stay armed
      ensures forall w :: w in old(Armed()) ==> (w in fired <==> old(w.at) < rtNow)
      ensures forall w :: w in fired ==> (w in Armed() <==> w in answers || w.interval != 0.0)
      ensures forall w :: w in Armed() ==> w.at >= rtNow
      ensures Others() == old(Others())
      ensures queues.trace == old(queues.trace) + Clears(fired) + FedBackwards(fired, {PeriodicBit})
    {
      ghost var at0 := Deadlines();
      hide Others, Valid, Outcome, Watchers, SortedBy, AreOverdue, Clears, FedBackwards;
      NothingFired(at0);
      fired := ReifyLoop(at0);
      NoneOverdue();
      ExactlyTheOverdue(at0, fired);
      StayArmed(at0, fired);
    }

    lemma StayArmed(at0: map<Watcher, real>, fired: seq<Watcher>)
      requires Fits(periodics[..], periodiccnt) && Outcome(at0, fired) && AreOverdue(fired, at0, rtNow)
      ensures forall w :: w in at0 ==> (w in fired <==> at0[w] < rtNow)
      ensures forall w :: w in fired ==> (w in Armed() <==> w in answers || w.interval != 0.0)
    {
      hide Watchers, DueAgain;
    }

    // ---------- Time jumps ----------

    // The entries below `done` have been recalculated and the others not.
    ghost predicate Recalculated(at0: map<Watcher, real>, h0: seq<Entry>, done: nat)
      requires Fits(periodics[..], periodiccnt)
      reads `periodics, `periodiccnt, periodics, `answers, `rtNow
      reads Armed()`active, Armed()`at, Armed()`offset, Armed()`interval
    {
      && |h0| == periodics.Length
      && Distinct(periodics[..], periodiccnt) && Indexed(periodics[..], periodiccnt, -1)
      && Armed() <= at0.Keys
      && forall i :: HEAP0 <= i < periodiccnt + HEAP0 ==>
           var w := periodics[i].w;
           && w == h0[i].w
           && periodics[i].at == w.at
           && if i < done then DueAgain(w.at, at0[w], w, answers, rtNow) else w.at == at0[w]
    }

    // The body of the loop of periodics_reschedule.
    method RescheduleOne(i: nat, ghost at0: map<Watcher, real>, ghost h0: seq<Entry>)
      requires HEAP0 <= i < periodiccnt + HEAP0 <= periodics.Length
      requires Recalculated(at0, h0, i)
      requires periodics[i].w !in answers ==> periodics[i].w.interval >= 0.0
      modifies periodics, periodics[i].w`at
      ensures Recalculated(at0, h0, i + 1) && Armed() == old(Armed())
    {
      hide DueAgain;
      var w := periodics[i].w;
      Reschedule(w, w.at);
      periodics[i] := Entry(w.at, w);
      RekeyWatcher(old(periodics[..]), periodiccnt, i, Entry(w.at, w));
      assert periodics[..] == old(periodics[..])[i := Entry(w.at, w)];
    }

    /** periodics_reschedule: after a jump of the clock every periodic's deadline is computed
        anew, and the heap rebuilt. */
    method PeriodicsReschedule()
      requires Valid() && forall w :: w in all && w !in answers ==> w.interval >= 0.0
      modifies periodics, all`active, all`at
      ensures Valid() && Armed() == old(Armed())
      ensures forall w :: w in Armed() ==> DueAgain(w.at, old(Deadlines())[w], w, answers, rtNow)
    {
      hide Queues.Valid, DueAgain, Watchers, IsHeap;
      FirstRecalculated();
      ghost var (at0, h0) := (Deadlines(), periodics[..]);
      var i := HEAP0;
      while i < periodiccnt + HEAP0
        invariant HEAP0 <= i <= periodiccnt + HEAP0
        invariant Recalculated(at0, h0, i) && Armed() == old(Armed())
        invariant forall w :: w in all ==> w.active == old(w.active)
      {
        InWatchers(periodics[..], periodiccnt, i);
        RescheduleOne(i, at0, h0);
        i := i + 1;
      }
      AllRecalculated(at0, h0);
      Rebuild();
    }

    lemma FirstRecalculated()
      requires Fits(periodics[..], periodiccnt) && IsHeap(periodics[..], periodiccnt)
      ensures Recalculated(Deadlines(), periodics[..], HEAP0)
    {}

    lemma AllRecalculated(at0: map<Watcher, real>, h0: seq<Entry>)
      requires Fits(periodics[..], periodiccnt) && Recalculated(at0, h0, periodiccnt + HEAP0)
      ensures Cached(periodics[..], periodiccnt, {})
      ensures forall w :: w in Armed() ==> DueAgain(w.at, at0[w], w, answers, rtNow)
    {
      forall w | w in Armed() ensures DueAgain(w.at, at0[w], w, answers, rtNow) {
        var i :| HEAP0 <= i < periodiccnt + HEAP0 && periodics[i].w == w;
      }
    }

    // The call of reheap.
    method Rebuild()
      requires Fits(periodics[..], periodiccnt) && Distinct(periodics[..], periodiccnt)
      requires Indexed(periodics[..], periodiccnt, -1) && Cached(periodics[..], periodiccnt, {})
      modifies periodics, Armed()`active
      ensures Fits(periodics[..], periodiccnt) && IsHeap(periodics[..], periodiccnt)
      ensures Armed() == old(Armed()) && forall w :: w in Armed() ==> w.active != 0
    {
      if periodiccnt > 0 {
        ghost var h := periodics[..];
        Reheap(periodics, periodiccnt);
        RearrangedCached(h, periodics[..], periodiccnt);
      }
      ActiveInHeap();
    }
  }
}
