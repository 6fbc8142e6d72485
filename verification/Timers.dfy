/**
  libev's relative timers (libev-master/ev.c): starting, stopping and restarting a timer, and
  timers_reify, which takes every overdue timer out of the heap and feeds it to the pending
  queues.
 */
module Timers {
  import opened Wrappers
  import opened EventLoop
  import opened TimerHeap
  import opened PendingQueues
  import opened Growth

  const ENTRY_SIZE := 16  // sizeof (ANHE)

  // The deadline a repeating timer gets when it expires at `now`.
  function Rescheduled(at: real, repeat: real, now: real): real {
    if at + repeat < now then now else at + repeat
  }

  class TimerLoop {
    var timers: array<Entry>
    var timercnt: nat
    var mnNow: real
    var activecnt: int
    const queues: Queues
    ghost const all: set<Watcher>  // every timer watcher there is

    ghost function Armed(): set<Watcher>
      requires Fits(timers[..], timercnt)
      reads `timers, `timercnt, timers
    {
      Watchers(timers[..], timercnt)
    }

    // The parts of a watcher that the heap relies on.
    ghost predicate WatcherOk(w: Watcher)
      requires Fits(timers[..], timercnt)
      reads `timers, `timercnt, timers, w`active, w`priority, w`repeat
    {
      && (w.active != 0 <==> w in Armed())
      && (w in Armed() ==> w.repeat >= 0.0 && PriorityInRange(w))
    }

    // The active watchers, or references, that activecnt counts besides the armed ones.
    ghost function Others(): int
      requires Fits(timers[..], timercnt)
      reads `timers, `timercnt, `activecnt, timers
    {
      activecnt - |Armed()|
    }

    ghost predicate Valid()
      reads `timers, `timercnt, timers, all`active, all`at, all`priority, all`repeat
      reads queues, queues.watchers`pending, queues.watchers`priority
      ensures Valid() ==> Fits(timers[..], timercnt)
    {
      && queues.Valid() && all <= queues.watchers
      && HeapOk()
      && (forall w :: w in queues.rfeeds ==> PriorityInRange(w))
    }

    ghost predicate HeapOk()
      reads `timers, `timercnt, timers, all`active, all`at, all`priority, all`repeat
      ensures HeapOk() ==> Fits(timers[..], timercnt)
    {
      && Fits(timers[..], timercnt) && Armed() <= all && IsHeap(timers[..], timercnt)
      && (forall w :: w in all ==> WatcherOk(w))
    }

    constructor (queues: Queues, ghost all: set<Watcher>, now: real)
      requires queues.Valid() && queues.rfeeds == [] && all <= queues.watchers
      requires forall w :: w in all ==> w.active == 0
      ensures Valid() && Armed() == {} && fresh(timers)
    {
      timers := new Entry[0];
      timercnt, mnNow, activecnt := 0, now, 0;
      this.queues, this.all := queues, all;
    }

    // The part of ev_timer_start that makes room for w and puts it into the heap.
    method Insert(w: Watcher)
      requires timercnt > 0 && Fits(timers[..], timercnt - 1) && IsHeap(timers[..], timercnt - 1)
      requires w !in Watchers(timers[..], timercnt - 1) && w.active == timercnt - 1 + HEAP0
      modifies `timers, timers, Watchers(timers[..], timercnt - 1)`active, w`active
      ensures Fits(timers[..], timercnt) && IsHeap(timers[..], timercnt)
      ensures Armed() == old(Watchers(timers[..], timercnt - 1)) + {w}
      ensures timers == old(timers) || fresh(timers)
    {
      hide IsHeap;
      ghost var h := timers[..];
      timers := NeedSize(ENTRY_SIZE, timers, w.active + 1, Entry(w.at, w));
      GrownHeap(h, timers[..], timercnt - 1);
      HeapAdd(timers, timercnt - 1, w);
    }

    /** ev_timer_start */
    method TimerStart(w: Watcher)
      requires Valid() && w in all && w.repeat >= 0.0
      modifies `timers, `timercnt, `activecnt, timers, all`active, w`at, w`priority
      ensures Valid() && (timers == old(timers) || fresh(timers))
      ensures Armed() == old(Armed()) + {w} && w.active != 0
      ensures Others() == old(Others())
      ensures w.at == old(w.at) + if old(w.active) != 0 then 0.0 else mnNow
      ensures old(PriorityInRange(w)) ==> w.priority == old(w.priority)
    {
      hide Others, IsHeap, Watchers, Queues.Valid;
      assert WatcherOk(w);
      queues.PendingInRange();
      if w.active != 0 {
        return;
      }
      Arm(w);
      queues.IdlePriority(w);
    }

    // The part of ev_timer_start that puts w into the heap.
    method Arm(w: Watcher)
      requires Fits(timers[..], timercnt) && IsHeap(timers[..], timercnt) && w !in Armed()
      modifies `timers, `timercnt, `activecnt, timers, Armed()`active, w`active, w`at, w`priority
      ensures Fits(timers[..], timercnt) && IsHeap(timers[..], timercnt)
      ensures Armed() == old(Armed()) + {w} && Others() == old(Others())
      ensures timers == old(timers) || fresh(timers)
      ensures forall u :: u in Armed() ==> u.active != 0
      ensures w.at == old(w.at) + mnNow
      ensures PriorityInRange(w) && (old(PriorityInRange(w)) ==> w.priority == old(w.priority))
    {
      hide IsHeap;
      w.at := w.at + mnNow;
      timercnt := timercnt + 1;
      StartWatcher(w, timercnt + HEAP0 - 1);
      activecnt := activecnt + 1;
      Insert(w);
      ActiveInHeap();
    }

    // Entries of the heap have an index, which is not zero.
    lemma ActiveInHeap()
      requires Fits(timers[..], timercnt) && IsHeap(timers[..], timercnt)
      ensures forall w :: w in Armed() ==> w.active != 0
    {}

    /** ev_timer_stop */
    method TimerStop(w: Watcher)
      requires Valid() && w in all
      modifies `timercnt, `activecnt, timers, all`active, w`at
      modifies queues`pendings, queues`trace, w`pending
      ensures Valid()
      ensures Armed() == old(Armed()) - {w} && w.active == 0
      ensures Others() == old(Others())
      ensures w.at == old(w.at) - if old(w.active) != 0 then mnNow else 0.0
      ensures w.pending == 0 && queues.trace == old(queues.trace) + [Cleared(w)]
      ensures old(w.pending) == 0 ==> queues.pendings == old(queues.pendings)
    {
      hide Others, IsHeap, Watchers, Queues.Valid, PriorityInRange, Expected;
      assert WatcherOk(w);
      var _ := queues.ClearPending(w);
      if w.active == 0 {
        return;
      }
      Disarm(w);
    }

    // The part of ev_timer_stop that takes w out of the heap.
    method Disarm(w: Watcher)
      requires Fits(timers[..], timercnt) && IsHeap(timers[..], timercnt) && w in Armed()
      modifies `timercnt, `activecnt, timers, Armed()`active, w`at
      ensures Fits(timers[..], timercnt) && IsHeap(timers[..], timercnt)
      ensures Armed() == old(Armed()) - {w} && Others() == old(Others())
      ensures w.active == 0 && forall u :: u in Armed() ==> u.active != 0
      ensures w.at == old(w.at) - mnNow
    {
      hide Ordered, Distinct;
      timercnt := timercnt - 1;
      HeapDrop(timers, timercnt + 1, w);
      w.at := w.at - mnNow;
      activecnt := activecnt - 1;
      w.active := 0;
      ActiveInHeap();
    }

    /** ev_timer_again */
    method TimerAgain(w: Watcher)
      requires Valid() && w in all && w.repeat >= 0.0
      modifies `timers, `timercnt, `activecnt, timers, all`active, w`at, w`priority
      modifies queues`pendings, queues`trace, w`pending
      ensures Valid() && (timers == old(timers) || fresh(timers))
      ensures w.pending == 0
      ensures queues.trace == old(queues.trace) + [Cleared(w)] +
                if old(w.active) != 0 && w.repeat == 0.0 then [Cleared(w)] else []
      ensures Others() == old(Others())
      ensures w.repeat != 0.0 ==> Armed() == old(Armed()) + {w} && w.at == mnNow + w.repeat
      ensures w.repeat == 0.0 ==> Armed() == old(Armed()) - {w}
                                  && w.at == old(w.at) - if old(w.active) != 0 then mnNow else 0.0
      ensures old(PriorityInRange(w)) ==> w.priority == old(w.priority)
    {
      hide Others, IsHeap, Watchers, Queues.Valid, PriorityInRange, Expected;
      assert WatcherOk(w);
      var _ := queues.ClearPending(w);
      if w.active != 0 {
        if w.repeat != 0.0 {
          Rekey(w, mnNow + w.repeat);
          ActiveInHeap();
        } else {
          TimerStop(w);
        }
      } else if w.repeat != 0.0 {
        w.at := w.repeat;
        TimerStart(w);
      }
    }

    // The part of ev_timer_again that moves w, now due at `at`, within the heap.
    method Rekey(w: Watcher, at: real)
      requires Fits(timers[..], timercnt) && IsHeap(timers[..], timercnt) && w in Armed()
      modifies timers, Armed()`active, w`at
      ensures Fits(timers[..], timercnt) && IsHeap(timers[..], timercnt)
      ensures Armed() == old(Armed()) && Others() == old(Others()) && w.at == at
    {
      hide Ordered, Distinct;
      w.at := at;
      HeapRekey(timers, timercnt, w);
    }

    // ---------- Expiry ----------

    // The part of timers_reify that moves the root, w, away from the root.
    method RekeyRoot(w: Watcher)
      requires Fits(timers[..], timercnt) && IsHeap(timers[..], timercnt)
      requires timercnt > 0 && timers[HEAP0].w == w
      modifies timers, Armed()`active, w`at
      ensures Fits(timers[..], timercnt) && IsHeap(timers[..], timercnt)
      ensures Armed() == old(Armed()) && Others() == old(Others())
      ensures w.at == Rescheduled(old(w.at), w.repeat, mnNow)
    {
      hide Ordered, Distinct;
      w.at := w.at + w.repeat;
      if w.at < mnNow {
        w.at := mnNow;
      }
      HeapRekeyRoot(timers, timercnt, w);
    }

    /** The body of timers_reify's loop. */
    method Expire() returns (w: Watcher)
      requires Valid() && timercnt > 0 && timers[HEAP0].at < mnNow
      modifies `timercnt, `activecnt, timers, all`active, all`at
      modifies queues`pendings, queues`trace, queues`rfeeds, all`pending
      ensures Valid() && queues.rfeeds == old(queues.rfeeds) + [w]
      ensures w in all
      ensures w in old(Armed()) && old(w.at) < mnNow && forall u :: u in old(Armed()) ==> old(w.at) <= old(u.at)
      ensures forall u :: u in all && u != w ==> u.at == old(u.at) && u.pending == old(u.pending)
      ensures Others() == old(Others())
      ensures w.repeat != 0.0 ==>
                && Armed() == old(Armed()) && w.at == Rescheduled(old(w.at), w.repeat, mnNow)
                && (w.at == old(w.at) + w.repeat >= mnNow || w.at == mnNow > old(w.at) + w.repeat)
                && queues.trace == old(queues.trace) && queues.pendings == old(queues.pendings)
                && w.pending == old(w.pending)
      ensures w.repeat == 0.0 ==>
                && Armed() == old(Armed()) - {w} && w.at == old(w.at) - mnNow
                && queues.trace == old(queues.trace) + [Cleared(w)] && w.pending == 0
                && (old(w.pending) == 0 ==> queues.pendings == old(queues.pendings))
    {
      hide Others, IsHeap, Queues.Valid;
      RootIsEarliest(timers[..], timercnt);
      w := timers[HEAP0].w;
      assert WatcherOk(w);
      if w.repeat != 0.0 {
        RekeyRoot(w);
        ActiveInHeap();
      } else {
        TimerStop(w);
      }
      queues.FeedReverse(w);
    }

    ghost function Deadlines(): map<Watcher, real>
      requires Fits(timers[..], timercnt)
      reads `timers, `timercnt, timers, Armed()`at
    {
      map w | w in Armed() :: w.at
    }

    /** When the timers `fired` have expired, in this order, of those in at0, which were armed
        with these deadlines before. */
    ghost predicate Outcome(at0: map<Watcher, real>, fired: seq<Watcher>)
      requires Fits(timers[..], timercnt)
      reads `timers, `timercnt, `mnNow, timers, at0.Keys`at, at0.Keys`repeat
    {
      && (forall w :: w in fired ==> w in at0 && at0[w] < mnNow)
      && (forall i, j :: 0 <= i < j < |fired| ==> fired[i] != fired[j] && at0[fired[i]] <= at0[fired[j]])
      && (forall w, i :: w in at0 && w !in fired && 0 <= i < |fired| ==> at0[fired[i]] <= at0[w])
      && Armed() == (set w | w in at0 && (w in fired ==> w.repeat != 0.0))
      && (forall w :: w in at0 ==>
            w.at == if w !in fired then at0[w]
                    else if w.repeat != 0.0 then Rescheduled(at0[w], w.repeat, mnNow)
                    else at0[w] - mnNow)
    }

    // The earliest timer expires next.
    twostate lemma ExpiredNext(at0: map<Watcher, real>)
      requires old(Valid()) && Valid() && mnNow == old(mnNow)
      requires queues.rfeeds != [] && old(queues.rfeeds) == queues.rfeeds[..|queues.rfeeds| - 1]
      requires old(Outcome(at0, queues.rfeeds)) && at0.Keys <= all
      requires var w := queues.rfeeds[|queues.rfeeds| - 1];
               && w in all && w in old(Armed()) && old(w.at) < mnNow
               && (forall u :: u in old(Armed()) ==> old(w.at) <= old(u.at))
               && (forall u :: u in all ==> u.repeat == old(u.repeat) && (u != w ==> u.at == old(u.at)))
               && (w.repeat != 0.0 ==> Armed() == old(Armed()) && w.at == Rescheduled(old(w.at), w.repeat, mnNow))
               && (w.repeat == 0.0 ==> Armed() == old(Armed()) - {w} && w.at == old(w.at) - mnNow)
      ensures var w := queues.rfeeds[|queues.rfeeds| - 1]; w in at0 && w !in old(queues.rfeeds)
      ensures Outcome(at0, queues.rfeeds)
    {
      hide Watchers, Valid;
      var fired, w := old(queues.rfeeds), queues.rfeeds[|queues.rfeeds| - 1];
      assert queues.rfeeds == fired + [w];
      assert forall u :: u in fired + [w] <==> u in fired || u == w;
      assert w in at0 && w !in fired;
    }

    // Stopping one-shot timers clears whatever they were pending for.
    static ghost function Clears(fired: seq<Watcher>): (r: seq<Happening>)
      reads (set w | w in fired)`repeat
      ensures forall h :: h in r ==> h.w in fired
      decreases |fired|
    {
      if fired == [] then []
      else
        var w := fired[|fired| - 1];
        Clears(fired[..|fired| - 1]) + if w.repeat == 0.0 then [Cleared(w)] else []
    }

    static lemma ClearsNext(trace: seq<Happening>, fired: seq<Watcher>, w: Watcher)
      ensures trace + Clears(fired + [w])
           == trace + Clears(fired) + if w.repeat == 0.0 then [Cleared(w)] else []
    {
      assert (fired + [w])[..|fired|] == fired;
    }

    // What the loop of timers_reify has done to the queues.
    ghost predicate QueuesSoFar(idle: set<Watcher>, trace: seq<Happening>, pendings: seq<seq<Slot>>, fired: seq<Watcher>)
      reads queues`trace, queues`pendings, idle`pending, (set w | w in fired)`repeat
    {
      && queues.trace == trace + Clears(fired)
      && (forall w :: w in idle ==> w.pending == 0)
      && ((forall w :: w in fired ==> w in idle) ==> queues.pendings == pendings)
    }

    // The body of timers_reify's loop, and what it adds to what the loop has done.
    method ExpireNext(ghost at0: map<Watcher, real>, ghost idle: set<Watcher>,
                      ghost trace: seq<Happening>, ghost pendings: seq<seq<Slot>>)
      requires Valid() && timercnt > 0 && timers[HEAP0].at < mnNow
      requires at0.Keys <= all && idle <= all && Outcome(at0, queues.rfeeds)
      requires QueuesSoFar(idle, trace, pendings, queues.rfeeds)
      modifies `timercnt, `activecnt, timers, all`active, all`at
      modifies queues`pendings, queues`trace, queues`rfeeds, all`pending
      ensures Valid() && Outcome(at0, queues.rfeeds)
      ensures QueuesSoFar(idle, trace, pendings, queues.rfeeds)
      ensures forall u :: u in all && u !in at0 ==> u.at == old(u.at)
      ensures Others() == old(Others())
      ensures timercnt == 0 || timercnt + HEAP0 <= timers.Length
      ensures queues.rfeeds != [] && Left(at0) < old(Left(at0))
    {
      hide Others, Valid, Outcome, Watchers, Left, Clears;
      ghost var fired := queues.rfeeds;
      var w := Expire();
      ExpiredNext(at0);
      ClearsNext(trace, fired, w);
      Unfold();
      OneLess(at0, w);
    }

    twostate lemma OneLess(at0: map<Watcher, real>, new w: Watcher)
      requires queues.rfeeds == old(queues.rfeeds) + [w] && w in at0 && w !in old(queues.rfeeds)
      ensures Left(at0) < old(Left(at0))
    {
      assert at0.Keys - (set u | u in queues.rfeeds) == at0.Keys - (set u | u in old(queues.rfeeds)) - {w};
    }

    // The number of timers that have not expired yet.
    ghost function Left(at0: map<Watcher, real>): nat
      reads queues`rfeeds
    {
      |at0.Keys - (set w | w in queues.rfeeds)|
    }

    // The do-while loop of timers_reify.
    method ExpireLoop(ghost at0: map<Watcher, real>, ghost idle: set<Watcher>)
      requires Valid() && queues.rfeeds == [] && at0.Keys <= all && Outcome(at0, [])
      requires timercnt > 0 && timers[HEAP0].at < mnNow
      requires idle <= all && forall w :: w in idle ==> w.pending == 0
      modifies `timercnt, `activecnt, timers, all`active, all`at
      modifies queues`pendings, queues`trace, queues`rfeeds, all`pending
      ensures Valid() && Outcome(at0, queues.rfeeds)
      ensures QueuesSoFar(idle, old(queues.trace), old(queues.pendings), queues.rfeeds)
      ensures timercnt == 0 || (timercnt + HEAP0 <= timers.Length && timers[HEAP0].at >= mnNow)
      ensures queues.rfeeds != []
      ensures forall u :: u in all && u !in at0 ==> u.at == old(u.at)
      ensures Others() == old(Others())
    {
      hide Others, Valid, Outcome, Watchers, Left;
      Unfold();
      while timercnt != 0 && timers[HEAP0].at < mnNow
        invariant Valid() && Outcome(at0, queues.rfeeds)
        invariant QueuesSoFar(idle, old(queues.trace), old(queues.pendings), queues.rfeeds)
        invariant forall u :: u in all && u !in at0 ==> u.at == old(u.at)
        invariant Others() == old(Others())
        invariant timercnt == 0 || timercnt + HEAP0 <= timers.Length
        invariant queues.rfeeds == [] ==> timercnt != 0 && timers[HEAP0].at < mnNow
        decreases Left(at0)
      {
        ExpireNext(at0, idle, old(queues.trace), old(queues.pendings));
      }
    }

    // The same, without naming the idle watchers.
    method ExpireAll(ghost at0: map<Watcher, real>)
      requires Valid() && queues.rfeeds == [] && at0.Keys <= all && Outcome(at0, [])
      requires timercnt > 0 && timers[HEAP0].at < mnNow
      modifies `timercnt, `activecnt, timers, all`active, all`at
      modifies queues`pendings, queues`trace, queues`rfeeds, all`pending
      ensures Valid() && Outcome(at0, queues.rfeeds) && SortedBy(queues.rfeeds, at0)
      ensures timercnt == 0 || (timercnt + HEAP0 <= timers.Length && timers[HEAP0].at >= mnNow)
      ensures queues.rfeeds != []
      ensures forall u :: u in all && u !in at0 ==> u.at == old(u.at)
      ensures Others() == old(Others())
      ensures queues.trace == old(queues.trace) + Clears(queues.rfeeds)
      ensures (forall w :: w in queues.rfeeds ==> old(w.pending) == 0) ==>
                queues.pendings == old(queues.pendings) && queues.FreshFeeds(queues.rfeeds)
    {
      hide Others, Valid, Outcome, Watchers, SortedBy;
      ghost var idle := set w | w in all && w.pending == 0;
      ExpireLoop(at0, idle);
      FiredOnce(at0);
    }

    // The deadline and the repeat value of a timer that is not active may change.
    twostate lemma IdleSet(w: Watcher)
      requires old(Valid()) && w in all && old(w.active) == 0 && unchanged(this, queues)
      requires timers[..] == old(timers[..])
      requires unchanged(queues.watchers`pending, queues.watchers`priority, all`active)
      requires forall u :: u in all && u != w ==> u.at == old(u.at) && u.repeat == old(u.repeat)
      ensures Valid()
    {
      hide IsHeap, Watchers;
      assert forall u :: u in queues.rfeeds ==> u in queues.watchers && old(PriorityInRange(u));
      assert old(WatcherOk(w));
      forall u | u in all ensures WatcherOk(u) {
        assert old(WatcherOk(u));
      }
    }

    lemma TellTimer(w: Watcher)
      requires Valid() && w in all
      ensures w.active != 0 <==> w in Armed()
      ensures Armed() <= all
    {
      assert WatcherOk(w);
    }

    lemma TellOutcome(at0: map<Watcher, real>, fired: seq<Watcher>)
      requires Fits(timers[..], timercnt) && Outcome(at0, fired)
      ensures forall w :: w in fired ==> w in at0
      ensures Armed() <= at0.Keys
    {}

    lemma Unfold()
      requires Valid()
      ensures timercnt == 0 || timercnt + HEAP0 <= timers.Length
      ensures Armed() <= all <= queues.watchers
    {}

    lemma NoneOverdue()
      requires Valid() && (timercnt == 0 || (timercnt + HEAP0 <= timers.Length && timers[HEAP0].at >= mnNow))
      ensures forall w :: w in Armed() ==> w.at >= mnNow
    {
      if timercnt != 0 {
        RootIsEarliest(timers[..], timercnt);
      }
    }

    // When nothing armed is overdue, the fired timers are all those that were.
    lemma ExactlyTheOverdue(at0: map<Watcher, real>, fired: seq<Watcher>)
      requires Fits(timers[..], timercnt) && Outcome(at0, fired)
      requires forall w :: w in Armed() ==> w.at >= mnNow
      ensures AreOverdue(fired, at0, mnNow)
    {
      assert Armed() == set w | w in at0 && (w in fired ==> w.repeat != 0.0);
    }

    lemma FiredInRange()
      requires Valid()
      ensures forall w :: w in queues.rfeeds ==> PriorityInRange(w) && w in queues.watchers
    {
      assert forall w :: w in queues.rfeeds ==> w in queues.watchers;
    }

    /** timers_reify */
    method TimersReify() returns (ghost fired: seq<Watcher>)
      requires Valid() && queues.rfeeds == []
      modifies `timercnt, `activecnt, timers, all`active, all`at
      modifies queues`pendings, queues`pendingpri, queues`trace, queues`rfeeds, queues.watchers`pending
      ensures Valid() && queues.rfeeds == []
      ensures Outcome(old(Deadlines()), fired) && SortedBy(fired, old(Deadlines()))
      ensures AreOverdue(fired, old(Deadlines()), mnNow)
      ensures forall w :: w in Armed() ==> w.at >= mnNow
      ensures forall w :: w in old(Armed()) ==> (w in fired <==> old(w.at) < mnNow)
      ensures forall w :: w in fired ==> (w in Armed() <==> w.repeat != 0.0)
      // a repeating timer is due again one repeat after its deadline, or at once if that is past
      ensures forall w :: w in fired && w.repeat != 0.0 ==>
                && w in Armed() && w.at >= old(w.at) + w.repeat && w.at >= mnNow
                && (w.at == old(w.at) + w.repeat || w.at == mnNow)
      ensures forall u :: u in all && u !in old(Deadlines()) ==> u.at == old(u.at)
      ensures Others() == old(Others())
      ensures queues.trace == old(queues.trace) + Clears(fired) + FedBackwards(fired, {TimerBit})
      ensures (forall w :: w in fired ==> old(w.pending) == 0) ==>
                forall p :: 0 <= p < NUMPRI ==>
                  queues.pendings[p] == old(queues.pendings)[p] + ReversedSlots(fired, p, {TimerBit})
    {
      Unfold();
      ghost var at0 := Deadlines();
      hide Others, Valid, Watchers, Outcome, SortedBy, Deadlines;
      NothingFired(at0);
      if timercnt != 0 && timers[HEAP0].at < mnNow {
        fired := ExpireAndFeed(at0);
      } else {
        fired := [];
      }
      NoneOverdue();
      ExactlyTheOverdue(at0, fired);
      FiredAgain(at0, fired);
    }

    lemma FiredAgain(at0: map<Watcher, real>, fired: seq<Watcher>)
      requires Fits(timers[..], timercnt) && Outcome(at0, fired) && AreOverdue(fired, at0, mnNow)
      ensures forall w :: w in at0 ==> (w in fired <==> at0[w] < mnNow)
      ensures forall w :: w in fired ==> (w in Armed() <==> w.repeat != 0.0)
      ensures forall w :: w in fired && w.repeat != 0.0 ==>
                && w in at0 && w in Armed() && w.at >= at0[w] + w.repeat && w.at >= mnNow
                && (w.at == at0[w] + w.repeat || w.at == mnNow)
    {}

    // The body of timers_reify, when something is overdue.
    method ExpireAndFeed(ghost at0: map<Watcher, real>) returns (ghost fired: seq<Watcher>)
      requires Valid() && queues.rfeeds == [] && at0.Keys <= all && Outcome(at0, [])
      requires timercnt > 0 && timers[HEAP0].at < mnNow
      modifies `timercnt, `activecnt, timers, all`active, all`at
      modifies queues`pendings, queues`pendingpri, queues`trace, queues`rfeeds, queues.watchers`pending
      ensures Valid() && queues.rfeeds == []
      ensures Outcome(at0, fired) && SortedBy(fired, at0)
      ensures timercnt == 0 || (timercnt + HEAP0 <= timers.Length && timers[HEAP0].at >= mnNow)
      ensures forall u :: u in all && u !in at0 ==> u.at == old(u.at)
      ensures Others() == old(Others())
      ensures queues.trace == old(queues.trace) + Clears(fired) + FedBackwards(fired, {TimerBit})
      ensures (forall w :: w in fired ==> old(w.pending) == 0) ==>
                forall p :: 0 <= p < NUMPRI ==>
                  queues.pendings[p] == old(queues.pendings)[p] + ReversedSlots(fired, p, {TimerBit})
    {
      hide *;
      Unfold();
      ExpireAll(at0);
      Unfold();
      fired := queues.rfeeds;
      Settle();
    }

    lemma NothingFired(at0: map<Watcher, real>)
      requires Valid() && at0 == Deadlines()
      ensures Outcome(at0, [])
    {}

    lemma FiredOnce(at0: map<Watcher, real>)
      requires Valid() && Outcome(at0, queues.rfeeds) && at0.Keys <= all
      ensures SortedBy(queues.rfeeds, at0) && forall w :: w in queues.rfeeds ==> w in at0
      ensures forall i, j :: 0 <= i < j < |queues.rfeeds| ==> queues.rfeeds[i] != queues.rfeeds[j]
      ensures forall w :: w in queues.rfeeds ==> w in all
    {
      assert forall w :: w in queues.rfeeds ==> w in at0;
    }

    // feed_reverse_done, for timers_reify.
    method Settle()
      requires Valid() && queues.rfeeds != []
      modifies queues`pendings, queues`pendingpri, queues`trace, queues`rfeeds, queues.watchers`pending
      ensures Valid() && queues.rfeeds == []
      ensures queues.trace == old(queues.trace) + FedBackwards(old(queues.rfeeds), {TimerBit})
      ensures old(queues.FreshFeeds(queues.rfeeds)) ==>
                forall p :: 0 <= p < NUMPRI ==>
                  queues.pendings[p] == old(queues.pendings)[p] + ReversedSlots(old(queues.rfeeds), p, {TimerBit})
    {
      hide Queues.Valid, IsHeap, Watchers;
      FiredInRange();
      queues.FeedReverseDone({TimerBit});
    }

    /** The end of an iteration of ev_run, with callbacks that feed nothing, when none of the
        overdue timers is pending already: every one is called back once, with the timer bit,
        those of higher priority first and those of equal priority in the order of their old
        deadlines, before whatever else is pending at that priority. */
    method ExpireAndInvoke() returns (ghost fired: seq<Watcher>, ghost delivered: seq<Happening>)
      requires Valid() && queues.rfeeds == []
      requires forall w :: w in Armed() && w.at < mnNow ==> w.pending == 0
      modifies `timercnt, `activecnt, timers, all`active, all`at
      modifies queues`pendings, queues`pendingpri, queues`trace, queues`rfeeds, queues.watchers`pending
      ensures Valid() && queues.rfeeds == [] && forall p :: 0 <= p < NUMPRI ==> queues.pendings[p] == []
      ensures AreOverdue(fired, old(Deadlines()), mnNow) && SortedBy(fired, old(Deadlines()))
      ensures queues.trace == old(queues.trace) + Clears(fired) + FedBackwards(fired, {TimerBit}) + delivered
      ensures delivered == DrainAfter(old(queues.pendings), fired, {TimerBit})
      ensures Ahead(delivered, fired, 0, NUMPRI - 1, {TimerBit}, old(Deadlines()))
    {
      hide Others, Valid, Outcome, Watchers, IsHeap, Queues.Valid, ReversedSlots, FedBackwards, Clears, SortedBy, AreOverdue,
        Ahead, Drain, DrainAfter;
      Unfold();
      ghost var (due, start) := (Deadlines(), queues.pendings);
      DeadlinesOf();
      fired := ReifyIdle();
      DrainFed(queues.pendings, start, fired, {TimerBit});
      delivered := Drain(queues.pendings);
      InvokeThem();
      DrainsInOrder(start, fired, {TimerBit}, due);
    }

    lemma DeadlinesOf()
      requires Valid()
      ensures Deadlines().Keys <= all
    {}

    // timers_reify, when no overdue timer was pending.
    method ReifyIdle() returns (ghost fired: seq<Watcher>)
      requires Valid() && queues.rfeeds == []
      requires forall w :: w in Armed() && w.at < mnNow ==> w.pending == 0
      modifies `timercnt, `activecnt, timers, all`active, all`at
      modifies queues`pendings, queues`pendingpri, queues`trace, queues`rfeeds, queues.watchers`pending
      ensures Valid() && queues.rfeeds == [] && SortedBy(fired, old(Deadlines()))
      ensures AreOverdue(fired, old(Deadlines()), mnNow)
      ensures queues.trace == old(queues.trace) + Clears(fired) + FedBackwards(fired, {TimerBit})
      ensures |queues.pendings| == |old(queues.pendings)| == NUMPRI && Bystanders(old(queues.pendings), fired)
      ensures forall p :: 0 <= p < NUMPRI ==>
                queues.pendings[p] == old(queues.pendings)[p] + ReversedSlots(fired, p, {TimerBit})
    {
      hide Others, Outcome, Watchers, IsHeap, Queues.Valid, ReversedSlots, FedBackwards, Clears, SortedBy;
      queues.SlotsArePending();
      fired := TimersReify();
    }

    // ev_invoke_pending, with callbacks that feed nothing.
    method InvokeThem()
      requires Valid() && queues.rfeeds == []
      modifies queues`pendings, queues`pendingpri, queues`trace, queues.watchers`pending
      ensures Valid() && forall p :: 0 <= p < NUMPRI ==> queues.pendings[p] == []
      ensures queues.trace == old(queues.trace) + Drain(old(queues.pendings))
    {
      hide Others, IsHeap, Watchers, Queues.Valid, Drain, Expected, Requests, HighestFirst;
      var _ := queues.InvokePending([]);
    }

    /** Nothing changes for a timer that does not fire. */
    static lemma OnlyTheFired(trace: seq<Happening>, fired: seq<Watcher>, bits: Mask, w: Watcher)
      requires w !in fired
      ensures Expected(trace + Clears(fired) + FedBackwards(fired, bits), w) == Expected(trace, w)
    {
      Unmentioned(trace, Clears(fired), w);
      Unmentioned(trace + Clears(fired), FedBackwards(fired, bits), w);
    }

    static lemma {:induction false} Unmentioned(trace: seq<Happening>, more: seq<Happening>, w: Watcher)
      requires forall h :: h in more ==> h.w != w
      ensures Expected(trace + more, w) == Expected(trace, w)
      decreases |more|
    {
      if more == [] {
        assert trace + more == trace;
      } else {
        var n := |more| - 1;
        Unmentioned(trace, more[..n], w);
        ExpectedAppend(trace + more[..n], more[n], w);
        assert trace + more == trace + more[..n] + [more[n]];
      }
    }

    // ---------- Runs ----------

    // Every timer's deadline is the model's, and exactly the model's timers are armed.
    ghost predicate Models(m: Model)
      requires Fits(timers[..], timercnt)
      reads `timers, `timercnt, `mnNow, timers, all`at
    {
      m.armed == Armed() && m.at.Keys == all && m.now == mnNow && forall w :: w in all ==> m.at[w] == w.at
    }

    ghost predicate StepOk(step: TimerStep)
      reads all`repeat
    {
      step.Clock? || (step.w in all && (step.Stop? || step.w.repeat >= 0.0))
    }

    ghost predicate ModelOk(m: Model) {
      m.armed <= all == m.at.Keys
    }

    // What a set of armed timers, with the deadlines of all timers, makes of the operations.
    ghost function ModelStep(m: Model, step: TimerStep): (m': Model)
      requires ModelOk(m) && StepOk(step)
      reads all`repeat
      ensures ModelOk(m')
    {
      match step
      case Start(w) => m.(armed := m.armed + {w}, at := if w !in m.armed then m.at[w := m.at[w] + m.now] else m.at)
      case Stop(w) => Stopped(m, w)
      case Again(w) => if w.repeat != 0.0 then m.(armed := m.armed + {w}, at := m.at[w := m.now + w.repeat]) else Stopped(m, w)
      case Clock(now) =>
        Model(set w | w in m.armed && (m.at[w] < now ==> w.repeat != 0.0),
              map w | w in all ::
                if w !in m.armed || m.at[w] >= now then m.at[w]
                else if w.repeat != 0.0 then Rescheduled(m.at[w], w.repeat, now)
                else m.at[w] - now,
              now)
    }

    ghost function Stopped(m: Model, w: Watcher): Model
      requires w in m.at
    {
      m.(armed := m.armed - {w}, at := if w in m.armed then m.at[w := m.at[w] - m.now] else m.at)
    }

    ghost function ModelRun(m: Model, steps: seq<TimerStep>): (m': Model)
      requires ModelOk(m) && forall i :: 0 <= i < |steps| ==> StepOk(steps[i])
      reads all`repeat
      ensures ModelOk(m')
    {
      if steps == [] then m else ModelStep(ModelRun(m, steps[..|steps| - 1]), steps[|steps| - 1])
    }

    lemma ModelNext(m: Model, steps: seq<TimerStep>, i: nat)
      requires ModelOk(m) && i < |steps| && forall k :: 0 <= k < |steps| ==> StepOk(steps[k])
      ensures ModelRun(m, steps[..i + 1]) == ModelStep(ModelRun(m, steps[..i]), steps[i])
    {
      assert steps[..i + 1][..i] == steps[..i];
    }

    // w is left to itself, and every clock step comes within a repeat of its deadline.
    ghost predicate OnTime(m: Model, steps: seq<TimerStep>, w: Watcher)
      requires ModelOk(m) && w in all && forall i :: 0 <= i < |steps| ==> StepOk(steps[i])
      reads all`repeat
    {
      forall i :: 0 <= i < |steps| ==>
        if steps[i].Clock? then steps[i].now <= ModelRun(m, steps[..i]).at[w] + w.repeat else steps[i].w != w
    }

    // How often w has come due.
    ghost function Firings(m: Model, steps: seq<TimerStep>, w: Watcher): nat
      requires ModelOk(m) && w in all && forall i :: 0 <= i < |steps| ==> StepOk(steps[i])
      reads all`repeat
    {
      if steps == [] then 0
      else
        var (front, step) := (steps[..|steps| - 1], steps[|steps| - 1]);
        Firings(m, front, w) + if step.Clock? && ModelRun(m, front).at[w] < step.now then 1 else 0
    }

    lemma StepOnTime(m: Model, step: TimerStep, w: Watcher)
      requires ModelOk(m) && StepOk(step) && w in m.armed && w.repeat > 0.0
      requires if step.Clock? then step.now <= m.at[w] + w.repeat else step.w != w
      ensures var m' := ModelStep(m, step);
              w in m'.armed && m'.at[w] == m.at[w] + if step.Clock? && m.at[w] < step.now then w.repeat else 0.0
    {}

    /** Repeating timers do not drift: when the clock steps come in time, a timer that has fired k
        times is due at its first deadline plus k times its repeat value, whatever happens to the
        others and however late within the repeat each step was. */
    lemma {:induction false} NoDrift(m: Model, steps: seq<TimerStep>, w: Watcher)
      requires ModelOk(m) && w in m.armed && w.repeat > 0.0
      requires (forall i :: 0 <= i < |steps| ==> StepOk(steps[i])) && OnTime(m, steps, w)
      ensures var m' := ModelRun(m, steps);
              w in m'.armed && m'.at[w] == m.at[w] + w.repeat * Firings(m, steps, w) as real
      decreases |steps|
    {
      hide ModelStep, OnTime;
      if steps != [] {
        var (front, step) := (steps[..|steps| - 1], steps[|steps| - 1]);
        FrontOnTime(m, steps, w);
        NoDrift(m, front, w);
        StepOnTime(ModelRun(m, front), step, w);
        Repeats(w.repeat, Firings(m, front, w));
      }
    }

    lemma FrontOnTime(m: Model, steps: seq<TimerStep>, w: Watcher)
      requires ModelOk(m) && w in all && steps != []
      requires (forall i :: 0 <= i < |steps| ==> StepOk(steps[i])) && OnTime(m, steps, w)
      ensures var (front, step) := (steps[..|steps| - 1], steps[|steps| - 1]);
              OnTime(m, front, w) && if step.Clock? then step.now <= ModelRun(m, front).at[w] + w.repeat else step.w != w
    {
      var front := steps[..|steps| - 1];
      assert forall i :: 0 <= i < |front| ==> front[..i] == steps[..i];
    }

    static lemma Repeats(repeat: real, k: nat)
      ensures repeat * 0.0 == 0.0
      ensures repeat * (k + 1) as real == repeat * k as real + repeat
    {
      assert (k + 1) as real == k as real + 1.0;
    }

    /** Over any sequence of starts, stops, restarts and expiries the heap holds exactly the timers
        that a set of armed timers would, with the same deadlines. */
    method Run(steps: seq<TimerStep>, ghost m: Model) returns (ghost m': Model)
      requires Valid() && queues.rfeeds == [] && Models(m) && forall i :: 0 <= i < |steps| ==> StepOk(steps[i])
      modifies `timers, `timercnt, `activecnt, `mnNow, timers, all`active, all`at, all`priority
      modifies queues`pendings, queues`pendingpri, queues`trace, queues`rfeeds, queues.watchers`pending
      ensures Valid() && queues.rfeeds == [] && Models(m') && ModelOk(m) && m' == ModelRun(m, steps)
    {
      TellModel(m);
      hide Valid, Models, ModelStep, ModelOk;
      m' := m;
      for i := 0 to |steps|
        invariant Valid() && queues.rfeeds == [] && Models(m') && m' == ModelRun(m, steps[..i])
        invariant timers == old(timers) || fresh(timers)
      {
        m' := RunStep(steps[i], m');
        ModelNext(m, steps, i);
      }
      assert steps[..|steps|] == steps;
    }

    lemma TellModel(m: Model)
      requires Valid() && Models(m)
      ensures ModelOk(m) && all <= queues.watchers
    {}

    method RunStep(step: TimerStep, ghost m: Model) returns (ghost m': Model)
      requires Valid() && queues.rfeeds == [] && Models(m) && ModelOk(m) && StepOk(step)
      modifies `timers, `timercnt, `activecnt, `mnNow, timers, all`active, all`at, all`priority
      modifies queues`pendings, queues`pendingpri, queues`trace, queues`rfeeds, queues.watchers`pending
      ensures Valid() && queues.rfeeds == [] && Models(m') && m' == ModelStep(m, step)
      ensures timers == old(timers) || fresh(timers)
    {
      TellModel(m);
      hide Valid, Models, ModelStep, ModelOk;
      match step
      case Start(w) => m' := RunStart(w, m);
      case Stop(w) => m' := RunStop(w, m);
      case Again(w) => m' := RunAgain(w, m);
      case Clock(now) => m' := RunClock(now, m);
    }

    method RunStart(w: Watcher, ghost m: Model) returns (ghost m': Model)
      requires Valid() && Models(m) && ModelOk(m) && StepOk(Start(w))
      modifies `timers, `timercnt, `activecnt, timers, all`active, w`at, w`priority
      modifies queues`pendings, queues`trace, w`pending
      ensures Valid() && Models(m') && m' == ModelStep(m, Start(w))
      ensures timers == old(timers) || fresh(timers)
    {
      hide HeapOk, Queues.Valid, Watchers, Others;
      TellTimer(w);
      m' := ModelStep(m, Start(w));
      TimerStart(w);
    }

    method RunStop(w: Watcher, ghost m: Model) returns (ghost m': Model)
      requires Valid() && Models(m) && ModelOk(m) && StepOk(Stop(w))
      modifies `timers, `timercnt, `activecnt, timers, all`active, w`at, w`priority
      modifies queues`pendings, queues`trace, w`pending
      ensures Valid() && Models(m') && m' == ModelStep(m, Stop(w))
      ensures timers == old(timers) || fresh(timers)
    {
      hide HeapOk, Queues.Valid, Watchers, Others;
      TellTimer(w);
      m' := ModelStep(m, Stop(w));
      TimerStop(w);
    }

    method RunAgain(w: Watcher, ghost m: Model) returns (ghost m': Model)
      requires Valid() && Models(m) && ModelOk(m) && StepOk(Again(w))
      modifies `timers, `timercnt, `activecnt, timers, all`active, w`at, w`priority
      modifies queues`pendings, queues`trace, w`pending
      ensures Valid() && Models(m') && m' == ModelStep(m, Again(w))
      ensures timers == old(timers) || fresh(timers)
    {
      hide HeapOk, Queues.Valid, Watchers, Others;
      TellTimer(w);
      m' := ModelStep(m, Again(w));
      TimerAgain(w);
    }

    method RunClock(now: real, ghost m: Model) returns (ghost m': Model)
      requires Valid() && queues.rfeeds == [] && Models(m) && ModelOk(m)
      modifies `timercnt, `activecnt, `mnNow, timers, all`active, all`at
      modifies queues`pendings, queues`pendingpri, queues`trace, queues`rfeeds, queues.watchers`pending
      ensures Valid() && queues.rfeeds == [] && Models(m') && m' == ModelStep(m, Clock(now))
    {
      hide Valid, Watchers, Others, Outcome, AreOverdue, ModelStep;
      ghost var due := Deadlines();
      m' := ModelStep(m, Clock(now));
      mnNow := now;
      ghost var fired := TimersReify();
      ClockModels(m, due, fired);
    }

    lemma ClockModels(m: Model, due: map<Watcher, real>, fired: seq<Watcher>)
      requires Valid() && ModelOk(m) && m.armed == due.Keys && Outcome(due, fired) && AreOverdue(fired, due, mnNow)
      requires forall w :: w in due ==> due[w] == m.at[w]
      requires forall w :: w in all && w !in due ==> w.at == m.at[w]
      ensures Models(ModelStep(m, Clock(mnNow)))
    {
      hide HeapOk, Watchers;
      var m' := ModelStep(m, Clock(mnNow));
      assert forall w :: w in due ==> (w in fired <==> due[w] < mnNow);
      assert m'.armed == set w | w in due && (w in fired ==> w.repeat != 0.0);
    }
  }

  datatype Model = Model(armed: set<Watcher>, at: map<Watcher, real>, now: real)

  datatype TimerStep = Start(w: Watcher) | Stop(w: Watcher) | Again(w: Watcher) | Clock(now: real)
}
