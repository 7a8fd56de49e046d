/** The module-level scheduler of ant_nest/queen.py: the globals `__loop`, `__queue` (coroutines
    waiting for a slot), `__done_queue` (completion tokens), `__running_count` and
    `__concurrent_limit` become the fields of one `Queen` object. Unlike the pools there is no
    closed flag and no `-1` sentinel: a task starts only while the count is below the limit.
    The event loop is the caller that decides which running task completes next. */
module Queen {
  import opened Common
  import opened AsCompleted

  /** The initial `__concurrent_limit`, which is also the default `limit` of `as_completed`,
      bound when that function is defined. */
  const DefaultConcurrentLimit := 30

  /** `timeout_wrapper` of ant_nest/queen.py: it always wraps, whatever the sign of the timeout,
      into the same kind of awaitable running the same task. */
  function Wrap(c: Awaitable, timeout: real): (w: Awaitable)
    ensures w.Timed? && w.seconds == timeout && w.inner == c
    ensures w.IsFunction() == c.IsFunction() && w.Task() == c.Task()
  {
    Timed(c, timeout)
  }

  class Queen {
    /** `__loop`; the two queues exist exactly when it is set. */
    var loop: Option<nat>
    var pending: seq<Awaitable>
    var doneQueue: seq<Awaitable>
    var runningCount: int
    var concurrentLimit: int
    /** `__timeout`, the default timeout of `timeout_wrapper`, `schedule_coroutine` and
        `as_completed`; nothing reassigns it. */
    const timeout: real
    /** The tasks the event loop is running on behalf of the queen. */
    var running: multiset<Awaitable>
    /** Every wrapped coroutine `schedule_coroutine` accepted, in call order. */
    ghost var admitted: seq<Awaitable>

    ghost predicate Valid()
      reads this
    {
      && runningCount == |running|
      && (loop.None? ==> runningCount == 0 && pending == [] && doneQueue == [])
    }

    /** Every started task was started below the limit now in force. */
    predicate WithinLimit()
      reads this
    {
      runningCount == 0 || runningCount <= concurrentLimit
    }

    /** A coroutine only waits while every slot is taken. */
    predicate Conserving()
      reads this
    {
      pending != [] ==> runningCount >= concurrentLimit
    }

    /** The freshly imported module, with `DEFAULT_TIMEOUT` given as `timeout`. */
    constructor (timeout: real)
      ensures Valid() && WithinLimit() && Conserving()
      ensures loop == None && this.timeout == timeout && concurrentLimit == DefaultConcurrentLimit
      ensures runningCount == 0 && running == multiset{} && pending == [] && doneQueue == []
      ensures admitted == []
    {
      this.timeout := timeout;
      loop := None;
      pending := [];
      doneQueue := [];
      runningCount := 0;
      concurrentLimit := DefaultConcurrentLimit;
      running := multiset{};
      admitted := [];
    }

    /** The state `init_loop` refuses to discard. */
    predicate Unclean()
      reads this
    {
      loop.Some? && (runningCount > 0 || doneQueue != [] || pending != [])
    }

    /** `init_loop`: installs `requested`, or the current event loop `ambient` when none is
        given, with fresh empty queues; it raises `QueenError` and changes nothing when a loop
        is installed and a task is running or a queue is non-empty. */
    method InitLoop(requested: Option<nat>, ambient: nat) returns (err: Option<Error>)
      requires Valid()
      modifies this
      ensures Valid()
      ensures err.Some? <==> old(Unclean())
      ensures err.Some? ==> err == Some(QueenError) && unchanged(this)
      ensures err.None? ==>
        && loop == Some(requested.GetOr(ambient)) && pending == [] && doneQueue == []
        && runningCount == 0 && running == multiset{}
        && concurrentLimit == old(concurrentLimit) && admitted == old(admitted)
    {
      if Unclean() {
        return Some(QueenError);
      }
      loop := Some(requested.GetOr(ambient));
      pending := [];
      doneQueue := [];
      err := None;
    }

    /** `reset_concurrent_limit`: `None` keeps the limit; any other value replaces it. */
    method ResetConcurrentLimit(limit: Option<int>)
      modifies this`concurrentLimit
      ensures concurrentLimit == limit.GetOr(old(concurrentLimit))
    {
      concurrentLimit := limit.GetOr(concurrentLimit);
    }

    /** `schedule_coroutine`: the queues are created on first use (under the current event loop
        `ambient`); then the coroutine, always wrapped under `timeout` (the default when
        absent), starts when the count is below the limit and waits at the tail of the pending
        queue otherwise. */
    method Schedule(c: Awaitable, timeout: Option<real>, ambient: nat)
      requires Valid()
      modifies this
      ensures Valid() && loop.Some?
      ensures old(loop).Some? ==> loop == old(loop)
      ensures old(loop).None? ==> loop == Some(ambient)
      ensures admitted == old(admitted) + [Wrap(c, timeout.GetOr(this.timeout))]
      ensures old(runningCount) < old(concurrentLimit) ==>
        && runningCount == old(runningCount) + 1
        && running == old(running) + multiset{Wrap(c, timeout.GetOr(this.timeout))}
        && pending == old(pending)
      ensures old(concurrentLimit) <= old(runningCount) ==>
        && runningCount == old(runningCount) && running == old(running)
        && pending == old(pending) + [Wrap(c, timeout.GetOr(this.timeout))]
      ensures doneQueue == old(doneQueue) && concurrentLimit == old(concurrentLimit)
      ensures old(WithinLimit()) ==> WithinLimit()
      ensures old(Conserving()) ==> Conserving()
    {
      if loop.None? {
        var err := InitLoop(loop, ambient);
      }
      var w := Wrap(c, timeout.GetOr(this.timeout));
      if runningCount < concurrentLimit {
        Start(w);
      } else {
        Enqueue(w);
      }
    }

    /** The branch of `schedule_coroutine` that starts the wrapped coroutine. */
    method Start(w: Awaitable)
      requires Valid() && loop.Some? && runningCount < concurrentLimit
      modifies this
      ensures Valid() && loop == old(loop) && admitted == old(admitted) + [w]
      ensures runningCount == old(runningCount) + 1 && running == old(running) + multiset{w}
      ensures pending == old(pending) && doneQueue == old(doneQueue)
      ensures concurrentLimit == old(concurrentLimit)
      ensures WithinLimit()
      ensures old(Conserving()) ==> Conserving()
    {
      runningCount := runningCount + 1;
      running := running + multiset{w};
      admitted := admitted + [w];
    }

    /** The branch of `schedule_coroutine` that queues the wrapped coroutine. */
    method Enqueue(w: Awaitable)
      requires Valid() && loop.Some? && concurrentLimit <= runningCount
      modifies this
      ensures Valid() && loop == old(loop) && admitted == old(admitted) + [w]
      ensures runningCount == old(runningCount) && running == old(running)
      ensures pending == old(pending) + [w] && doneQueue == old(doneQueue)
      ensures concurrentLimit == old(concurrentLimit)
      ensures WithinLimit() == old(WithinLimit()) && Conserving()
    {
      pending := pending + [w];
      admitted := admitted + [w];
    }

    /** `schedule_coroutines`: `schedule_coroutine` for each coroutine in turn, all under the
        same timeout argument. */
    method ScheduleMany(cs: seq<Awaitable>, timeout: Option<real>, ambient: nat)
      requires Valid()
      modifies this
      ensures Valid()
      ensures admitted == old(admitted) + seq(|cs|, i requires 0 <= i < |cs| => Wrap(cs[i], timeout.GetOr(this.timeout)))
      ensures doneQueue == old(doneQueue) && concurrentLimit == old(concurrentLimit)
      ensures old(loop).Some? ==> loop == old(loop)
      ensures concurrentLimit <= 0 && old(runningCount) == 0 ==>
        pending == old(pending) + seq(|cs|, i requires 0 <= i < |cs| => Wrap(cs[i], timeout.GetOr(this.timeout)))
        && runningCount == 0
      ensures old(WithinLimit()) ==> WithinLimit()
      ensures old(Conserving()) ==> Conserving()
    {
      var i := 0;
      while i < |cs|
        invariant 0 <= i <= |cs|
        invariant Valid()
        invariant admitted == old(admitted) + seq(i, j requires 0 <= j < i => Wrap(cs[j], timeout.GetOr(this.timeout)))
        invariant doneQueue == old(doneQueue) && concurrentLimit == old(concurrentLimit)
        invariant old(loop).Some? ==> loop == old(loop)
        invariant concurrentLimit <= 0 && old(runningCount) == 0 ==>
          pending == old(pending) + seq(i, j requires 0 <= j < i => Wrap(cs[j], timeout.GetOr(this.timeout)))
          && runningCount == 0
        invariant old(WithinLimit()) ==> WithinLimit()
        invariant old(Conserving()) ==> Conserving()
      {
        ghost var before, waiting := admitted, pending;
        Schedule(cs[i], timeout, ambient);
        WrapSnoc(cs, i, timeout.GetOr(this.timeout), before, admitted, old(admitted));
        if concurrentLimit <= 0 && old(runningCount) == 0 {
          WrapSnoc(cs, i, timeout.GetOr(this.timeout), waiting, pending, old(pending));
        }
        i := i + 1;
      }
    }

    /** The done-callback starts the head of the pending queue when the count, once
        decremented, is below the limit. */
    predicate Backfills()
      reads this
    {
      pending != [] && runningCount - 1 < concurrentLimit
    }

    /** The done-callback for task `a`, whether it returned or raised: the count goes down, one
        token is queued and at most one pending coroutine, the oldest, starts. */
    method Complete(a: Awaitable)
      requires Valid() && a in running
      modifies this
      ensures Valid() && loop == old(loop)
      ensures doneQueue == old(doneQueue) + [a]
      ensures old(Backfills()) ==>
        && pending == old(pending)[1..]
        && running == old(running) - multiset{a} + multiset{old(pending)[0]}
        && runningCount == old(runningCount)
      ensures !old(Backfills()) ==>
        && pending == old(pending)
        && running == old(running) - multiset{a} && runningCount == old(runningCount) - 1
      ensures admitted == old(admitted) && concurrentLimit == old(concurrentLimit)
      ensures old(WithinLimit()) ==> WithinLimit()
      ensures old(Conserving()) ==> Conserving()
    {
      if Backfills() {
        CompleteAndStartNext(a);
      } else {
        CompleteOnly(a);
      }
    }

    method CompleteAndStartNext(a: Awaitable)
      requires Valid() && a in running && Backfills()
      modifies this
      ensures Valid() && loop == old(loop)
      ensures doneQueue == old(doneQueue) + [a]
      ensures pending == old(pending)[1..]
      ensures running == old(running) - multiset{a} + multiset{old(pending)[0]}
      ensures runningCount == old(runningCount)
      ensures admitted == old(admitted) && concurrentLimit == old(concurrentLimit)
      ensures old(WithinLimit()) ==> WithinLimit()
      ensures old(Conserving()) ==> Conserving()
    {
      var next := pending[0];
      pending := pending[1..];
      running := running - multiset{a} + multiset{next};
      doneQueue := doneQueue + [a];
    }

    method CompleteOnly(a: Awaitable)
      requires Valid() && a in running && !Backfills()
      modifies this
      ensures Valid() && loop == old(loop)
      ensures doneQueue == old(doneQueue) + [a]
      ensures pending == old(pending)
      ensures running == old(running) - multiset{a} && runningCount == old(runningCount) - 1
      ensures admitted == old(admitted) && concurrentLimit == old(concurrentLimit)
      ensures old(WithinLimit()) ==> WithinLimit()
      ensures old(Conserving()) ==> Conserving()
    {
      runningCount := runningCount - 1;
      running := running - multiset{a};
      doneQueue := doneQueue + [a];
    }

    /** What a drain still has to wait for; every turn of it makes this smaller. */
    function Outstanding(): nat
      reads this
    {
      3 * |pending| + 2 * |running| + |doneQueue|
    }

    /** One turn of `wait_scheduled_coroutines`'s loop: when no token is queued, the waiter is
        suspended until the event loop completes some running task; then it takes a token. */
    method Turn()
      requires Valid() && (runningCount > 0 || doneQueue != [])
      modifies this
      ensures Valid() && Outstanding() < old(Outstanding())
      ensures loop == old(loop) && admitted == old(admitted) && concurrentLimit == old(concurrentLimit)
      ensures old(WithinLimit()) ==> WithinLimit()
      ensures old(Conserving()) ==> Conserving()
    {
      if doneQueue == [] {
        var t :| t in running;
        Complete(t);
      }
      doneQueue := doneQueue[1..];
    }

    /** `wait_scheduled_coroutines`: nothing to wait for before any queue exists; otherwise it
        waits while a task runs or a token is queued. It does not look at the pending queue, so
        coroutines a limit of 0 or below keeps from starting are left there. */
    method WaitScheduled()
      requires Valid()
      modifies this
      ensures Valid() && runningCount == 0 && doneQueue == []
      ensures old(loop).None? || (old(runningCount) == 0 && old(doneQueue) == []) ==> unchanged(this)
      ensures loop == old(loop) && admitted == old(admitted) && concurrentLimit == old(concurrentLimit)
      ensures old(WithinLimit()) ==> WithinLimit()
      ensures old(Conserving()) ==> Conserving()
      ensures old(Conserving()) && 0 < concurrentLimit ==> pending == []
    {
      if loop.None? {
        return;
      }
      while runningCount > 0 || doneQueue != []
        invariant Valid()
        invariant loop == old(loop) && admitted == old(admitted) && concurrentLimit == old(concurrentLimit)
        invariant old(runningCount) == 0 && old(doneQueue) == [] ==> unchanged(this)
        invariant old(WithinLimit()) ==> WithinLimit()
        invariant old(Conserving()) ==> Conserving()
        decreases Outstanding()
      {
        Turn();
      }
    }

    /** `as_completed` over a source of `total` coroutines. Its default limit is the constant
        30, not the current `__concurrent_limit`, and the queen's counters are neither read nor
        changed. The tasks started before the first yield run under the timeout wrapper. */
    method AsCompleted(total: nat, limit: Option<int>, timeout: Option<real>)
      returns (order: seq<nat>, peak: nat, deadlines: seq<Deadline>)
      ensures multiset(order) == multiset(Range(total))
      ensures |order| == total
      ensures WithinWindow(order, limit.GetOr(DefaultConcurrentLimit))
      ensures limit.GetOr(DefaultConcurrentLimit) == 1 ==> order == Range(total)
      ensures peak == InitialCount(total, limit.GetOr(DefaultConcurrentLimit))
      ensures limit.None? ==> peak <= DefaultConcurrentLimit
      ensures limit.Some? && 0 < limit.value ==> peak <= limit.value
      ensures deadlines == Deadlines(InitialCount(total, limit.GetOr(DefaultConcurrentLimit)), total,
                                     Within(timeout.GetOr(this.timeout)))
    {
      order, peak, deadlines := Drain(total, limit.GetOr(DefaultConcurrentLimit), Within(timeout.GetOr(this.timeout)));
    }

    /** `as_completed_with_async`: a failure is logged and skipped when `ignore_exception`
        (default true) holds and re-raised otherwise. */
    method AsCompletedWithAsync(outcomes: seq<Outcome>, limit: Option<int>, timeout: Option<real>,
                                ignoreException: Option<bool>)
      returns (order: seq<nat>, values: seq<Value>, raised: Option<Error>)
      ensures multiset(order) == multiset(Range(|outcomes|))
      ensures forall k :: 0 <= k < |order| ==> order[k] < |outcomes|
      ensures WithinWindow(order, limit.GetOr(DefaultConcurrentLimit))
      ensures limit.GetOr(DefaultConcurrentLimit) == 1 ==> InOrder(outcomes, order) == outcomes
      ensures ignoreException.GetOr(true) ==>
        values == Successes(InOrder(outcomes, order)) && raised == None
      ensures !ignoreException.GetOr(true) ==>
        match FirstFailure(InOrder(outcomes, order))
        case None => values == Successes(InOrder(outcomes, order)) && raised == None
        case Some(i) =>
          values == Successes(InOrder(outcomes, order)[..i]) && raised == Some(InOrder(outcomes, order)[i].error)
    {
      order, values, raised := DrainWithAsync(outcomes, limit.GetOr(DefaultConcurrentLimit),
                                              Within(timeout.GetOr(this.timeout)), !ignoreException.GetOr(true));
    }
  }

  /** One more scheduled coroutine extends the admitted sequence by its wrapper. */
  lemma WrapSnoc(cs: seq<Awaitable>, i: nat, t: real, before: seq<Awaitable>, after: seq<Awaitable>, start: seq<Awaitable>)
    requires i < |cs|
    requires before == start + seq(i, j requires 0 <= j < i => Wrap(cs[j], t))
    requires after == before + [Wrap(cs[i], t)]
    ensures after == start + seq(i + 1, j requires 0 <= j < i + 1 => Wrap(cs[j], t))
  {
    assert seq(i + 1, j requires 0 <= j < i + 1 => Wrap(cs[j], t))
        == seq(i, j requires 0 <= j < i => Wrap(cs[j], t)) + [Wrap(cs[i], t)];
  }

  /** A limit of 0 holds every scheduled coroutine back, and the wait still returns at once:
      the waiter does not look at the pending queue. */
  method ZeroLimitStrands(cs: seq<Awaitable>, timeout: real, ambient: nat) returns (stranded: nat, running: nat)
    ensures stranded == |cs| && running == 0
  {
    var q := new Queen(timeout);
    q.ResetConcurrentLimit(Some(0));
    q.ScheduleMany(cs, None, ambient);
    q.WaitScheduled();
    stranded, running := |q.pending|, q.runningCount;
  }
}
