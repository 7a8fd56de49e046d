/** `CoroutinesPool` of ant_nest/coroutine_pool.py: a pool with a concurrency limit (`-1` means
    no limit), a default timeout and an exception policy, all three of which `reset` may change at
    any time; a FIFO of wrapped coroutines waiting for a slot, a queue of completion tokens and
    a closed flag. The event loop is the caller that decides which running task completes next. */
module CoroutinePool {
  import opened Common
  import opened AsCompleted

  /** `timeout_wrapper` (ant_nest/coroutine_pool.py:13-30): a negative timeout returns the
      argument itself; otherwise the same kind of awaitable, running the same task under the
      deadline. */
  function TimeoutWrapper(c: Awaitable, timeout: real): (w: Awaitable)
    ensures timeout < 0.0 ==> w == c
    ensures 0.0 <= timeout ==> w.Timed? && w.seconds == timeout && w.inner == c
    ensures w.IsFunction() == c.IsFunction() && w.Task() == c.Task()
  {
    if timeout < 0.0 then c else Timed(c, timeout)
  }

  /** The deadline `timeout_wrapper` puts a task under. */
  function Guard(timeout: real): (d: Deadline)
    ensures d.NoDeadline? <==> timeout < 0.0
  {
    if timeout < 0.0 then NoDeadline else Within(timeout)
  }

  datatype PoolStatus = Ready | Running | Closed

  class CoroutinesPool {
    var limit: int
    var timeout: real
    var raiseException: bool
    var runningCount: int
    /** Wrapped coroutines waiting for a slot, oldest first. */
    var pending: seq<Awaitable>
    var doneQueue: seq<Awaitable>
    var isClosed: bool
    /** The tasks the event loop is running on behalf of this pool. */
    var running: multiset<Awaitable>
    /** Every wrapped coroutine `schedule_coroutine` accepted, in call order. */
    ghost var admitted: seq<Awaitable>

    ghost predicate Valid()
      reads this
    {
      runningCount == |running|
    }

    /** A non-negative limit bounds the running tasks. `reset` can break this; scheduling and
        completing never do. */
    predicate WithinLimit()
      reads this
    {
      0 <= limit ==> runningCount <= limit
    }

    /** A task is left waiting only while every slot is taken. `reset` can break this by
        raising the limit; scheduling and completing never do. */
    predicate Conserving()
      reads this
    {
      pending != [] ==> limit != -1 && runningCount >= limit
    }

    /** The limit admits one more running task. */
    predicate HasSlot()
      reads this
    {
      limit == -1 || runningCount < limit
    }

    /** `__init__` with its defaults `raise_exception=True, limit=-1, timeout=-1` left to the caller. */
    constructor (raiseException: bool, limit: int, timeout: real)
      ensures Valid() && WithinLimit() && Conserving()
      ensures this.raiseException == raiseException && this.limit == limit && this.timeout == timeout
      ensures runningCount == 0 && pending == [] && doneQueue == [] && !isClosed
      ensures running == multiset{} && admitted == []
    {
      this.limit := limit;
      this.timeout := timeout;
      this.raiseException := raiseException;
      runningCount := 0;
      pending := [];
      doneQueue := [];
      isClosed := false;
      running := multiset{};
      admitted := [];
    }

    /** The `status` property. */
    function Status(): (st: PoolStatus)
      reads this
      ensures st == Closed <==> isClosed
      ensures st == Running <==> !isClosed && runningCount > 0
    {
      if isClosed then Closed
      else if runningCount > 0 then Running
      else Ready
    }

    /** `reset`: each setting whose argument is given is replaced; nothing else changes. */
    method Reset(limit: Option<int>, timeout: Option<real>, raiseException: Option<bool>)
      requires Valid()
      modifies this
      ensures Valid()
      ensures this.limit == limit.GetOr(old(this.limit))
      ensures this.timeout == timeout.GetOr(old(this.timeout))
      ensures this.raiseException == raiseException.GetOr(old(this.raiseException))
      ensures runningCount == old(runningCount) && running == old(running)
      ensures pending == old(pending) && doneQueue == old(doneQueue) && isClosed == old(isClosed)
      ensures admitted == old(admitted)
      ensures old(WithinLimit()) && (this.limit < 0 || 0 <= old(this.limit) <= this.limit) ==> WithinLimit()
    {
      this.limit := limit.GetOr(this.limit);
      this.timeout := timeout.GetOr(this.timeout);
      this.raiseException := raiseException.GetOr(this.raiseException);
    }

    /** `schedule_coroutine`: on a closed pool nothing happens; otherwise the coroutine is
        wrapped under `timeout` (the pool's timeout when absent) and starts at once when the
        limit allows, or waits at the tail of the pending queue. */
    method Schedule(c: Awaitable, timeout: Option<real>)
      requires Valid()
      modifies this
      ensures Valid()
      ensures old(isClosed) ==> unchanged(this)
      ensures !old(isClosed) ==> admitted == old(admitted) + [TimeoutWrapper(c, timeout.GetOr(old(this.timeout)))]
      ensures !old(isClosed) && old(HasSlot()) ==>
        var w := TimeoutWrapper(c, timeout.GetOr(old(this.timeout)));
        && runningCount == old(runningCount) + 1 && running == old(running) + multiset{w}
        && pending == old(pending)
      ensures !old(isClosed) && !old(HasSlot()) ==>
        && runningCount == old(runningCount) && running == old(running)
        && pending == old(pending) + [TimeoutWrapper(c, timeout.GetOr(old(this.timeout)))]
       
      ensures isClosed == old(isClosed) && doneQueue == old(doneQueue)
      ensures limit == old(limit) && this.timeout == old(this.timeout) && raiseException == old(raiseException)
      ensures old(WithinLimit()) ==> WithinLimit()
      ensures old(Conserving()) ==> Conserving()
    {
      var t := timeout.GetOr(this.timeout);
      if isClosed {
        return;
      }
      var w := TimeoutWrapper(c, t);
      if limit == -1 || runningCount < limit {
        Start(w);
      } else {
        Enqueue(w);
      }
    }

    /** The branch of `schedule_coroutine` that starts the wrapped coroutine. */
    method Start(w: Awaitable)
      requires Valid() && !isClosed && HasSlot()
      modifies this
      ensures Valid() && admitted == old(admitted) + [w]
      ensures runningCount == old(runningCount) + 1 && running == old(running) + multiset{w}
      ensures pending == old(pending)
      ensures isClosed == old(isClosed) && doneQueue == old(doneQueue)
      ensures limit == old(limit) && timeout == old(timeout) && raiseException == old(raiseException)
      ensures old(WithinLimit()) ==> WithinLimit()
      ensures old(Conserving()) ==> Conserving()
    {
      runningCount := runningCount + 1;
      running := running + multiset{w};
      admitted := admitted + [w];
    }

    /** The branch of `schedule_coroutine` that queues the wrapped coroutine. */
    method Enqueue(w: Awaitable)
      requires Valid() && !isClosed && !HasSlot()
      modifies this
      ensures Valid() && admitted == old(admitted) + [w]
      ensures runningCount == old(runningCount) && running == old(running)
      ensures pending == old(pending) + [w]
      ensures isClosed == old(isClosed) && doneQueue == old(doneQueue)
      ensures limit == old(limit) && timeout == old(timeout) && raiseException == old(raiseException)
      ensures WithinLimit() == old(WithinLimit()) && Conserving()
    {
      pending := pending + [w];
      admitted := admitted + [w];
    }

    /** `schedule_coroutines`: `schedule_coroutine` for each coroutine in turn, all under the
        same timeout argument. */
    method ScheduleMany(cs: seq<Awaitable>, timeout: Option<real>)
      requires Valid()
      modifies this
      ensures Valid()
      ensures old(isClosed) ==> unchanged(this)
      ensures !old(isClosed) ==>
        admitted == old(admitted) + seq(|cs|, i requires 0 <= i < |cs| => TimeoutWrapper(cs[i], timeout.GetOr(old(this.timeout))))
      ensures isClosed == old(isClosed) && doneQueue == old(doneQueue)
      ensures limit == old(limit) && this.timeout == old(this.timeout) && raiseException == old(raiseException)
      ensures old(WithinLimit()) ==> WithinLimit()
      ensures old(Conserving()) ==> Conserving()
    {
      var i := 0;
      while i < |cs|
        invariant 0 <= i <= |cs|
        invariant Valid()
        invariant old(isClosed) ==> unchanged(this)
        invariant !old(isClosed) ==>
          admitted == old(admitted) + seq(i, j requires 0 <= j < i => TimeoutWrapper(cs[j], timeout.GetOr(old(this.timeout))))
        invariant isClosed == old(isClosed) && doneQueue == old(doneQueue)
        invariant limit == old(limit) && this.timeout == old(this.timeout) && raiseException == old(raiseException)
        invariant old(WithinLimit()) ==> WithinLimit()
        invariant old(Conserving()) ==> Conserving()
      {
        ghost var before := admitted;
        Schedule(cs[i], timeout);
        if !isClosed {
          WrapSnoc(cs, i, timeout.GetOr(old(this.timeout)), before, admitted, old(admitted));
        }
        i := i + 1;
      }
    }

    /** The done-callback starts the head of the pending queue when the freed slot is within
        the limit, whether or not the pool is closed. */
    predicate Backfills()
      reads this
    {
      pending != [] && (limit == -1 || runningCount - 1 < limit)
    }

    /** The done-callback for task `a`: it runs whether the task returned or raised, before the
        exception is looked at, so a failing task frees its slot like any other. */
    method Complete(a: Awaitable)
      requires Valid() && a in running
      modifies this
      ensures Valid()
      ensures doneQueue == old(doneQueue) + [a]
      ensures old(Backfills()) ==>
        && pending == old(pending)[1..]
        && running == old(running) - multiset{a} + multiset{old(pending)[0]}
        && runningCount == old(runningCount)
      ensures !old(Backfills()) ==>
        && pending == old(pending)
        && running == old(running) - multiset{a} && runningCount == old(runningCount) - 1
      ensures isClosed == old(isClosed) && admitted == old(admitted)
      ensures limit == old(limit) && timeout == old(timeout) && raiseException == old(raiseException)
      ensures old(WithinLimit()) ==> WithinLimit()
      ensures old(Conserving()) ==> Conserving()
    {
      if Backfills() {
        CompleteAndStartNext(a);
      } else {
        CompleteOnly(a);
      }
    }

    method CompleteAndStartNext(a: Awaitable)
      requires Valid() && a in running && Backfills()
      modifies this
      ensures Valid()
      ensures doneQueue == old(doneQueue) + [a]
      ensures pending == old(pending)[1..]
      ensures running == old(running) - multiset{a} + multiset{old(pending)[0]}
      ensures runningCount == old(runningCount)
      ensures isClosed == old(isClosed) && admitted == old(admitted)
      ensures limit == old(limit) && timeout == old(timeout) && raiseException == old(raiseException)
      ensures old(WithinLimit()) ==> WithinLimit()
      ensures old(Conserving()) ==> Conserving()
    {
      var next := pending[0];
      pending := pending[1..];
      running := running - multiset{a} + multiset{next};
      doneQueue := doneQueue + [a];
    }

    method CompleteOnly(a: Awaitable)
      requires Valid() && a in running && !Backfills()
      modifies this
      ensures Valid()
      ensures doneQueue == old(doneQueue) + [a]
      ensures pending == old(pending)
      ensures running == old(running) - multiset{a} && runningCount == old(runningCount) - 1
      ensures isClosed == old(isClosed) && admitted == old(admitted)
      ensures limit == old(limit) && timeout == old(timeout) && raiseException == old(raiseException)
      ensures old(WithinLimit()) ==> WithinLimit()
      ensures old(Conserving()) ==> Conserving()
    {
      runningCount := runningCount - 1;
      running := running - multiset{a};
      doneQueue := doneQueue + [a];
    }

    /** What a drain still has to wait for; every turn of it makes this smaller. */
    function Outstanding(): nat
      reads this
    {
      3 * |pending| + 2 * |running| + |doneQueue|
    }

    /** One turn of `wait_scheduled_coroutines`'s loop: when no token is queued, the waiter is
        suspended until the event loop completes some running task; then it takes a token. */
    method Turn()
      requires Valid() && (runningCount > 0 || doneQueue != [])
      modifies this
      ensures Valid() && Outstanding() < old(Outstanding())
      ensures isClosed == old(isClosed) && admitted == old(admitted)
      ensures limit == old(limit) && timeout == old(timeout) && raiseException == old(raiseException)
      ensures old(WithinLimit()) ==> WithinLimit()
      ensures old(Conserving()) ==> Conserving()
    {
      if doneQueue == [] {
        var t :| t in running;
        Complete(t);
      }
      doneQueue := doneQueue[1..];
    }

    /** `wait_scheduled_coroutines`: it waits while a task runs or a token is queued, and does
        not look at the pending queue, so it always ends; tasks left pending are those a limit
        of 0 or below (other than -1), or one lowered by `reset`, keeps from starting. */
    method WaitScheduled()
      requires Valid()
      modifies this
      ensures Valid() && runningCount == 0 && doneQueue == []
      ensures isClosed == old(isClosed) && admitted == old(admitted)
      ensures limit == old(limit) && timeout == old(timeout) && raiseException == old(raiseException)
      ensures old(WithinLimit()) ==> WithinLimit()
      ensures old(Conserving()) ==> Conserving()
      ensures old(Conserving()) && (limit == -1 || 0 < limit) ==> pending == []
    {
      while runningCount > 0 || doneQueue != []
        invariant Valid()
        invariant isClosed == old(isClosed) && admitted == old(admitted)
        invariant limit == old(limit) && timeout == old(timeout) && raiseException == old(raiseException)
        invariant old(WithinLimit()) ==> WithinLimit()
        invariant old(Conserving()) ==> Conserving()
        decreases Outstanding()
      {
        Turn();
      }
    }

    /** `close`: drain, then mark the pool closed, so its status is `'closed'` from then on. */
    method Close()
      requires Valid()
      modifies this
      ensures Valid() && isClosed && Status() == Closed && runningCount == 0 && doneQueue == []
      ensures admitted == old(admitted)
    {
      WaitScheduled();
      isClosed := true;
    }

    /** `as_completed` over a source of `total` coroutines: `limit` and `timeout` default to
        the pool's own, the tasks started before the first yield run under the timeout
        wrapper, and the pool's own counters are neither read nor changed. */
    method AsCompleted(total: nat, limit: Option<int>, timeout: Option<real>)
      returns (order: seq<nat>, deadlines: seq<Deadline>)
      ensures multiset(order) == multiset(Range(total))
      ensures WithinWindow(order, limit.GetOr(this.limit))
      ensures limit.GetOr(this.limit) == 1 ==> order == Range(total)
      ensures deadlines == Deadlines(InitialCount(total, limit.GetOr(this.limit)), total,
                                                 Guard(timeout.GetOr(this.timeout)))
    {
      var peak;
      order, peak, deadlines := Drain(total, limit.GetOr(this.limit), Guard(timeout.GetOr(this.timeout)));
    }

    /** `as_completed_with_async`: `raise_exception` defaults to the pool's own policy. */
    method AsCompletedWithAsync(outcomes: seq<Outcome>, limit: Option<int>, timeout: Option<real>,
                                raiseException: Option<bool>)
      returns (order: seq<nat>, values: seq<Value>, raised: Option<Error>)
      ensures multiset(order) == multiset(Range(|outcomes|))
      ensures forall k :: 0 <= k < |order| ==> order[k] < |outcomes|
      ensures WithinWindow(order, limit.GetOr(this.limit))
      ensures limit.GetOr(this.limit) == 1 ==> InOrder(outcomes, order) == outcomes
      ensures !raiseException.GetOr(this.raiseException) ==>
        values == Successes(InOrder(outcomes, order)) && raised == None
      ensures raiseException.GetOr(this.raiseException) ==>
        match FirstFailure(InOrder(outcomes, order))
        case None => values == Successes(InOrder(outcomes, order)) && raised == None
        case Some(i) =>
          values == Successes(InOrder(outcomes, order)[..i]) && raised == Some(InOrder(outcomes, order)[i].error)
    {
      order, values, raised := DrainWithAsync(outcomes, limit.GetOr(this.limit),
                                                         Guard(timeout.GetOr(this.timeout)),
                                                         raiseException.GetOr(this.raiseException));
    }
  }

  /** One more scheduled coroutine extends the admitted sequence by its wrapper. */
  lemma WrapSnoc(cs: seq<Awaitable>, i: nat, t: real, before: seq<Awaitable>, after: seq<Awaitable>, start: seq<Awaitable>)
    requires i < |cs|
    requires before == start + seq(i, j requires 0 <= j < i => TimeoutWrapper(cs[j], t))
    requires after == before + [TimeoutWrapper(cs[i], t)]
    ensures after == start + seq(i + 1, j requires 0 <= j < i + 1 => TimeoutWrapper(cs[j], t))
  {
    assert seq(i + 1, j requires 0 <= j < i + 1 => TimeoutWrapper(cs[j], t))
        == seq(i, j requires 0 <= j < i => TimeoutWrapper(cs[j], t)) + [TimeoutWrapper(cs[i], t)];
  }

  /** Scheduling on a ready pool with a free slot makes it running (test_coroutines_pool.py:27). */
  method ScheduleOnReady(c: Awaitable, limit: int) returns (before: PoolStatus, after: PoolStatus)
    requires limit == -1 || 0 < limit
    ensures before == Ready && after == Running
  {
    var pool := new CoroutinesPool(true, limit, -1.0);
    before := pool.Status();
    pool.Schedule(c, None);
    after := pool.Status();
  }
}
