/** `Pool` of ant_nest/pool.py: a background task pool with a concurrency limit (`-1` means no
    limit), a FIFO of tasks waiting for a slot, a queue of completion tokens and a closed flag.
    Each method is one synchronous block of the source; the event loop is the caller that
    decides which running task completes next (`Complete`). */
module TaskPool {
  import opened Common
  import opened AsCompleted

  /** What one turn of a drain loop does: the loop condition is false (`Finished`), the
      completion queue is empty so the waiter stays suspended (`Blocked`), or it takes a token. */
  datatype WaitStep = Finished | Blocked | Took(token: TaskId)

  const DefaultLimit := 50
  const DefaultAsCompletedLimit := 50

  /** The bookkeeping of a pool, over its field values. */
  ghost predicate Invariant(limit: int, closed: bool, runningCount: int, running: multiset<TaskId>,
                            admitted: seq<TaskId>, started: seq<TaskId>, pending: seq<TaskId>,
                            completed: seq<TaskId>, observed: seq<TaskId>, doneQueue: seq<TaskId>)
  {
    && runningCount == |running|
    && (0 <= limit ==> runningCount <= limit)
    && (limit < -1 ==> runningCount == 0)
    // pending tasks start in FIFO order: the start order is the admission order
    && admitted == started + pending
    && multiset(started) == multiset(completed) + running
    && completed == observed + doneQueue
    // work conservation: an open pool only queues a task when every slot is taken
    && (!closed && pending != [] ==> limit != -1 && runningCount >= limit)
  }

  /** A completion that starts the head of the pending queue keeps the bookkeeping. */
  lemma BackfillKeeps(limit: int, closed: bool, runningCount: int, running: multiset<TaskId>,
                      admitted: seq<TaskId>, started: seq<TaskId>, pending: seq<TaskId>,
                      completed: seq<TaskId>, observed: seq<TaskId>, doneQueue: seq<TaskId>, id: TaskId)
    requires Invariant(limit, closed, runningCount, running, admitted, started, pending, completed, observed, doneQueue)
    requires id in running && !closed && pending != [] && (limit == -1 || runningCount - 1 < limit)
    ensures Invariant(limit, closed, runningCount, running - multiset{id} + multiset{pending[0]}, admitted,
                      started + [pending[0]], pending[1..], completed + [id], observed, doneQueue + [id])
  {
    assert pending == [pending[0]] + pending[1..];
    assert started + pending == (started + [pending[0]]) + pending[1..];
    CompletionWithBackfill(started, completed, running, id, pending[0]);
    assert completed + [id] == observed + (doneQueue + [id]);
  }

  class Pool {
    const limit: int
    var runningCount: int
    var pending: seq<TaskId>
    var doneQueue: seq<TaskId>
    var closed: bool
    /** The tasks the event loop is running on behalf of this pool. */
    var running: multiset<TaskId>
    /** Every task `spawn` accepted, in call order. */
    ghost var admitted: seq<TaskId>
    /** Every task started, in start order. */
    ghost var started: seq<TaskId>
    /** Every task that completed, in completion order. */
    ghost var completed: seq<TaskId>
    /** The completion tokens a waiter has taken off the done queue. */
    ghost var observed: seq<TaskId>

    ghost predicate Valid()
      reads this
    {
      Invariant(limit, closed, runningCount, running, admitted, started, pending, completed, observed, doneQueue)
    }

    /** The limit admits one more running task. */
    predicate HasSlot()
      reads this
    {
      limit == -1 || runningCount < limit
    }

    constructor (limit: int)
      ensures Valid() && this.limit == limit
      ensures runningCount == 0 && pending == [] && doneQueue == [] && !closed
      ensures running == multiset{} && admitted == [] && started == [] && completed == [] && observed == []
    {
      this.limit := limit;
      runningCount := 0;
      pending := [];
      doneQueue := [];
      closed := false;
      running := multiset{};
      admitted := [];
      started := [];
      completed := [];
      observed := [];
    }

    /** The `done` property: nothing running, no token queued, nothing pending. */
    predicate Done()
      reads this
    {
      runningCount == 0 && doneQueue == [] && pending == []
    }

    /** On a valid pool, `done` holds exactly when every task `spawn` accepted has run to
        completion and every completion token has been taken by a waiter. */
    lemma DoneMeansAllObserved()
      requires Valid()
      ensures Done() <==> multiset(admitted) == multiset(completed) && completed == observed
    {
      assert multiset(admitted) == multiset(completed) + running + multiset(pending);
    }

    method Spawn(id: TaskId)
      requires Valid()
      modifies this
      ensures Valid()
      ensures old(closed) ==> unchanged(this)
      ensures !old(closed) ==> admitted == old(admitted) + [id]
      ensures !old(closed) && old(HasSlot()) ==>
        && runningCount == old(runningCount) + 1 && running == old(running) + multiset{id}
        && pending == old(pending) && started == old(started) + [id]
      ensures !old(closed) && !old(HasSlot()) ==>
        && runningCount == old(runningCount) && running == old(running)
        && pending == old(pending) + [id] && started == old(started)
      ensures closed == old(closed) && doneQueue == old(doneQueue)
      ensures completed == old(completed) && observed == old(observed)
    {
      if closed {
        return;
      }
      if limit == -1 || runningCount < limit {
        Start(id);
      } else {
        Enqueue(id);
      }
    }

    /** `spawn` on an open pool with a free slot: the task starts at once. */
    method Start(id: TaskId)
      requires Valid() && !closed && HasSlot()
      modifies this
      ensures Valid() && admitted == old(admitted) + [id]
      ensures runningCount == old(runningCount) + 1 && running == old(running) + multiset{id}
      ensures pending == old(pending) && started == old(started) + [id]
      ensures closed == old(closed) && doneQueue == old(doneQueue)
      ensures completed == old(completed) && observed == old(observed)
    {
      assert pending == [];
      runningCount := runningCount + 1;
      running := running + multiset{id};
      started := started + [id];
      admitted := admitted + [id];
    }

    /** `spawn` on an open pool whose slots are all taken: the task waits its turn. */
    method Enqueue(id: TaskId)
      requires Valid() && !closed && !HasSlot()
      modifies this
      ensures Valid() && admitted == old(admitted) + [id]
      ensures runningCount == old(runningCount) && running == old(running)
      ensures pending == old(pending) + [id] && started == old(started)
      ensures closed == old(closed) && doneQueue == old(doneQueue)
      ensures completed == old(completed) && observed == old(observed)
    {
      pending := pending + [id];
      admitted := admitted + [id];
    }

    /** The done-callback starts the head of the pending queue: the pool is open, a task is
        waiting, and the slot the completing task frees is within the limit. */
    predicate Backfills()
      reads this
    {
      !closed && pending != [] && (limit == -1 || runningCount - 1 < limit)
    }

    /** `_done_callback`: one running task has finished (successfully or not). */
    method Complete(id: TaskId)
      requires Valid() && id in running
      modifies this
      ensures Valid()
      ensures doneQueue == old(doneQueue) + [id] && completed == old(completed) + [id]
      ensures old(Backfills()) ==>
        && pending == old(pending)[1..] && started == old(started) + [old(pending)[0]]
        && running == old(running) - multiset{id} + multiset{old(pending)[0]}
        && runningCount == old(runningCount)
      ensures !old(Backfills()) ==>
        && pending == old(pending) && started == old(started)
        && running == old(running) - multiset{id} && runningCount == old(runningCount) - 1
      ensures closed == old(closed) && admitted == old(admitted) && observed == old(observed)
    {
      if Backfills() {
        CompleteAndStartNext(id);
      } else {
        CompleteOnly(id);
      }
    }

    /** `_done_callback` when it starts the head of the pending queue. */
    method CompleteAndStartNext(id: TaskId)
      requires Valid() && id in running && Backfills()
      modifies this
      ensures Valid()
      ensures doneQueue == old(doneQueue) + [id] && completed == old(completed) + [id]
      ensures pending == old(pending)[1..] && started == old(started) + [old(pending)[0]]
      ensures running == old(running) - multiset{id} + multiset{old(pending)[0]}
      ensures runningCount == old(runningCount)
      ensures closed == old(closed) && admitted == old(admitted) && observed == old(observed)
    {
      BackfillKeeps(limit, closed, runningCount, running, admitted, started, pending, completed, observed, doneQueue, id);
      var next := pending[0];
      pending, running, started, doneQueue, completed :=
        pending[1..], running - multiset{id} + multiset{next}, started + [next], doneQueue + [id], completed + [id];
    }

    /** `_done_callback` when it starts nothing. */
    method CompleteOnly(id: TaskId)
      requires Valid() && id in running && !Backfills()
      modifies this
      ensures Valid()
      ensures doneQueue == old(doneQueue) + [id] && completed == old(completed) + [id]
      ensures pending == old(pending) && started == old(started)
      ensures running == old(running) - multiset{id} && runningCount == old(runningCount) - 1
      ensures closed == old(closed) && admitted == old(admitted) && observed == old(observed)
    {
      CompletionWithoutBackfill(started, completed, running, id);
      runningCount := runningCount - 1;
      running := running - multiset{id};
      doneQueue := doneQueue + [id];
      completed := completed + [id];
    }

    method Close()
      requires Valid()
      modifies this
      ensures Valid() && closed
      ensures runningCount == old(runningCount) && running == old(running)
      ensures pending == old(pending) && doneQueue == old(doneQueue)
      ensures admitted == old(admitted) && started == old(started)
      ensures completed == old(completed) && observed == old(observed)
    {
      closed := true;
    }

    /** One turn of `wait_done`'s loop. */
    method WaitStep() returns (step: WaitStep)
      requires Valid()
      modifies this
      ensures Valid()
      ensures old(Done()) ==> step == Finished && unchanged(this)
      ensures !old(Done()) && old(doneQueue) == [] ==> step == Blocked && unchanged(this)
      ensures !old(Done()) && old(doneQueue) != [] ==>
        && step == Took(old(doneQueue)[0])
        && doneQueue == old(doneQueue)[1..] && observed == old(observed) + [old(doneQueue)[0]]
        && runningCount == old(runningCount) && running == old(running) && pending == old(pending)
        && closed == old(closed) && admitted == old(admitted) && started == old(started)
        && completed == old(completed)
    {
      if Done() {
        return Finished;
      }
      if doneQueue == [] {
        return Blocked;
      }
      var token := doneQueue[0];
      assert doneQueue == [token] + doneQueue[1..];
      doneQueue := doneQueue[1..];
      observed := observed + [token];
      step := Took(token);
    }

    /** What a drain loop still has to wait for; every turn of it makes this smaller. */
    function Outstanding(): nat
      reads this
    {
      3 * |pending| + 2 * |running| + |doneQueue|
    }

    /** One turn of `wait_done` that does not finish: when no token is queued the waiter is
        suspended until the event loop completes some running task, then it takes a token. */
    method Turn() returns (token: TaskId)
      requires Valid() && !Done() && (doneQueue != [] || runningCount != 0)
      modifies this
      ensures Valid() && Outstanding() < old(Outstanding())
      ensures observed == old(observed) + [token]
      ensures closed == old(closed) && admitted == old(admitted)
      ensures old(closed) ==> pending == old(pending)
    {
      if doneQueue == [] {
        var t :| t in running;
        Complete(t);
      }
      var step := WaitStep();
      token := step.token;
    }

    /** A pool that is not done but has nothing running and no token queued can make no more
        progress: tasks are pending that nothing will ever start. */
    lemma Stuck()
      requires Valid() && !Done() && doneQueue == [] && runningCount == 0
      ensures pending != [] && (closed || (limit != -1 && limit <= 0))
    {
    }

    /** `wait_done`, with the event loop completing arbitrary running tasks while the waiter is
        suspended. `finished` is false when the source would wait forever: nothing is running,
        no token is left and tasks are still pending (a closed pool, or a limit of 0 or below
        -1, never starts them). */
    method WaitDone() returns (finished: bool, tokens: seq<TaskId>)
      requires Valid()
      modifies this
      ensures Valid()
      ensures finished <==> Done()
      ensures !finished ==>
        && runningCount == 0 && doneQueue == [] && pending != []
        && (closed || (limit != -1 && limit <= 0))
      ensures old(Done()) ==> finished && tokens == []
      ensures observed == old(observed) + tokens
      ensures closed == old(closed) && admitted == old(admitted)
      ensures old(closed) ==> pending == old(pending)
    {
      tokens := [];
      while !Done()
        invariant Valid()
        invariant observed == old(observed) + tokens
        invariant closed == old(closed) && admitted == old(admitted)
        invariant old(closed) ==> pending == old(pending)
        invariant old(Done()) ==> tokens == []
        decreases Outstanding()
      {
        if doneQueue == [] && runningCount == 0 {
          Stuck();
          return false, tokens;
        }
        var token := Turn();
        tokens := tokens + [token];
      }
      finished := true;
    }

    /** `wait_close`: wait, close, wait again. */
    method WaitClose() returns (finished: bool, tokens: seq<TaskId>)
      requires Valid()
      modifies this
      ensures Valid() && closed
      ensures finished <==> Done()
      ensures !old(closed) && (limit == -1 || 0 < limit) ==> finished
      ensures observed == old(observed) + tokens && admitted == old(admitted)
    {
      var first, before := WaitDone();
      Close();
      var after;
      finished, after := WaitDone();
      tokens := before + after;
    }

    /** `as_completed` over a source of `total` coroutines, with its own `limit` (50 when not
        given) that is not shared with the pool's: it neither reads nor changes the pool. The
        tasks run without a timeout wrapper. `order` lists the yielded results by source
        position, in completion order, within the window of `WithinWindow`. */
    method AsCompleted(total: nat, limit: Option<int>) returns (order: seq<nat>, peak: nat)
      ensures multiset(order) == multiset(Range(total))
      ensures |order| == total
      ensures WithinWindow(order, limit.GetOr(DefaultAsCompletedLimit))
      ensures limit.GetOr(DefaultAsCompletedLimit) == 1 ==> order == Range(total)
      ensures peak == InitialCount(total, limit.GetOr(DefaultAsCompletedLimit))
      ensures 0 < limit.GetOr(DefaultAsCompletedLimit) ==> peak <= limit.GetOr(DefaultAsCompletedLimit)
      ensures limit.GetOr(DefaultAsCompletedLimit) <= 0 ==> peak == total
    {
      var deadlines;
      order, peak, deadlines := Drain(total, limit.GetOr(DefaultAsCompletedLimit), NoDeadline);
    }

    /** `as_completed_with_async`: awaits each yielded result in turn; a failure is re-raised
        when `raise_exception` (default true) holds and logged and skipped otherwise. */
    method AsCompletedWithAsync(outcomes: seq<Outcome>, limit: Option<int>, raiseException: Option<bool>)
      returns (order: seq<nat>, values: seq<Value>, raised: Option<Error>)
      ensures multiset(order) == multiset(Range(|outcomes|))
      ensures forall k :: 0 <= k < |order| ==> order[k] < |outcomes|
      ensures WithinWindow(order, limit.GetOr(DefaultAsCompletedLimit))
      ensures limit.GetOr(DefaultAsCompletedLimit) == 1 ==> InOrder(outcomes, order) == outcomes
      ensures !raiseException.GetOr(true) ==>
        values == Successes(InOrder(outcomes, order)) && raised == None
      ensures raiseException.GetOr(true) ==>
        match FirstFailure(InOrder(outcomes, order))
        case None => values == Successes(InOrder(outcomes, order)) && raised == None
        case Some(i) =>
          values == Successes(InOrder(outcomes, order)[..i]) && raised == Some(InOrder(outcomes, order)[i].error)
    {
      order, values, raised := DrainWithAsync(outcomes, limit.GetOr(DefaultAsCompletedLimit), NoDeadline,
                                              raiseException.GetOr(true));
    }
  }

  /** Spawning every task and then waiting (tests/test_coroutines_pool.py:49-73): with a usable
      limit every task completes, and each completion token is observed exactly once. */
  method SpawnAllThenWait(ids: seq<TaskId>, limit: int) returns (tokens: seq<TaskId>)
    requires limit == -1 || 0 < limit
    ensures multiset(tokens) == multiset(ids)
  {
    var pool := new Pool(limit);
    var i := 0;
    while i < |ids|
      invariant 0 <= i <= |ids|
      invariant pool.Valid() && !pool.closed && pool.limit == limit
      invariant pool.admitted == ids[..i] && pool.completed == [] && pool.observed == []
    {
      pool.Spawn(ids[i]);
      assert ids[..i + 1] == ids[..i] + [ids[i]];
      i := i + 1;
    }
    assert ids[..|ids|] == ids;
    var finished;
    finished, tokens := pool.WaitDone();
    pool.DoneMeansAllObserved();
  }
}
