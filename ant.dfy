/** The scheduling core of `Ant` in ant_nest/ant.py: background coroutines run under a fixed
    concurrency limit, counted by `__count` (started) and `__done_count` (completed), with a
    FIFO of coroutines waiting for a slot and a queue of completion tokens; plus the timeout
    defaults, the `as_completed` of `Ant`, and the pipeline chain every request, response and
    item goes through. */
module AntNest {
  import opened Common
  import opened AsCompleted

  /** `DEFAULT_VALUE`, the "not given" value of every timeout and limit argument. */
  const DefaultValue := -1
  /** `Ant.CONCURRENT_LIMIT`. */
  const ConcurrentLimit := 30
  /** `Ant.COROUTINE_TIMEOUT`, in seconds. */
  const CoroutineTimeout := 180

  /** The default resolution of a timeout argument: `DEFAULT_VALUE` stands for
      `COROUTINE_TIMEOUT`; every other value is taken as given. */
  function ResolveTimeout(timeout: int): (t: int)
    ensures timeout == DefaultValue ==> t == CoroutineTimeout
    ensures timeout != DefaultValue ==> t == timeout
    ensures t != DefaultValue
  {
    if timeout == DefaultValue then CoroutineTimeout else timeout
  }

  /** Resolving twice is resolving once, so `ensure_future`'s own resolution before calling
      `timeout_wrapper`, which resolves again, changes nothing. */
  lemma ResolveIdempotent(timeout: int)
    ensures ResolveTimeout(ResolveTimeout(timeout)) == ResolveTimeout(timeout)
  {
  }

  /** `Ant.timeout_wrapper`: after resolution only a positive timeout puts the coroutine
      under a deadline; zero and negative ones run it unguarded. */
  function TimeoutWrapper(c: Awaitable, timeout: int): (w: Awaitable)
    ensures ResolveTimeout(timeout) > 0 ==> w.Timed? && w.inner == c && w.seconds == ResolveTimeout(timeout) as real
    ensures ResolveTimeout(timeout) <= 0 ==> w == c
    ensures w.Task() == c.Task()
  {
    var t := ResolveTimeout(timeout);
    if t > 0 then Timed(c, t as real) else c
  }

  /** The deadline `Ant.timeout_wrapper` puts a task under. */
  function Guard(timeout: int): (d: Deadline)
    ensures d.Within? <==> ResolveTimeout(timeout) > 0
    ensures d.Within? ==> d.seconds == ResolveTimeout(timeout) as real
  {
    var t := ResolveTimeout(timeout);
    if t > 0 then Within(t as real) else NoDeadline
  }

  /** The default resolution of `as_completed`'s limit: `DEFAULT_VALUE` stands for
      `CONCURRENT_LIMIT`; every other value, zero and other negatives included, is taken as
      given. */
  function ResolveLimit(limit: int): (l: int)
    ensures limit == DefaultValue ==> l == ConcurrentLimit
    ensures limit != DefaultValue ==> l == limit
  {
    if limit == DefaultValue then ConcurrentLimit else limit
  }

  /** The background-coroutine state of one `Ant`. */
  class Ant {
    /** `__count`: coroutines started. */
    var count: nat
    /** `__done_count`: coroutines completed. */
    var doneCount: nat
    /** `__queue`: wrapped coroutines waiting for a slot, oldest first. */
    var pending: seq<Awaitable>
    /** `__done_queue`: completion tokens. */
    var doneQueue: seq<Awaitable>
    /** The tasks the event loop is running on behalf of the ant. */
    var running: multiset<Awaitable>

    /** The number running is `count - done_count`; it never exceeds `CONCURRENT_LIMIT`, and a
        coroutine only waits while every slot is taken. */
    ghost predicate Valid()
      reads this
    {
      && doneCount <= count
      && count - doneCount == |running|
      && count - doneCount <= ConcurrentLimit
      && (pending != [] ==> count - doneCount == ConcurrentLimit)
    }

    /** `Ant.__init__`: nothing started, nothing waiting. */
    constructor ()
      ensures Valid()
      ensures count == 0 && doneCount == 0 && pending == [] && doneQueue == [] && running == multiset{}
    {
      count := 0;
      doneCount := 0;
      pending := [];
      doneQueue := [];
      running := multiset{};
    }

    /** `ensure_future`: the coroutine, wrapped under the resolved timeout, starts when fewer
        than `CONCURRENT_LIMIT` run and waits at the tail of the queue otherwise. The wrapper
        is itself a coroutine, so even a coroutine function passed in becomes a task: it fails
        when awaited, and its done-callback still counts it and frees its slot, as `Complete`
        does. */
    method EnsureFuture(c: Awaitable, timeout: int)
      requires Valid()
      modifies this
      ensures Valid()
      ensures old(count - doneCount) < ConcurrentLimit ==>
        && count == old(count) + 1 && running == old(running) + multiset{TimeoutWrapper(c, timeout)}
        && pending == old(pending)
      ensures old(count - doneCount) >= ConcurrentLimit ==>
        && count == old(count) && running == old(running)
        && pending == old(pending) + [TimeoutWrapper(c, timeout)]
      ensures doneCount == old(doneCount) && doneQueue == old(doneQueue)
    {
      var t := ResolveTimeout(timeout);
      ResolveIdempotent(timeout);
      var w := TimeoutWrapper(c, t);
      if count - doneCount < ConcurrentLimit {
        count := count + 1;
        running := running + multiset{w};
      } else {
        pending := pending + [w];
      }
    }

    /** The done-callback for task `a`, whether it returned or raised: one more completion, one
        token, and while coroutines wait, the oldest of them starts in the freed slot. */
    method Complete(a: Awaitable)
      requires Valid() && a in running
      modifies this
      ensures Valid()
      ensures doneCount == old(doneCount) + 1 && doneQueue == old(doneQueue) + [a]
      ensures old(pending) != [] ==>
        && count == old(count) + 1 && pending == old(pending)[1..]
        && running == old(running) - multiset{a} + multiset{old(pending)[0]}
      ensures old(pending) == [] ==>
        && count == old(count) && pending == [] && running == old(running) - multiset{a}
    {
      doneCount := doneCount + 1;
      doneQueue := doneQueue + [a];
      if count - doneCount < ConcurrentLimit && pending != [] {
        var next := pending[0];
        pending := pending[1..];
        count := count + 1;
        running := running - multiset{a} + multiset{next};
      } else {
        running := running - multiset{a};
      }
    }

    /** What the watch dog still has to wait for; every turn of it makes this smaller. */
    function Outstanding(): nat
      reads this
    {
      3 * |pending| + 2 * |running| + |doneQueue|
    }

    /** One turn of `__run_until_complete`'s loop: with no token queued the watch dog is
        suspended until the event loop completes some running task; then it takes a token. */
    method Turn()
      requires Valid() && doneCount != count
      modifies this
      ensures Valid() && Outstanding() < old(Outstanding())
    {
      if doneQueue == [] {
        var t :| t in running;
        Complete(t);
      }
      doneQueue := doneQueue[1..];
    }

    /** `__run_until_complete`: it stops exactly when every started coroutine has completed,
        and by then none is waiting either. */
    method RunUntilComplete()
      requires Valid()
      modifies this
      ensures Valid() && doneCount == count && pending == [] && running == multiset{}
      ensures old(doneCount == count) ==> unchanged(this)
    {
      while doneCount != count
        invariant Valid()
        invariant old(doneCount == count) ==> unchanged(this)
        decreases Outstanding()
      {
        Turn();
      }
    }

    /** `Ant.as_completed` over a source of `total` coroutines, under the resolved limit and
        timeout, with its loop `while len(todo) > 0` as written: `order` lists the results
        yielded, by source position and in completion order; they are a selection of the
        source, at least one when the source is not empty. */
    method AsCompleted(total: nat, limit: int, timeout: int) returns (order: seq<nat>, deadlines: seq<Deadline>)
      ensures multiset(order) <= multiset(Range(total)) && |order| <= total
      ensures WithinWindow(order, ResolveLimit(limit))
      ensures 0 < total ==> order != []
      ensures deadlines == Deadlines(InitialCount(total, ResolveLimit(limit)), total, Guard(timeout))
    {
      order, deadlines := AntDrain(total, ResolveLimit(limit), Guard(timeout));
    }

    /** `Ant.as_completed` as evidently intended, looping while tasks are in flight or results
        are queued, as `Pool.as_completed` does: every source coroutine's result is yielded
        exactly once, at most the resolved limit run at once when it is positive, and under
        the limit 1 the results come in source order. */
    method AsCompletedCorrected(total: nat, limit: int, timeout: int)
      returns (order: seq<nat>, peak: nat, deadlines: seq<Deadline>)
      ensures multiset(order) == multiset(Range(total)) && |order| == total
      ensures WithinWindow(order, ResolveLimit(limit))
      ensures ResolveLimit(limit) == 1 ==> order == Range(total)
      ensures peak == InitialCount(total, ResolveLimit(limit))
      ensures 0 < ResolveLimit(limit) ==> peak <= ResolveLimit(limit)
      ensures limit == DefaultValue ==> peak <= ConcurrentLimit
      ensures deadlines == Deadlines(InitialCount(total, ResolveLimit(limit)), total, Guard(timeout))
    {
      order, peak, deadlines := Drain(total, ResolveLimit(limit), Guard(timeout));
    }
  }

  /** What one pipeline's `process` does to the thing it is given: hands on a thing (`Some`),
      returns `None`, or raises the exception with the given tag. */
  type Stage<!T> = T -> Result<Option<T>, nat>

  /** The outcome of running `stages[i..]` on `thing`: the first `None` raises
      `ThingDropped(i)` for the stage `i` that returned it, an exception raised by a stage
      propagates, and otherwise the last output is the result. */
  function Chain<T>(thing: T, stages: seq<Stage<T>>, i: nat): (r: Result<T, Error>)
    requires i <= |stages|
    decreases |stages| - i
    ensures r.Err? ==> r.error.ThingDropped? || r.error.Raised?
    ensures r.Err? && r.error.ThingDropped? ==> i <= r.error.stage < |stages|
  {
    if i == |stages| then Ok(thing)
    else
      match stages[i](thing)
      case Err(tag) => Err(Raised(tag))
      case Ok(None) => Err(ThingDropped(i))
      case Ok(Some(next)) => Chain(next, stages, i + 1)
  }

  /** `_handle_thing_with_pipelines`: the pipelines run in list order, each on the previous
      one's output, until one returns `None` or raises. `invoked` counts the pipelines called:
      all of them on success, and none after the one that dropped the thing. */
  method HandleThingWithPipelines<T>(thing: T, stages: seq<Stage<T>>) returns (r: Result<T, Error>, invoked: nat)
    ensures r == Chain(thing, stages, 0)
    ensures invoked <= |stages|
    ensures r.Ok? ==> invoked == |stages|
    ensures r.Err? && r.error.ThingDropped? ==> invoked == r.error.stage + 1
  {
    var current := thing;
    var i := 0;
    while i < |stages|
      invariant 0 <= i <= |stages|
      invariant Chain(current, stages, i) == Chain(thing, stages, 0)
      decreases |stages| - i
    {
      var out := stages[i](current);
      match out
      case Err(tag) =>
        return Err(Raised(tag)), i + 1;
      case Ok(None) =>
        return Err(ThingDropped(i)), i + 1;
      case Ok(Some(next)) =>
        current := next;
      i := i + 1;
    }
    return Ok(current), |stages|;
  }

  /** Every stage hands on what it is given. */
  ghost predicate AllIdentity<T(!new)>(stages: seq<Stage<T>>) {
    forall k, x :: 0 <= k < |stages| ==> stages[k](x) == Ok(Some(x))
  }

  /** With identity pipelines only, the chain returns the same thing. */
  lemma {:induction false} IdentityChain<T(!new)>(thing: T, stages: seq<Stage<T>>, i: nat)
    requires i <= |stages| && AllIdentity(stages)
    decreases |stages| - i
    ensures Chain(thing, stages, i) == Ok(thing)
  {
    if i < |stages| {
      assert stages[i](thing) == Ok(Some(thing));
      IdentityChain(thing, stages, i + 1);
    }
  }

  /** Once stage `j` drops the thing, the pipelines after it play no part: any others put in
      their place give the same outcome. */
  lemma {:induction false} DropIgnoresLater<T>(thing: T, stages: seq<Stage<T>>, i: nat, j: nat, later: seq<Stage<T>>)
    requires i <= j < |stages| && Chain(thing, stages, i) == Err(ThingDropped(j))
    decreases |stages| - i
    ensures Chain(thing, stages[..j + 1] + later, i) == Err(ThingDropped(j))
  {
    var other := stages[..j + 1] + later;
    assert other[i] == stages[i];
    match stages[i](thing)
    case Err(tag) =>
    case Ok(None) =>
    case Ok(Some(next)) =>
      DropIgnoresLater(next, stages, i + 1, j, later);
  }
}
