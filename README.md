# ant_nest in Dafny

ant_nest is an asyncio web-crawler framework. This project models its bookkeeping core and
proves properties of it. Four reimplementations of a bounded-concurrency task scheduler are
modelled:

- `Pool`;
- `CoroutinesPool`;
- the module-level scheduler in `queen.py`;
- the background coroutines of `Ant`.

Each keeps a running count, a FIFO of waiting tasks, a queue of completion tokens and, in two
cases, a closed flag. Each also offers an `as_completed` iterator that starts up to a limit of
tasks and refills one slot per completion. Besides the schedulers, the project models:

- the pipeline chain every request, response and item passes through, and the concrete
  pipelines;
- item access and the path-based and callable-based item extractors;
- the extraction utilities and the exception log filter;
- the per-class record counters of the reporter.

The event loop is not modelled as code. It is an external scheduler: the methods that
complete a task take, as a precondition, a task that is currently running. The loops that
wait for completions choose that task nondeterministically (`:|`), so what is proved holds
for every completion order. The async generators of `as_completed` are driven by a
sequential consumer, and each consumer step is one iteration of a Dafny loop.

### What the code offers and what it does not

- Retrying exists only as `RetryResponsePipeline`. It re-requests on a status of 400 or more and returns `None` when it gives up. There is no general retry combinator.
- Deadlines exist only as the `timeout_wrapper` functions. There is no separate deadline combinator or deadline error.
- Closing stops new work from being admitted. `Pool.wait_close` and `CoroutinesPool.close` first wait for the scheduled work to finish. No scheduler's close cancels running tasks, and nothing handles shutdown signals.
- For a positive limit, `as_completed` keeps at most `limit` tasks in flight. A limit of 0 or less starts the whole source at once.

Modules, one per source file:

- `Common`: shared vocabulary (awaitables, error tags, values, the item object);
- `TaskPool`: `pool.py`;
- `AsCompleted`: the `as_completed` session shared by all four schedulers;
- `CoroutinePool`: `coroutine_pool.py`;
- `Queen`: `queen.py`;
- `AntNest`: the scheduling and pipeline parts of `ant.py`;
- `Pipelines`: `pipelines.py`;
- `Things`: `things.py`;
- `Items`: `items.py`;
- `Reporting`: `reporter.py`;
- `Utils`: `utils.py`.

## Model

| member | source | states |
|---|---|---|
| Common.RemoveFirst | ant_nest/pool.py:85 | `list.remove(x)` drops one occurrence: the length falls by one and the multiset loses exactly one `x` |
| TaskPool.Pool.constructor | ant_nest/pool.py:15-22 | a new pool has nothing running, both queues empty and is not closed |
| TaskPool.Pool.DoneMeansAllObserved | ant_nest/pool.py:46-52 | `done` holds exactly when every admitted task has completed and every completion token has been taken by a waiter |
| TaskPool.Pool.Done | ant_nest/pool.py:46-52 | the `done` property: nothing running, no completion token queued and nothing pending; `DoneMeansAllObserved` states what that means |
| TaskPool.Pool.Spawn | ant_nest/pool.py:24-40 | on a closed pool nothing changes; otherwise the task starts (running count +1) when the limit is -1 or not reached, else joins the tail of the pending queue; the pool invariant (`running <= limit` for `limit >= 0`, FIFO start order, work conservation) is kept |
| TaskPool.Pool.Start | ant_nest/pool.py:34-38 | the start branch of `spawn`: running count +1, the task running, queues unchanged |
| TaskPool.Pool.Enqueue | ant_nest/pool.py:39-40 | the enqueue branch of `spawn`: the task at the tail of the pending queue, running count unchanged |
| TaskPool.Pool.Complete | ant_nest/pool.py:129-142 | one token appended; when the pool is open, the limit allows it and tasks wait, the head of the pending queue starts in the freed slot (count unchanged), otherwise the count drops by one |
| TaskPool.Pool.CompleteAndStartNext | ant_nest/pool.py:133-140 | the backfill branch: the head of the pending queue replaces the completed task |
| TaskPool.Pool.CompleteOnly | ant_nest/pool.py:129-131 | the no-backfill branch: count -1, pending queue unchanged |
| TaskPool.Pool.Close | ant_nest/pool.py:59-60 | sets `closed` and changes nothing else |
| TaskPool.Pool.WaitStep | ant_nest/pool.py:54-57 | one step of `wait_done`: it finishes when done, blocks on an empty token queue, and otherwise takes exactly the oldest token |
| TaskPool.Pool.Turn | ant_nest/pool.py:56-57 | one iteration of the `wait_done` loop takes a token and strictly decreases the outstanding work |
| TaskPool.Pool.Stuck | ant_nest/pool.py:46-57 | a pool that is not done, with no token and nothing running, has waiting tasks and is closed or has a limit that admits nothing |
| TaskPool.Pool.WaitDone | ant_nest/pool.py:54-57 | `wait_done` ends exactly when `done` holds; when it cannot end, the pool is stuck as in `Stuck`; the tokens it takes are appended to the observed ones |
| TaskPool.Pool.WaitClose | ant_nest/pool.py:62-66 | wait, close, wait: afterwards the pool is closed, and an open pool with a usable limit is done |
| TaskPool.Pool.AsCompleted | ant_nest/pool.py:68-108 | `as_completed` yields every source task exactly once (a permutation of the source positions), in completion order, the `k`-th result one of the first `k + limit` source tasks for a positive limit; under limit 1 in source order; the largest in-flight list (`peak`) is the initial batch, `InitialCount`, so at most `limit` in flight for a positive limit; the default limit is 50 |
| TaskPool.Pool.AsCompletedWithAsync | ant_nest/pool.py:110-127 | the outcomes come as a permutation of the source, in completion order, the `k`-th result one of the first `k + limit` source tasks for a positive limit; source order under limit 1; without `raise_exception` the yielded values are exactly the successes in completion order; with it (the default) the successes before the first failure, and that failure raised |
| TaskPool.SpawnAllThenWait | ant_nest/pool.py:24-57 | spawning N tasks into an open pool with a usable limit and then waiting takes exactly one token per task |
| AsCompleted.InitialCount | ant_nest/pool.py:96-102 | the initial batch is the whole source for a limit of 0 or less, otherwise at most `limit` |
| AsCompleted.Session.MoreResults | ant_nest/pool.py:107 | the loop condition `len(todo) > 0 or queue.qsize() > 0` of `pool.py`, `coroutine_pool.py` and `queen.py` |
| AsCompleted.Session.AntMoreResults | ant_nest/ant.py:158 | the loop condition `len(todo) > 0` of `ant.py`, which does not look at the result queue (`AntStopsEarly` shows the difference) |
| AsCompleted.WithinWindow | ant_nest/pool.py:83-102 | the completion orders a positive limit allows: the `k`-th completion is one of the first `k + limit` source tasks |
| AsCompleted.InFlightStarted | ant_nest/pool.py:96-105 | an in-flight task is one of the source tasks started so far |
| AsCompleted.InFlightWithinInitial | ant_nest/pool.py:83-105 | the in-flight list is never larger than the initial batch: refills replace a finished task, and once the source is exhausted it only shrinks |
| AsCompleted.Session.constructor | ant_nest/pool.py:79-105 | the session starts the initial batch in source order, with an empty result queue |
| AsCompleted.Session.Complete | ant_nest/pool.py:83-91 | a completion moves the task from `todo` to the result queue and pulls the next source item while there is one |
| AsCompleted.Session.CompleteAndPull | ant_nest/pool.py:83-89 | the branch in which the source has another item: it starts, without a deadline |
| AsCompleted.Session.CompleteLast | ant_nest/pool.py:90-91 | the branch in which the source is exhausted: nothing new starts |
| AsCompleted.Session.TakeStep | ant_nest/pool.py:93-94 | `_wait_for_one` takes the oldest queued result |
| AsCompleted.Deadlines | ant_nest/coroutine_pool.py:170-188 | one deadline per started task: the initial batch runs under the guard, the refills (raw `next(coroutines)`) under none |
| AsCompleted.DeadlinesSnoc | ant_nest/coroutine_pool.py:174 | a refill adds one task without a deadline |
| AsCompleted.MoveToFinished | ant_nest/pool.py:84-85 | moving a task from `todo` to the finished list keeps the multiset of started tasks |
| AsCompleted.PullPreserves | ant_nest/pool.py:83-89 | a completion with a refill keeps the session invariant (started = finished + in flight, `todo` within the limit, every completion within the window, source order under limit 1) |
| AsCompleted.LastPreserves | ant_nest/pool.py:83-91 | a completion without a refill keeps the same invariant |
| AsCompleted.WindowSnoc | ant_nest/pool.py:83-89 | a completion among the first `finished + limit` source tasks keeps the completion order within the window |
| AsCompleted.ScheduledInFlight | ant_nest/pool.py:83-91 | once the first `k` tasks of a schedule within the window have finished, its `k`-th task is in flight, so the event loop can complete it next |
| AsCompleted.Drain | ant_nest/pool.py:79-108 | the consumer loop `while len(todo) > 0 or queue.qsize() > 0` yields every source task exactly once, in completion order, the `k`-th result one of the first `k + limit` source tasks for a positive limit; under limit 1 in source order; the largest in-flight list (`peak`) is the initial batch, `InitialCount`, so at most `limit` in flight (everything for a limit of 0 or less) |
| AsCompleted.ReplaySchedule | ant_nest/pool.py:83-108 | the converse of `Drain`: every permutation of the source within the window is a completion order the event loop can produce, so `Drain`'s ordering clauses are exact |
| AsCompleted.AntDrain | ant_nest/ant.py:132-159 | the loop `while len(todo) > 0` yields a selection of distinct source tasks, in completion order within the window, at least one for a non-empty source, but not necessarily all |
| AsCompleted.AntStopsEarly | ant_nest/ant.py:158-159 | the schedule in which two tasks finish before the first result is taken: the loop of `ant.py` stops with a result still queued, the loop of `pool.py` continues |
| AsCompleted.Turn | ant_nest/pool.py:107-108 | one consumer step yields one result and decreases the outstanding work; `peak` only grows, covers the in-flight list and stays within the initial batch |
| AsCompleted.RunLoop | ant_nest/pool.py:83-91 | the event loop completes in-flight tasks until a result is queued; nothing is taken meanwhile; `peak` takes in every in-flight list and stays within the initial batch |
| AsCompleted.CompleteAny | ant_nest/pool.py:83-91 | the event loop completes one in-flight task of its choosing: a result is queued, nothing is taken, and the work still to start or finish shrinks; `peak'` is the larger of `peak` and the new in-flight list |
| AsCompleted.PermutationOfRange | ant_nest/pool.py:107-108 | a permutation of the source positions has one entry per source task, each a valid position |
| AsCompleted.TakenWithinSource | ant_nest/ant.py:158 | the results yielded by a consumer that stops early are a sub-multiset of the source |
| AsCompleted.Successes | ant_nest/pool.py:117-127 | the values of the successful outcomes, no more of them than outcomes |
| AsCompleted.FirstFailure | ant_nest/pool.py:117-122 | the position of the first failed outcome, with every outcome before it a success, or none when all succeed |
| AsCompleted.AllReturned | ant_nest/pool.py:117-119 | when no outcome fails, the successes are all the values, in order |
| AsCompleted.ConsumeResults | ant_nest/pool.py:117-127 | a consumer that logs failures yields every success; one that raises yields the successes before the first failure and then raises it |
| AsCompleted.FirstFailureAt | ant_nest/pool.py:120-122 | a failure preceded only by successes is the first failure |
| AsCompleted.NoFailure | ant_nest/pool.py:117-119 | all successes mean no failure is raised |
| AsCompleted.InOrder | ant_nest/pool.py:117-119 | the outcomes listed in completion order, one per yielded result |
| AsCompleted.InSourceOrder | ant_nest/pool.py:117-119 | under the identity order the outcomes come in source order |
| AsCompleted.DrainWithAsync | ant_nest/pool.py:110-127 | `as_completed_with_async`: completion order is a permutation within the window, source order under limit 1, and the values are the successes (or those before the first failure) |
| CoroutinePool.TimeoutWrapper | ant_nest/coroutine_pool.py:13-30 | a negative timeout returns the argument itself; otherwise an awaitable of the same kind (coroutine or coroutine function) running the same task under the deadline |
| CoroutinePool.Guard | ant_nest/coroutine_pool.py:25-30 | a task runs without a deadline exactly when the timeout is negative |
| CoroutinePool.CoroutinesPool.constructor | ant_nest/coroutine_pool.py:37-58 | the configured limit, timeout and `raise_exception`; nothing running, queues empty, not closed |
| CoroutinePool.CoroutinesPool.Status | ant_nest/coroutine_pool.py:84-92 | `'closed'` exactly when closed, `'running'` exactly when open with tasks running, `'ready'` otherwise |
| CoroutinePool.CoroutinesPool.Reset | ant_nest/coroutine_pool.py:94-99 | each setting changes only when its argument is given; the running count is still within the limit only if the new limit is unbounded or no smaller |
| CoroutinePool.CoroutinesPool.Schedule | ant_nest/coroutine_pool.py:101-139 | on a closed pool nothing changes; otherwise the wrapped coroutine (under the given or the pool's timeout) starts when the limit is -1 or not reached, else waits at the tail; the limit and work conservation are kept |
| CoroutinePool.CoroutinesPool.Start | ant_nest/coroutine_pool.py:134-137 | the start branch: running count +1 |
| CoroutinePool.CoroutinesPool.Enqueue | ant_nest/coroutine_pool.py:138-139 | the enqueue branch: the wrapped coroutine at the tail of the queue |
| CoroutinePool.CoroutinesPool.ScheduleMany | ant_nest/coroutine_pool.py:141-148 | schedules each coroutine in order: the admitted sequence grows by exactly their wrappers |
| CoroutinePool.CoroutinesPool.Complete | ant_nest/coroutine_pool.py:109-118 | one token; the head of the queue starts when the limit is -1 or the count is below it, whether or not the pool is closed |
| CoroutinePool.CoroutinesPool.CompleteAndStartNext | ant_nest/coroutine_pool.py:113-116 | the backfill branch |
| CoroutinePool.CoroutinesPool.CompleteOnly | ant_nest/coroutine_pool.py:109-111 | the no-backfill branch |
| CoroutinePool.CoroutinesPool.Turn | ant_nest/coroutine_pool.py:153-154 | one iteration of `wait_scheduled_coroutines` decreases the outstanding work |
| CoroutinePool.CoroutinesPool.WaitScheduled | ant_nest/coroutine_pool.py:150-154 | ends with nothing running and no token; the pending queue is not tested, and it is empty only when the pool was work-conserving under a usable limit |
| CoroutinePool.CoroutinesPool.Close | ant_nest/coroutine_pool.py:217-219 | drains and then closes: afterwards the status is `'closed'` |
| CoroutinePool.CoroutinesPool.AsCompleted | ant_nest/coroutine_pool.py:156-194 | the limit and timeout default to the pool's; every source task is yielded once, in completion order, the `k`-th result one of the first `k + limit` source tasks for a positive limit; in source order under limit 1; only the initial batch runs under the timeout |
| CoroutinePool.CoroutinesPool.AsCompletedWithAsync | ant_nest/coroutine_pool.py:196-215 | `raise_exception` defaults to the pool's; the outcomes come in completion order within the window, in source order under limit 1; without it all successes are yielded, with it the successes before the first failure, and that failure raised |
| CoroutinePool.WrapSnoc | ant_nest/coroutine_pool.py:147-148 | scheduling one more coroutine extends the wrapped sequence by its wrapper |
| CoroutinePool.ScheduleOnReady | ant_nest/coroutine_pool.py:84-92 | a fresh pool is `'ready'` and after scheduling one coroutine it is `'running'` |
| Queen.Wrap | ant_nest/queen.py:56-70 | `timeout_wrapper` always wraps, keeping the kind (coroutine or coroutine function) and the task |
| Queen.Queen.constructor | ant_nest/queen.py:16-22 | no loop, nothing running, empty queues, the limit 30 |
| Queen.Queen.InitLoop | ant_nest/queen.py:29-41 | raises `QueenError` exactly when a loop exists with running tasks or non-empty queues, changing nothing; otherwise installs the (given or ambient) loop and fresh empty queues |
| Queen.Queen.ResetConcurrentLimit | ant_nest/queen.py:50-53 | `None` keeps the limit, any other value replaces it |
| Queen.Queen.Schedule | ant_nest/queen.py:73-105 | initialises the queues lazily; starts the wrapped coroutine when `running < limit`, else enqueues it; there is no `-1` sentinel |
| Queen.Queen.Start | ant_nest/queen.py:100-103 | the start branch |
| Queen.Queen.Enqueue | ant_nest/queen.py:104-105 | the enqueue branch |
| Queen.Queen.ScheduleMany | ant_nest/queen.py:108-110 | schedules each coroutine in order; under a limit of 0 or less, starting from nothing running, every coroutine waits and none runs |
| Queen.Queen.Complete | ant_nest/queen.py:81-99 | one token; the head of the queue starts when the count is below the limit; there is no closed flag |
| Queen.Queen.CompleteAndStartNext | ant_nest/queen.py:93-97 | the backfill branch |
| Queen.Queen.CompleteOnly | ant_nest/queen.py:91-92 | the no-backfill branch |
| Queen.Queen.Turn | ant_nest/queen.py:117-118 | one iteration of the wait loop decreases the outstanding work |
| Queen.Queen.WaitScheduled | ant_nest/queen.py:113-118 | returns at once, changing nothing, without a loop; otherwise ends with nothing running and no token |
| Queen.Queen.AsCompleted | ant_nest/queen.py:121-155 | the default limit is 30 whatever `reset_concurrent_limit` did; every source task yielded once, in completion order, the `k`-th result one of the first `k + limit` source tasks for a positive limit; in source order under limit 1; the largest in-flight list is the initial batch |
| Queen.Queen.AsCompletedWithAsync | ant_nest/queen.py:158-170 | the outcomes come in completion order within the window, in source order under limit 1; `ignore_exception` (default true) skips failures; false yields the successes before the first failure and raises it |
| Queen.WrapSnoc | ant_nest/queen.py:108-110 | scheduling one more coroutine extends the wrapped sequence by its wrapper |
| Queen.ZeroLimitStrands | ant_nest/queen.py:100-118 | with the limit reset to 0, scheduled coroutines all wait and none ever runs |
| AntNest.ResolveTimeout | ant_nest/ant.py:161-162 | `DEFAULT_VALUE` (-1) resolves to `COROUTINE_TIMEOUT` (180), any other value to itself; the result is never -1 |
| AntNest.ResolveIdempotent | ant_nest/ant.py:92-93 | resolving an already resolved timeout changes nothing |
| AntNest.TimeoutWrapper | ant_nest/ant.py:160-167 | only a resolved timeout above 0 puts the coroutine under a deadline; the task is the same either way |
| AntNest.Guard | ant_nest/ant.py:160-167 | a task runs under a deadline exactly when the resolved timeout is positive |
| AntNest.ResolveLimit | ant_nest/ant.py:124-125 | `DEFAULT_VALUE` resolves to `CONCURRENT_LIMIT` (30) |
| AntNest.Ant.constructor | ant_nest/ant.py:31-38 | counts at zero, queues empty |
| AntNest.Ant.EnsureFuture | ant_nest/ant.py:90-119 | starts the wrapped coroutine when `count - done_count < 30`, else enqueues it; keeps `done_count <= count`, `count - done_count <= 30` and work conservation |
| AntNest.Ant.Complete | ant_nest/ant.py:95-112 | `done_count` +1, one token, and the head of the queue starts exactly when coroutines wait |
| AntNest.Ant.Turn | ant_nest/ant.py:170-173 | one iteration of the watch dog decreases the outstanding work |
| AntNest.Ant.RunUntilComplete | ant_nest/ant.py:170-173 | the watch dog stops exactly when `done_count == count`, with nothing running or waiting |
| AntNest.Ant.AsCompleted | ant_nest/ant.py:121-159 | under the resolved limit and timeout, the results yielded are distinct source tasks, in completion order within the window, at least one for a non-empty source |
| AntNest.Ant.AsCompletedCorrected | ant_nest/ant.py:121-159 | with the loop condition of `pool.py`, every source task is yielded once, in completion order, the `k`-th result one of the first `k + limit` source tasks for a positive limit; the largest in-flight list is the initial batch, so at most the resolved limit in flight; in source order under limit 1 |
| AntNest.Chain | ant_nest/ant.py:175-189 | the pipelines applied in order from stage `i`: a failure is either a drop (`ThingDropped`) at a stage at or after `i`, or an exception a pipeline raised |
| AntNest.HandleThingWithPipelines | ant_nest/ant.py:175-189 | the loop computes `Chain`; on success every pipeline ran, on a drop none after the dropping one |
| AntNest.IdentityChain | ant_nest/ant.py:180-189 | identity pipelines return the same thing |
| AntNest.DropIgnoresLater | ant_nest/ant.py:184-188 | after a drop at stage j, replacing the later pipelines changes nothing |
| Pipelines.BaseProcess | ant_nest/pipelines.py:21-23 | the base pipeline hands on its input |
| Pipelines.BasePipelinesPassThrough | ant_nest/pipelines.py:21-23 | a chain of base pipelines returns its input |
| Pipelines.ReportPipeline.constructor | ant_nest/pipelines.py:27-30 | count 0, no report type |
| Pipelines.ReportPipeline.Process | ant_nest/pipelines.py:32-35 | count +1, the report type fixed by the first thing, and `None` returned |
| Pipelines.ReportPipelineDropsInChain | ant_nest/pipelines.py:32-35 | in a chain a report pipeline drops the thing at its stage |
| Pipelines.FilterErrorResponse | ant_nest/pipelines.py:43-49 | `None` exactly when the status is 400 or more, else the same response |
| Pipelines.FirstSuccess | ant_nest/pipelines.py:57-65 | the first checked response with a status below 400; any response it returns has such a status |
| Pipelines.Attempt | ant_nest/pipelines.py:59-62 | the response looked at in round `k`: the original one in round 0, and after that the reply to re-requesting the previous round's request |
| Pipelines.RetryResponse | ant_nest/pipelines.py:57-65 | the loop returns `FirstSuccess`; at most `retries + 1` responses checked and re-requests made; when it gives up the last re-request is never inspected |
| Pipelines.RetryReturnsFirstSuccess | ant_nest/pipelines.py:59-64 | the first successful attempt within the retries is the one returned |
| Pipelines.RetryGivesUp | ant_nest/pipelines.py:58-65 | `None` exactly when every checked response fails |
| Pipelines.Request.constructor | ant_nest/things.py:18-25 | the request fields the request pipelines touch |
| Pipelines.NoRedirects | ant_nest/pipelines.py:70-73 | redirects off, at most 0, same object, proxy unchanged |
| Pipelines.ProxyRequestPipeline.constructor | ant_nest/pipelines.py:77-79 | the proxy is stored |
| Pipelines.ProxyRequestPipeline.Process | ant_nest/pipelines.py:81-83 | sets the proxy on the same object, other fields unchanged |
| Pipelines.Replace | ant_nest/pipelines.py:108 | `str.replace(pattern, '')`: never longer, and an empty pattern changes nothing |
| Pipelines.RemoveEach | ant_nest/pipelines.py:107-108 | each excess string removed in tuple order: the value never grows, and empty excess strings leave it unchanged |
| Pipelines.Without | ant_nest/pipelines.py:108 | removes the characters of a set: nothing of the set remains |
| Pipelines.ReplaceOneChar | ant_nest/pipelines.py:108 | removing a one-character pattern filters that character out |
| Pipelines.WithoutTwice | ant_nest/pipelines.py:107-108 | filtering by one set and then another is filtering by their union |
| Pipelines.CharsOf | ant_nest/pipelines.py:107 | the set of the one-character excess strings |
| Pipelines.RemoveEachFilters | ant_nest/pipelines.py:107-108 | with one-character excess strings, removing each in tuple order filters them all out, order of the rest kept |
| Pipelines.WithoutNothing | ant_nest/pipelines.py:108 | filtering by no characters changes nothing |
| Pipelines.RemoveEachIdempotent | ant_nest/pipelines.py:106-108 | with one-character excess strings, applying the removal twice is applying it once |
| Pipelines.LongerExcessNotIdempotent | ant_nest/pipelines.py:107-108 | with a longer excess string the removal is not idempotent (`"aabb"` with `"ab"`) |
| Pipelines.ScrubField | ant_nest/pipelines.py:107-108 | cleans one listed field; when that succeeds the item keeps its keys and every other field is unchanged |
| Pipelines.Scrub | ant_nest/pipelines.py:106-108 | every listed field cleaned in order; the fields not listed are unchanged |
| Pipelines.ReplaceItemFiledPipeline.constructor | ant_nest/pipelines.py:100-103 | the excess strings default to `'\r'`, `'\n'`, `'\t'` |
| Pipelines.ReplaceItemFiledPipeline.ScrubOne | ant_nest/pipelines.py:107-108 | the inner loop over the excess strings leaves the field as `ScrubField` says, or stops with its error before changing anything |
| Pipelines.ReplaceItemFiledPipeline.Process | ant_nest/pipelines.py:105-109 | the nested loops leave the item's fields as `Scrub` says, or stop with its error |
| Pipelines.MissingFieldRaises | ant_nest/pipelines.py:108 | a missing listed field raises `KeyError` |
| Pipelines.ScrubFilters | ant_nest/pipelines.py:106-108 | when no error occurs, each listed field holds its text with the excess characters filtered out |
| Things.SetValueToItem | ant_nest/things.py:76-80 | the key holds the value, nothing else changes |
| Things.GetValueByItem | ant_nest/things.py:83-93 | the value under the key, otherwise the default; `ItemGetValueError` exactly when both are missing |
| Things.SetThenGet | ant_nest/things.py:76-93 | getting after setting returns the value set, on mappings and attribute objects |
| Things.GetFromFresh | ant_nest/things.py:83-93 | a missing key gives the default if one was given, else `ItemGetValueError` |
| Things.JoinStrings | ant_nest/things.py:161-164 | the matches joined, taking only the strings: `''` when no match is a string |
| Things.JoinStringsAppend | ant_nest/things.py:161-164 | joining distributes over concatenation of the match lists |
| Things.ExtractValue | ant_nest/things.py:147-165 | `ValueError` for an unknown path type; for a known one, the search's own error is passed on unchanged, and otherwise the only error is `IndexError`, raised exactly when take_first meets an empty match list; on success take_first gives element 0, join_all the joined strings, any other type the list as is |
| Things.FormatAsString | ant_nest/things.py:184-186 | `'{:s}'.format` succeeds exactly on strings |
| Things.ConflictError | ant_nest/things.py:182-186 | two different results raise `ItemExtractError` exactly when both are strings |
| Things.IntConflictRaisesValueError | ant_nest/things.py:184-186 | two different integer results raise `ValueError` |
| Things.Merge | ant_nest/things.py:173-187 | merges the paths of one key in order, skipping `IndexError`; once a value is set, a successful merge keeps it |
| Things.MergePaths | ant_nest/things.py:175-187 | the inner loop over one key's paths computes `Merge`: the value the paths agree on, none when all raised `IndexError`, or the exception that stopped it |
| Things.MergedPathsAgree | ant_nest/things.py:181-187 | when the merge succeeds, every successful path gave the merged value |
| Things.MergeUnsetIffAllMissing | ant_nest/things.py:178-189 | the key stays unset exactly when every path raised `IndexError` |
| Things.FieldsFrom | ant_nest/things.py:172-190 | the loop over the keys: fields already set are never removed, and an error is the one that some key's paths raised |
| Things.ConflictFails | ant_nest/things.py:181-186 | two successful paths with different results make the extraction fail |
| Things.FieldsSetExactly | ant_nest/things.py:172-190 | a successful extraction sets exactly the keys whose merge found a value, each to the merged value |
| Things.ItemExtractor.constructor | ant_nest/things.py:101-105 | no paths |
| Things.ItemExtractor.Add | ant_nest/things.py:104-116 | a path appended to the key's list, other keys unchanged, keys in first-use order |
| Things.ItemExtractor.AddXpath | ant_nest/things.py:107-109 | appends an xpath path, take_first by default |
| Things.ItemExtractor.AddRegex | ant_nest/things.py:111-113 | appends a regex path, take_first by default |
| Things.ItemExtractor.AddJpath | ant_nest/things.py:115-116 | appends a jpath path, take_first by default |
| Things.ItemExtractor.Extract | ant_nest/things.py:167-190 | the nested loops build a fresh item with the fields `FieldsFrom` gives, or stop with its error |
| Things.ItemNestExtractor.constructor | ant_nest/things.py:194-198 | the root path and an empty extractor |
| Things.ItemNestExtractor.Extract | ant_nest/things.py:200-201 | always raises `NotImplementedError` |
| Things.ItemNestExtractor.ExtractItems | ant_nest/things.py:203-209 | one item per root node, in order, until the first error |
| Items.SetValue | ant_nest/items.py:19-23 | the key holds the value, nothing else changes |
| Items.GetValue | ant_nest/items.py:26-33 | the value under the key; `ItemGetValueError` exactly when it is missing, with no default |
| Items.SetThenGet | ant_nest/items.py:19-31 | getting after setting returns the value set |
| Items.GetUnset | ant_nest/items.py:26-33 | a missing key raises `ItemGetValueError` whatever else is set |
| Items.Extractor.constructor | ant_nest/items.py:37-41 | no extractors |
| Items.Extractor.AddExtractor | ant_nest/items.py:43-46 | one extractor per key, a re-added key replaced in its place |
| Items.Extractor.Extract | ant_nest/items.py:48-53 | a fresh item in which every registered key holds its extractor's result, and nothing else is set |
| Items.NestExtractor.constructor | ant_nest/items.py:57-63 | the root extractor and no key extractors |
| Items.NestExtractor.ExtractItems | ant_nest/items.py:65-67 | one item per root node, in root order, each extracted from its node |
| Reporting.Record.constructor | ant_nest/reporter.py:8-12 | all four counters at 0 |
| Reporting.AfterAdd | ant_nest/reporter.py:14-18 | the counters after `add`; `AddCountsOne` states its properties |
| Reporting.AddCountsOne | ant_nest/reporter.py:14-18 | `add` raises exactly one counter by one, the dropped one when `dropped`, and leaves both marks alone, so they still trail |
| Reporting.AfterSlot | ant_nest/reporter.py:43-44 | the counters after one slot; `SlotCatchesUp` states its properties |
| Reporting.SlotCatchesUp | ant_nest/reporter.py:43-44 | after a slot both rates measured from the new marks are 0, the marks trail, and the counters are kept |
| Reporting.CountDelta | ant_nest/reporter.py:41 | the logged seen rate; never negative while the marks trail |
| Reporting.DroppedDelta | ant_nest/reporter.py:42 | the logged dropped rate as written, measured from `last_count`; `DroppedDeltaAgrees` relates it to the intended rate |
| Reporting.DroppedDeltaAgrees | ant_nest/reporter.py:42-44 | the dropped rate as written equals the rate measured from `dropped_last_count` exactly when the two marks coincide |
| Reporting.IntendedDroppedDelta | ant_nest/reporter.py:42-44 | the dropped rate measured from `dropped_last_count`; never negative while the marks trail |
| Reporting.Record.Add | ant_nest/reporter.py:14-18 | a drop increments `dropped_count`, anything else `count`; nothing else changes |
| Reporting.Record.Slot | ant_nest/reporter.py:40-44 | logs `count - last_count` and `dropped_count - last_count`, then both marks catch up |
| Reporting.Reporter.constructor | ant_nest/reporter.py:22-23 | no records |
| Reporting.Reporter.Report | ant_nest/reporter.py:28-29 | with `dropped` defaulting to false, the record of the class counts the thing, created zeroed on first use; other records unchanged |
| Reporting.Reporter.ReportKnown | ant_nest/reporter.py:28-29 | a report for a class with a record counts in that record only |
| Reporting.Reporter.ReportNew | ant_nest/reporter.py:28-29 | a report for a new class adds its record at the end of the insertion order and counts in it; other records unchanged |
| Reporting.Reporter.AddRecord | ant_nest/reporter.py:23 | the `defaultdict(Record)` default: a new zeroed record, distinct from all others, at the end of the insertion order |
| Reporting.Reporter.SlotAt | ant_nest/reporter.py:40-44 | one turn of the loop: the record of one name logs its rates and catches up, no other record changes |
| Reporting.Reporter.SlotAll | ant_nest/reporter.py:40-44 | after the loop over the records every record has logged the rates of its counters as the slot began and caught up |
| Reporting.Reporter.LogSlot | ant_nest/reporter.py:40-44 | every record, in insertion order, logs its rates and its marks catch up |
| Reporting.RunConsistent | ant_nest/reporter.py:14-44 | the marks never pass the counters, and the counters only grow |
| Reporting.SeenTelescopes | ant_nest/reporter.py:41-43 | the logged seen rates add up to the things seen up to the last slot |
| Reporting.IntendedDropsTelescope | ant_nest/reporter.py:42-44 | measured from `dropped_last_count`, the logged drop rates add up to the drops up to the last slot |
| Reporting.IntendedRatesNonNegative | ant_nest/reporter.py:42-44 | measured from `dropped_last_count`, no logged rate is negative |
| Reporting.DropAfterSlot | ant_nest/reporter.py:42 | one drop after a slot is logged as 0 drops |
| Reporting.ReportedDropsMiscount | ant_nest/reporter.py:42 | as written, a run with one drop logs drop rates adding up to 0 |
| Reporting.ReportedDropsNegative | ant_nest/reporter.py:42 | as written, a slot with nothing new after a seen thing logs -1 drops |
| Utils.ExtractValue | ant_nest/utils.py:17-26 | the `extract_value` result when it succeeds; on an exception the default (`None`) when ignoring (the default), the exception otherwise |
| Utils.IgnoringNeverRaises | ant_nest/utils.py:22-24 | while ignoring exceptions it never raises |
| Utils.DefaultsTakeFirstOrNone | ant_nest/utils.py:17-24 | with the defaults, no match gives `None`, otherwise the first match |
| Utils.UnknownPathType | ant_nest/utils.py:17-26 | an unknown path type gives the default, or `ValueError` when exceptions are asked for |
| Utils.ExtractValueByXpath | ant_nest/utils.py:29-32 | `extract_value` with `'xpath'`, other arguments passed through |
| Utils.ExtractValueByJpath | ant_nest/utils.py:35-38 | `extract_value` with `'jpath'`, other arguments passed through |
| Utils.ExtractValueByRegex | ant_nest/utils.py:41-44 | `extract_value` with `'regex'`, other arguments passed through |
| Utils.ShortcutsSearchTheirOwnType | ant_nest/utils.py:29-44 | each shortcut searches with its own path type, so it never raises the unknown-type `ValueError` itself |
| Utils.ExceptionFilter.constructor | ant_nest/utils.py:50-52 | the listed types are stored |
| Utils.ExceptionFilter.Filter | ant_nest/utils.py:54-59 | a record is kept exactly when it has no exception or its type is not itself listed, so subclasses of listed types pass |

## Left out

- The asyncio event loop itself (`ensure_future`, `add_done_callback`, `Queue.get` blocking): completion order is an input chosen by the caller or left nondeterministic. A blocking `get` on an empty queue becomes a wait step that reports it blocked.
- Deadline timing: `async_timeout`, the cancellation it causes and `asyncio.sleep`. The model keeps only which tasks run under which deadline, and the sign dispatch on the timeout.
- Logging, `__repr__`, `__del__`, and the re-raise of a task's exception inside a done-callback. None of these change the modelled state.
- `queen.get_loop` and the `loop` argument of `queen.as_completed`. The event loop is an identity (`nat`); the ambient loop is a parameter.
- The iteration order of the `fs` set in the `as_completed` variants: the initial batch goes into the in-flight list in source order. The tasks themselves are created in source order, since `ensure_future` runs as the `islice` yields. Only the order of the in-flight list and of the done-callback registrations depends on the set. The model lets the event loop complete any in-flight task at any time, so no completion order depends on that order.
- Source iterables: sources are finite sequences. The non-list branch of `Ant.as_completed` (which requires an iterator) is not modelled.
- Network and HTTP: `Ant.request`, `_request`, `_convert_response`, sessions, and the aiohttp request and response classes beyond the fields the pipelines touch. `RetryResponse` takes the re-request as a function parameter.
- Xpath, regex and jpath evaluation: a `Searcher` function parameter that returns matches or an error.
- `Pipeline.on_spider_open`/`on_spider_close`, `Ant.open`/`close`/`main`, `PrintItemPipeline` (printing) and `ValidateItemPipeline` (calls user validation): these are I/O or user code.
- `Reporter.close` and the `_log` timer: only the body of one slot is modelled.
- Python values are reduced to `None`, strings, integers, lists and opaque objects. Formatting a float or bool with `{:s}` is modelled as raising `TypeError` (Python raises `ValueError` for them). `str.replace` on a non-string field is modelled as `AttributeError`.
- Items.Extractor.Extract: extractor callables are total functions, so an exception raised by a user extractor is not modelled.
- CoroutinePool.CoroutinesPool.Schedule is given coroutines only. A coroutine function passed in is modelled as a task that starts and runs. In the source, `asyncio.ensure_future` then raises `TypeError` after the running count was raised, so the slot is never given back; the model does not capture that leak. The same holds for the refill in its done-callback (ant_nest/coroutine_pool.py:113-116).
- CoroutinePool.CoroutinesPool.ScheduleMany is given coroutines only. A coroutine function passed in is modelled as a task that starts and runs. In the source, `asyncio.ensure_future` then raises `TypeError` after the running count was raised, so the slot is never given back; the model does not capture that leak.
- Queen.Queen.Schedule is given coroutines only. A coroutine function passed in is modelled as a task that starts and runs. In the source, `asyncio.ensure_future` then raises `TypeError` after the running count was raised, so the slot is never given back; the model does not capture that leak.
- Queen.Queen.ScheduleMany is given coroutines only. A coroutine function passed in is modelled as a task that starts and runs. In the source, `asyncio.ensure_future` then raises `TypeError` after the running count was raised, so the slot is never given back; the model does not capture that leak.
- TaskPool.Pool.WaitDone admits no new work while it waits. In the source, a running task may schedule more work on the same scheduler during the wait; the model does not capture that interleaving. Scheduling on its own keeps the invariant, so each interleaved step would keep it too.
- CoroutinePool.CoroutinesPool.WaitScheduled admits no new work while it waits. In the source, a running task may schedule more work on the same scheduler during the wait; the model does not capture that interleaving. Scheduling on its own keeps the invariant, so each interleaved step would keep it too.
- Queen.Queen.WaitScheduled admits no new work while it waits. In the source, a running task may schedule more work on the same scheduler during the wait; the model does not capture that interleaving. Scheduling on its own keeps the invariant, so each interleaved step would keep it too.
- AntNest.Ant.RunUntilComplete admits no new work while it waits. In the source, a running task may schedule more work on the same scheduler during the wait; the model does not capture that interleaving. Scheduling on its own keeps the invariant, so each interleaved step would keep it too.
- `exceptions.py` is not part of this model. `items.py` imports an `ItemGetValueError` that the included `exceptions.py` does not declare; the model treats it as one more error tag.

## Findings

| source | as written | input that shows it | evidently intended | confidence | as-written member | corrected member |
|---|---|---|---|---|---|---|
| ant_nest/ant.py:158 | `while len(todo) > 0:` ends the generator as soon as no task is in flight | two coroutines under the default limit that both finish before the consumer takes the first result: the second result stays queued and is never yielded | `while len(todo) > 0 or queue.qsize() > 0:`, the loop of ant_nest/pool.py:107 | not executed; high | AsCompleted.AntStopsEarly | AntNest.Ant.AsCompletedCorrected |
| ant_nest/reporter.py:42 | `dropped_count = record.dropped_count - record.last_count` | one thing seen, a slot, one thing dropped, a slot: the second slot logs 0 drops; a further empty slot logs -1 | `record.dropped_count - record.dropped_last_count` | not executed; high | Reporting.ReportedDropsMiscount | Reporting.IntendedDropsTelescope |

The first row is modelled as written by `AsCompleted.AntDrain`, which `AntNest.Ant.AsCompleted` uses. The corrected loop is `AsCompleted.Drain`, which the other three `as_completed` variants use as well. In the second row, `Reporting.DroppedDelta` is the rate as written and `Reporting.IntendedDroppedDelta` the corrected one. `Reporting.IntendedRatesNonNegative` also proves that the corrected rate is never negative.
