/** The `as_completed` refill session shared by ant_nest/pool.py, ant_nest/coroutine_pool.py,
    ant_nest/queen.py and ant_nest/ant.py: it starts up to `limit` tasks of a source sequence,
    and every completion moves one task from the in-flight list `todo` to a result queue and
    pulls the next source task. Tasks are known by their position in the source. */
module AsCompleted {
  import opened Common

  /** The timeout a started task runs under. */
  datatype Deadline = NoDeadline | Within(seconds: real)

  /** How many source tasks are started before the first result is awaited: all of them for a
      limit of 0 or less, otherwise at most `limit`. */
  function InitialCount(total: nat, limit: int): (k: nat)
    ensures k <= total
    ensures 0 < limit ==> k <= limit
    ensures k < total ==> 0 < limit && k == limit
  {
    if limit <= 0 || total <= limit then total else limit
  }

  class Session {
    /** The length of the source sequence. */
    const total: nat
    const limit: int
    /** The timeout wrapper the initial tasks run under (the source does not wrap refills). */
    const guard: Deadline
    const initial: nat
    /** How many source tasks have been started: the source iterator's position. */
    var next: nat
    /** The in-flight tasks. */
    var todo: seq<nat>
    /** Finished tasks whose results have not been taken yet. */
    var queue: seq<nat>
    /** The timeout each started task runs under, by source position. */
    var deadlines: seq<Deadline>
    /** Every completion, in completion order. */
    ghost var finished: seq<nat>
    /** Every result the consumer has taken, in order. */
    ghost var taken: seq<nat>

    ghost predicate Valid()
      reads this
    {
      && Accounted(total, limit, next, todo, finished)
      && initial == InitialCount(total, limit) && initial <= next
      && deadlines == Deadlines(initial, next, guard)
      && finished == taken + queue
    }

    /** The loop condition of ant_nest/pool.py, coroutine_pool.py and queen.py. */
    predicate MoreResults()
      reads this
    {
      todo != [] || queue != []
    }

    /** The loop condition of ant_nest/ant.py, which does not look at the result queue. */
    predicate AntMoreResults()
      reads this
    {
      todo != []
    }

    /** What the drain still waits for; every completion and every take makes it smaller. */
    function Outstanding(): nat
      reads this
      requires Valid()
    {
      2 * (total - next) + 2 * |todo| + |queue|
    }

    /** The set-up before the first yield: the first `InitialCount` source tasks start, each
        under the timeout wrapper. */
    constructor (total: nat, limit: int, guard: Deadline)
      ensures Valid()
      ensures this.total == total && this.limit == limit && this.guard == guard
      ensures next == InitialCount(total, limit) && todo == Range(next) && queue == []
      ensures finished == [] && taken == []
    {
      this.total := total;
      this.limit := limit;
      this.guard := guard;
      var k := InitialCount(total, limit);
      initial := k;
      next := k;
      todo := Range(k);
      queue := [];
      deadlines := Deadlines(k, k, guard);
      finished := [];
      taken := [];
    }

    /** The session's done-callback: task `p` finished. */
    method Complete(p: nat)
      requires Valid() && p in todo
      modifies this
      ensures Valid()
      ensures queue == old(queue) + [p] && finished == old(finished) + [p]
      ensures old(next) < total ==>
        && next == old(next) + 1 && todo == RemoveFirst(old(todo), p) + [old(next)]
        && deadlines == old(deadlines) + [NoDeadline]
      ensures old(next) == total ==>
        && next == old(next) && todo == RemoveFirst(old(todo), p) && deadlines == old(deadlines)
      ensures taken == old(taken)
    {
      if next < total {
        CompleteAndPull(p);
      } else {
        CompleteLast(p);
      }
    }

    /** A completion while the source lasts: the next source task starts, unwrapped. */
    method CompleteAndPull(p: nat)
      requires Valid() && p in todo && next < total
      modifies this
      ensures Valid()
      ensures queue == old(queue) + [p] && finished == old(finished) + [p]
      ensures next == old(next) + 1 && todo == RemoveFirst(old(todo), p) + [old(next)]
      ensures deadlines == old(deadlines) + [NoDeadline] && taken == old(taken)
    {
      ghost var todo0, finished0, next0 := todo, finished, next;
      DeadlinesSnoc(initial, next, guard);
      queue := queue + [p];
      finished := finished + [p];
      todo := RemoveFirst(todo, p) + [next];
      deadlines := deadlines + [NoDeadline];
      next := next + 1;
      PullPreserves(total, limit, next0, todo0, finished0, p, next, todo, finished);
    }

    /** A completion once the source is exhausted: nothing starts. */
    method CompleteLast(p: nat)
      requires Valid() && p in todo && next == total
      modifies this
      ensures Valid()
      ensures queue == old(queue) + [p] && finished == old(finished) + [p]
      ensures next == old(next) && todo == RemoveFirst(old(todo), p)
      ensures deadlines == old(deadlines) && taken == old(taken)
    {
      ghost var todo0, finished0 := todo, finished;
      queue := queue + [p];
      finished := finished + [p];
      todo := RemoveFirst(todo, p);
      LastPreserves(total, limit, next, todo0, finished0, p, todo, finished);
    }

    /** `_wait_for_one`: the consumer takes the earliest finished result, or stays suspended
        (`None`) while the queue is empty. */
    method TakeStep() returns (r: Option<nat>)
      requires Valid()
      modifies this`queue, this`taken
      ensures Valid()
      ensures old(queue) == [] ==> r == None && queue == [] && taken == old(taken)
      ensures old(queue) != [] ==>
        && r == Some(old(queue)[0]) && queue == old(queue)[1..] && taken == old(taken) + [old(queue)[0]]
    {
      if queue == [] {
        return None;
      }
      var p := queue[0];
      assert queue == [p] + queue[1..];
      queue := queue[1..];
      taken := taken + [p];
      r := Some(p);
    }
  }

  /** The timeouts of the first `next` started tasks: the initial ones run under `guard`, the
      refills under none. */
  function Deadlines(initial: nat, next: nat, guard: Deadline): (d: seq<Deadline>)
    ensures |d| == next
  {
    seq(next, i => if i < initial then guard else NoDeadline)
  }

  lemma DeadlinesSnoc(initial: nat, next: nat, guard: Deadline)
    requires initial <= next
    ensures Deadlines(initial, next + 1, guard) == Deadlines(initial, next, guard) + [NoDeadline]
  {
  }

  /** The completion orders a positive limit allows: while `k` tasks have finished, at most
      `k + limit` have started, so the `k`-th completion is one of the first `k + limit` source
      tasks. */
  predicate WithinWindow(order: seq<nat>, limit: int) {
    0 < limit ==> forall k :: 0 <= k < |order| ==> order[k] < k + limit
  }

  /** The bookkeeping of a session: the started tasks are exactly the finished ones and the
      in-flight ones; the in-flight list never exceeds a positive limit and stays full while the
      source lasts, so every completion lies within the window; with a limit of 1 the tasks
      finish in source order. */
  ghost predicate Accounted(total: nat, limit: int, next: nat, todo: seq<nat>, finished: seq<nat>) {
    && next <= total
    && |finished| + |todo| == next
    && multiset(finished) + multiset(todo) == multiset(Range(next))
    && (0 < limit ==> |todo| <= limit)
    && (next < total ==> 0 < limit && |todo| == limit)
    && WithinWindow(finished, limit)
    && (limit == 1 ==> finished + todo == Range(next))
  }

  /** The in-flight list is never larger than the initial batch. */
  lemma InFlightWithinInitial(total: nat, limit: int, next: nat, todo: seq<nat>, finished: seq<nat>)
    requires Accounted(total, limit, next, todo, finished)
    ensures |todo| <= InitialCount(total, limit)
  {
  }

  /** An in-flight task is one of the started ones. */
  lemma InFlightStarted(next: nat, todo: seq<nat>, finished: seq<nat>, p: nat)
    requires multiset(finished) + multiset(todo) == multiset(Range(next)) && p in todo
    ensures p < next
  {
    assert p in multiset(Range(next));
  }

  /** A completion moves one task from the in-flight list to the finished ones. */
  lemma MoveToFinished(todo: seq<nat>, finished: seq<nat>, p: nat)
    requires p in todo
    ensures multiset(finished + [p]) + multiset(RemoveFirst(todo, p)) == multiset(finished) + multiset(todo)
  {
    assert multiset(todo) == multiset(RemoveFirst(todo, p)) + multiset{p};
  }

  /** A completion among the first `|finished| + limit` tasks stays within the window. */
  lemma WindowSnoc(finished: seq<nat>, p: nat, limit: int)
    requires WithinWindow(finished, limit) && (0 < limit ==> p < |finished| + limit)
    ensures WithinWindow(finished + [p], limit)
  {
    if 0 < limit {
      forall k | 0 <= k < |finished + [p]| ensures (finished + [p])[k] < k + limit {
        if k < |finished| {
          assert (finished + [p])[k] == finished[k];
        }
      }
    }
  }

  /** A completion that pulls the next source task keeps the bookkeeping. */
  lemma PullPreserves(total: nat, limit: int, next: nat, todo: seq<nat>, finished: seq<nat>, p: nat,
                      next': nat, todo': seq<nat>, finished': seq<nat>)
    requires Accounted(total, limit, next, todo, finished) && p in todo && next < total
    requires next' == next + 1 && todo' == RemoveFirst(todo, p) + [next] && finished' == finished + [p]
    ensures Accounted(total, limit, next', todo', finished')
  {
    RangeSnoc(next);
    MoveToFinished(todo, finished, p);
    InFlightStarted(next, todo, finished, p);
    WindowSnoc(finished, p, limit);
    assert multiset(todo') == multiset(RemoveFirst(todo, p)) + multiset{next};
    assert multiset(finished') + multiset(todo') == multiset(Range(next + 1));
    assert |todo'| == |todo|;
    if limit == 1 {
      assert todo == [p] && todo' == [next];
      assert finished' + todo' == (finished + todo) + [next];
    }
  }

  /** A completion that pulls nothing keeps the bookkeeping. */
  lemma LastPreserves(total: nat, limit: int, next: nat, todo: seq<nat>, finished: seq<nat>, p: nat,
                      todo': seq<nat>, finished': seq<nat>)
    requires Accounted(total, limit, next, todo, finished) && p in todo && next == total
    requires todo' == RemoveFirst(todo, p) && finished' == finished + [p]
    ensures Accounted(total, limit, next, todo', finished')
  {
    MoveToFinished(todo, finished, p);
    InFlightStarted(next, todo, finished, p);
    WindowSnoc(finished, p, limit);
    if limit == 1 {
      assert todo == [p] && RemoveFirst(todo, p) == [];
      assert finished + [p] + [] == finished + todo;
    }
  }

  /** A sequential consumer of `as_completed` (ant_nest/pool.py:107-108): it awaits one yielded
      result after another while tasks are in flight or results are queued, and the event loop
      completes any in-flight tasks, any number of them, before each result is taken. Whatever
      the event loop chooses, exactly one result is yielded per source task, in completion
      order, so the `k`-th result is one of the first `k + limit` source tasks (`ReplaySchedule`
      shows that every such order can happen); the largest in-flight list, `peak`, is the
      initial batch, so at most `limit` tasks are in flight at once; with
      a limit of 1 the results come in source order; only the tasks started before the first
      yield run under `guard`. */
  method Drain(total: nat, limit: int, guard: Deadline) returns (order: seq<nat>, peak: nat, deadlines: seq<Deadline>)
    ensures multiset(order) == multiset(Range(total))
    ensures |order| == total && forall k :: 0 <= k < |order| ==> order[k] < total
    ensures WithinWindow(order, limit)
    ensures limit == 1 ==> order == Range(total)
    ensures peak == InitialCount(total, limit)
    ensures 0 < limit ==> peak <= limit
    ensures limit <= 0 ==> peak == total
    ensures deadlines == Deadlines(InitialCount(total, limit), total, guard)
  {
    var s := new Session(total, limit, guard);
    order := [];
    peak := |s.todo|;
    while s.MoreResults()
      invariant s.Valid() && s.total == total && s.limit == limit && s.guard == guard
      invariant order == s.taken
      invariant |s.todo| <= peak == s.initial
      decreases s.Outstanding()
    {
      order, peak := Turn(s, order, peak);
    }
    assert s.next == total && s.finished == order;
    PermutationOfRange(order, total);
    deadlines := s.deadlines;
  }

  /** The converse of `Drain`'s ordering clauses: any permutation of the source within the
      window is a completion order the event loop can choose. Completing the tasks of
      `schedule` one at a time, each result taken as soon as it is queued, yields `schedule`. */
  method ReplaySchedule(total: nat, limit: int, schedule: seq<nat>) returns (order: seq<nat>)
    requires multiset(schedule) == multiset(Range(total)) && WithinWindow(schedule, limit)
    ensures order == schedule
  {
    PermutationOfRange(schedule, total);
    var s := new Session(total, limit, NoDeadline);
    order := [];
    var k := 0;
    while k < total
      invariant 0 <= k <= total
      invariant s.Valid() && s.total == total && s.limit == limit
      invariant s.finished == schedule[..k] && s.queue == [] && order == s.taken
    {
      var p := schedule[k];
      ScheduledInFlight(total, limit, s.next, s.todo, s.finished, schedule, k);
      PrefixSnoc(schedule, k);
      s.Complete(p);
      var r := s.TakeStep();
      order := order + [r.value];
      k := k + 1;
    }
    assert schedule[..total] == schedule;
  }

  /** When the first `k` tasks of `schedule` have finished, its `k`-th task is in flight. */
  lemma ScheduledInFlight(total: nat, limit: int, next: nat, todo: seq<nat>, finished: seq<nat>,
                          schedule: seq<nat>, k: nat)
    requires Accounted(total, limit, next, todo, finished)
    requires multiset(schedule) == multiset(Range(total)) && WithinWindow(schedule, limit)
    requires k < |schedule| && finished == schedule[..k]
    ensures schedule[k] in todo
  {
    var p := schedule[k];
    PermutationOfRange(schedule, total);
    assert p < next;
    NotYetFinished(schedule, total, k);
    RangeOnce(next, p);
    assert multiset(todo)[p] == 1;
  }

  lemma PrefixSnoc(xs: seq<nat>, k: nat)
    requires k < |xs|
    ensures xs[..k + 1] == xs[..k] + [xs[k]]
  {
  }

  /** Every position below `n` occurs once in `Range(n)`, and no other value occurs. */
  lemma {:induction false} RangeOnce(n: nat, x: nat)
    ensures multiset(Range(n))[x] == if x < n then 1 else 0
  {
    if n > 0 {
      RangeSnoc(n - 1);
      RangeOnce(n - 1, x);
    }
  }

  /** In a permutation of the source, the `k`-th task is not among the first `k`. */
  lemma NotYetFinished(schedule: seq<nat>, total: nat, k: nat)
    requires multiset(schedule) == multiset(Range(total)) && k < |schedule|
    ensures multiset(schedule[..k])[schedule[k]] == 0
  {
    assert schedule == schedule[..k] + schedule[k..];
    assert schedule[k] in multiset(schedule[k..]);
    RangeOnce(total, schedule[k]);
  }

  /** The consumer loop of ant_nest/ant.py:158-159, which stops as soon as no task is in
      flight: every result it yields is a distinct source task, and it yields at least one
      when the source is not empty, but results still queued when the last task finishes are
      never yielded (`AntStopsEarly`). */
  method AntDrain(total: nat, limit: int, guard: Deadline) returns (order: seq<nat>, deadlines: seq<Deadline>)
    ensures multiset(order) <= multiset(Range(total)) && |order| <= total
    ensures WithinWindow(order, limit)
    ensures 0 < total ==> order != []
    ensures deadlines == Deadlines(InitialCount(total, limit), total, guard)
  {
    var s := new Session(total, limit, guard);
    order := [];
    var peak: nat := |s.todo|;
    while s.AntMoreResults()
      invariant s.Valid() && s.total == total && s.limit == limit && s.guard == guard
      invariant order == s.taken
      invariant |s.todo| <= peak <= s.initial
      invariant 0 < total ==> order != [] || s.todo != []
      decreases s.Outstanding()
    {
      order, peak := Turn(s, order, peak);
    }
    assert s.next == total;
    TakenWithinSource(s.next, s.todo, s.finished, s.taken, s.queue);
    assert forall k :: 0 <= k < |order| ==> order[k] == s.finished[k];
    deadlines := s.deadlines;
  }

  /** The schedule that shows the results `AntDrain` loses: two tasks under the default limit
      both finish before the consumer takes the first result; afterwards nothing is in flight,
      so the loop of ant_nest/ant.py:158 ends while the second result is still queued, where
      the loop of ant_nest/pool.py:107 would go on to yield it. */
  method AntStopsEarly() returns (yielded: seq<nat>, antContinues: bool, poolContinues: bool, stranded: seq<nat>)
    ensures yielded == [0] && !antContinues && poolContinues && stranded == [1]
  {
    var s := new Session(2, 30, NoDeadline);
    assert s.todo == [0, 1];
    s.Complete(0);
    assert s.todo == [1];
    s.Complete(1);
    var r := s.TakeStep();
    yielded := [r.value];
    antContinues := s.AntMoreResults();
    poolContinues := s.MoreResults();
    stranded := s.queue;
  }

  /** One iteration of a consumer's loop: the event loop runs, then one result is taken. */
  method Turn(s: Session, order: seq<nat>, peak: nat) returns (order': seq<nat>, peak': nat)
    requires s.Valid() && s.MoreResults() && order == s.taken
    requires |s.todo| <= peak <= s.initial
    modifies s
    ensures s.Valid() && order' == s.taken && s.Outstanding() < old(s.Outstanding())
    ensures |order'| == |order| + 1
    ensures peak <= peak' && |s.todo| <= peak' <= s.initial
  {
    peak' := RunLoop(s, peak);
    var r := s.TakeStep();
    order' := order + [r.value];
  }

  /** While the consumer awaits, the event loop completes in-flight tasks of its choosing, at
      least one when no result is queued, and `peak'` takes in every in-flight list on the way;
      none is larger than the initial batch. */
  method RunLoop(s: Session, peak: nat) returns (peak': nat)
    requires s.Valid() && s.MoreResults()
    requires |s.todo| <= peak <= s.initial
    modifies s
    ensures s.Valid() && s.queue != [] && s.taken == old(s.taken)
    ensures s.Outstanding() <= old(s.Outstanding())
    ensures peak <= peak' && |s.todo| <= peak' <= s.initial
  {
    peak' := peak;
    var more: bool :| true;
    while s.todo != [] && (s.queue == [] || more)
      invariant s.Valid() && s.taken == old(s.taken)
      invariant s.queue != [] || s.todo != []
      invariant s.Outstanding() <= old(s.Outstanding())
      invariant peak <= peak' && |s.todo| <= peak' <= s.initial
      decreases 2 * (s.total - s.next) + |s.todo|
    {
      peak' := CompleteAny(s, peak');
      more :| true;
    }
  }

  /** The event loop completes one in-flight task of its choosing; `peak'` takes in the new
      in-flight list. */
  method CompleteAny(s: Session, peak: nat) returns (peak': nat)
    requires s.Valid() && s.todo != []
    requires |s.todo| <= peak <= s.initial
    modifies s
    ensures s.Valid() && s.taken == old(s.taken) && s.queue != []
    ensures 2 * (s.total - s.next) + |s.todo| < old(2 * (s.total - s.next) + |s.todo|)
    ensures s.Outstanding() <= old(s.Outstanding())
    ensures peak <= peak' && |s.todo| <= peak' <= s.initial
    ensures peak' == Max(peak, |s.todo|)
  {
    assert s.todo[0] in s.todo;
    var p :| p in s.todo;
    s.Complete(p);
    InFlightWithinInitial(s.total, s.limit, s.next, s.todo, s.finished);
    peak' := Max(peak, |s.todo|);
  }

  lemma PermutationOfRange(order: seq<nat>, total: nat)
    requires multiset(order) == multiset(Range(total))
    ensures |order| == total && forall k :: 0 <= k < |order| ==> order[k] < total
  {
    assert |multiset(order)| == |order|;
    forall k | 0 <= k < |order| ensures order[k] < total {
      assert order[k] in multiset(Range(total));
    }
  }
  /** Everything taken so far is a distinct task of the source. */
  lemma TakenWithinSource(next: nat, todo: seq<nat>, finished: seq<nat>, taken: seq<nat>, queue: seq<nat>)
    requires multiset(finished) + multiset(todo) == multiset(Range(next)) && finished == taken + queue
    ensures multiset(taken) <= multiset(Range(next)) && |taken| <= next
  {
    assert multiset(finished) == multiset(taken) + multiset(queue);
    assert |multiset(Range(next))| == next;
  }

  /** What awaiting a yielded result gives: the task's return value, or the exception it raised. */
  datatype Outcome = Returned(value: Value) | Failed(error: Error)

  /** The return values among `outs`, in order. */
  function Successes(outs: seq<Outcome>): (vs: seq<Value>)
    ensures |vs| <= |outs|
  {
    if outs == [] then []
    else
      var last := outs[|outs| - 1];
      Successes(outs[..|outs| - 1]) + if last.Returned? then [last.value] else []
  }

  /** The position of the first failure, if there is one. */
  function FirstFailure(outs: seq<Outcome>): (i: Option<nat>)
    ensures i.Some? ==> i.value < |outs| && outs[i.value].Failed?
    ensures i.Some? ==> forall j :: 0 <= j < i.value ==> outs[j].Returned?
    ensures i.None? ==> forall j :: 0 <= j < |outs| ==> outs[j].Returned?
  {
    if outs == [] then None
    else if outs[0].Failed? then Some(0)
    else
      match FirstFailure(outs[1..])
      case None => None
      case Some(k) => Some(k + 1)
  }

  /** When every outcome is a return value, the successes are all of them. */
  lemma {:induction false} AllReturned(outs: seq<Outcome>)
    requires forall j :: 0 <= j < |outs| ==> outs[j].Returned?
    ensures |Successes(outs)| == |outs|
    ensures forall j :: 0 <= j < |outs| ==> Successes(outs)[j] == outs[j].value
  {
    if outs != [] {
      AllReturned(outs[..|outs| - 1]);
    }
  }

  /** `as_completed_with_async` over results in the order they are yielded: with
      `raiseException` false every failure is logged and skipped, so exactly the return values
      come out, in order; with it true the first failure ends the iteration and is re-raised,
      after the return values before it. */
  method ConsumeResults(outs: seq<Outcome>, raiseException: bool) returns (values: seq<Value>, raised: Option<Error>)
    ensures !raiseException ==> values == Successes(outs) && raised == None
    ensures raiseException ==>
      match FirstFailure(outs)
      case None => values == Successes(outs) && raised == None
      case Some(i) => values == Successes(outs[..i]) && raised == Some(outs[i].error)
  {
    values, raised := [], None;
    var i := 0;
    while i < |outs|
      invariant 0 <= i <= |outs|
      invariant values == Successes(outs[..i])
      invariant raiseException ==> forall j :: 0 <= j < i ==> outs[j].Returned?
    {
      assert outs[..i + 1][..i] == outs[..i];
      if outs[i].Failed? && raiseException {
        FirstFailureAt(outs, i);
        return values, Some(outs[i].error);
      }
      if outs[i].Returned? {
        values := values + [outs[i].value];
      }
      i := i + 1;
    }
    assert outs[..|outs|] == outs;
    if raiseException {
      NoFailure(outs);
    }
  }

  /** A failure preceded only by return values is the first failure. */
  lemma {:induction false} FirstFailureAt(outs: seq<Outcome>, i: nat)
    requires i < |outs| && outs[i].Failed? && forall j :: 0 <= j < i ==> outs[j].Returned?
    ensures FirstFailure(outs) == Some(i)
  {
    if i > 0 {
      FirstFailureAt(outs[1..], i - 1);
    }
  }

  /** Outcomes that are all return values have no first failure. */
  lemma {:induction false} NoFailure(outs: seq<Outcome>)
    requires forall j :: 0 <= j < |outs| ==> outs[j].Returned?
    ensures FirstFailure(outs) == None
  {
    if outs != [] {
      NoFailure(outs[1..]);
    }
  }

  /** The outcomes of the source tasks, in the order given by `order`. */
  function InOrder(outcomes: seq<Outcome>, order: seq<nat>): (r: seq<Outcome>)
    requires forall k :: 0 <= k < |order| ==> order[k] < |outcomes|
    ensures |r| == |order|
  {
    seq(|order|, k requires 0 <= k < |order| => outcomes[order[k]])
  }

  /** Taking the source positions in order gives back the source. */
  lemma InSourceOrder(outcomes: seq<Outcome>)
    ensures InOrder(outcomes, Range(|outcomes|)) == outcomes
  {
  }

  /** `as_completed_with_async` driving `as_completed` (ant_nest/pool.py:110-127): the consumer
      sees the source tasks' outcomes in completion order, a permutation of the source that is
      the source order itself with a limit of 1. */
  method DrainWithAsync(outcomes: seq<Outcome>, limit: int, guard: Deadline, raiseException: bool)
    returns (order: seq<nat>, values: seq<Value>, raised: Option<Error>)
    ensures multiset(order) == multiset(Range(|outcomes|))
    ensures forall k :: 0 <= k < |order| ==> order[k] < |outcomes|
    ensures WithinWindow(order, limit)
    ensures limit == 1 ==> InOrder(outcomes, order) == outcomes
    ensures !raiseException ==> values == Successes(InOrder(outcomes, order)) && raised == None
    ensures raiseException ==>
      match FirstFailure(InOrder(outcomes, order))
      case None => values == Successes(InOrder(outcomes, order)) && raised == None
      case Some(i) => values == Successes(InOrder(outcomes, order)[..i]) && raised == Some(InOrder(outcomes, order)[i].error)
  {
    var peak, deadlines;
    order, peak, deadlines := Drain(|outcomes|, limit, guard);
    if limit == 1 {
      InSourceOrder(outcomes);
    }
    values, raised := ConsumeResults(InOrder(outcomes, order), raiseException);
  }
}
