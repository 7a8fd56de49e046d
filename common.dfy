/** Shared vocabulary of the model: task identities, the error tags the crawler raises, the
    values an extraction can produce, the user's item objects, and two sequence helpers. */
module Common {

  /** A task (coroutine) handed to a scheduler, known by an identity of its own. */
  type TaskId = nat

  datatype Option<+T> = None | Some(value: T) {
    function GetOr(default: T): T {
      match this
      case Some(v) => v
      case None => default
    }
  }

  datatype Result<+T, +E> = Ok(value: T) | Err(error: E)

  /** What `timeout_wrapper` receives and returns: a coroutine, a coroutine function, or one of
      them wrapped under a deadline in seconds. */
  datatype Awaitable =
    | Coroutine(id: TaskId)
    | CoroutineFunction(id: TaskId)
    | Timed(inner: Awaitable, seconds: real)
  {
    /** Whether `asyncio.iscoroutinefunction` holds of it. */
    predicate IsFunction() {
      match this
      case Coroutine(_) => false
      case CoroutineFunction(_) => true
      case Timed(inner, _) => inner.IsFunction()
    }

    /** The user's coroutine under all wrappers. */
    function Task(): TaskId {
      match this
      case Coroutine(id) => id
      case CoroutineFunction(id) => id
      case Timed(inner, _) => inner.Task()
    }
  }

  /** The exceptions the modelled code raises or converts, as tags. `Raised(tag)` is an exception
      raised by user code (a task body, a pipeline) that the model passes through untouched. */
  datatype Error =
    | QueenError
    | ThingDropped(stage: nat)
    | ItemGetValueError
    | ItemExtractError
    | KeyError
    | AttributeError
    | TypeError
    | ValueError
    | IndexError
    | NotImplementedError
    | Raised(tag: nat)

  /** Python values as the extraction code sees them: `None`, strings, integers, lists, and
      every other object (an lxml element, a response, a dict) as an opaque identity. */
  datatype Value =
    | Null
    | Str(s: string)
    | Int(i: int)
    | List(items: seq<Value>)
    | Opaque(id: nat)

  /** A user item is either a mutable mapping (`item[key]`) or a plain object (`item.key`);
      both keep their values in `fields`, which is all the crawler reads or writes. */
  datatype ItemKind = Mapping | Attributes

  class Item {
    const kind: ItemKind
    var fields: map<string, Value>

    /** `item_class()`: a fresh item with nothing set. */
    constructor (kind: ItemKind)
      ensures this.kind == kind && fields == map[]
    {
      this.kind := kind;
      fields := map[];
    }
  }

  /** `[0, 1, ..., n - 1]`. */
  function Range(n: nat): (r: seq<nat>)
    ensures |r| == n && forall i :: 0 <= i < n ==> r[i] == i
  {
    seq(n, i => i)
  }

  lemma RangeSnoc(n: nat)
    ensures Range(n + 1) == Range(n) + [n]
  {
    assert Range(n + 1)[..n] == Range(n);
  }

  /** Python's `list.remove(x)`: drops the first occurrence of `x`. */
  function RemoveFirst<T(==)>(s: seq<T>, x: T): (r: seq<T>)
    requires x in s
    ensures |r| == |s| - 1
    ensures multiset(r) == multiset(s) - multiset{x}
    ensures forall y :: y in r ==> y in s
  {
    assert s == [s[0]] + s[1..];
    if s[0] == x then s[1..]
    else
      [s[0]] + RemoveFirst(s[1..], x)
  }

  function Max(a: int, b: int): int {
    if a < b then b else a
  }

  /** A completion that starts the head of the pending queue keeps every started task either
      completed or running. */
  lemma CompletionWithBackfill<T>(started: seq<T>, completed: seq<T>, running: multiset<T>, id: T, next: T)
    requires multiset(started) == multiset(completed) + running && id in running
    ensures multiset(started + [next]) == multiset(completed + [id]) + (running - multiset{id} + multiset{next})
    ensures |running - multiset{id} + multiset{next}| == |running|
  {
    assert running == (running - multiset{id}) + multiset{id};
  }

  /** The same for a completion that starts nothing. */
  lemma CompletionWithoutBackfill<T>(started: seq<T>, completed: seq<T>, running: multiset<T>, id: T)
    requires multiset(started) == multiset(completed) + running && id in running
    ensures multiset(started) == multiset(completed + [id]) + (running - multiset{id})
    ensures |running - multiset{id}| == |running| - 1
  {
    assert running == (running - multiset{id}) + multiset{id};
  }
}
