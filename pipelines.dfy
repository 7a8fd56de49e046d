/** The concrete pipelines of ant_nest/pipelines.py: the pass-through base, a counting report
    pipeline, response filtering and retrying by HTTP status, request rewriting (redirects,
    proxy), and stripping excess characters from item fields. */
module Pipelines {
  import opened Common
  import opened AntNest

  /** What the pipelines read of a response: its HTTP status and the request it answers. */
  datatype Response = Response(status: int, request: nat)

  /** `Pipeline.process`: hands on the thing it is given. */
  function BaseProcess<T>(thing: T): (r: Result<Option<T>, nat>)
    ensures r == Ok(Some(thing))
  {
    Ok(Some(thing))
  }

  /** `Ant`'s default pipeline lists hold base pipelines only, so any number of them return the
      very thing they are given. */
  lemma BasePipelinesPassThrough<T(!new)>(thing: T, n: nat)
    ensures Chain(thing, seq(n, _ => BaseProcess), 0) == Ok(thing)
  {
    var stages: seq<Stage<T>> := seq(n, _ => BaseProcess);
    forall k, x | 0 <= k < |stages| ensures stages[k](x) == Ok(Some(x)) {
      assert stages[k] == BaseProcess;
    }
    IdentityChain(thing, stages, 0);
  }

  /** `ReportPipeline`: counts the things it sees and remembers the class name of the first. */
  class ReportPipeline {
    var count: nat
    var reportType: Option<string>

    constructor ()
      ensures count == 0 && reportType == None
    {
      count := 0;
      reportType := None;
    }

    /** `process` of a thing whose class is named `className`. It has no `return`, so it
        returns `None`. */
    method Process<T>(thing: T, className: string) returns (r: Option<T>)
      modifies this
      ensures r == None
      ensures count == old(count) + 1
      ensures reportType == Some(old(reportType).GetOr(className))
    {
      if reportType.None? {
        reportType := Some(className);
      }
      count := count + 1;
      r := None;
    }
  }

  /** In a chain, a pipeline that returns `None` for everything, as `ReportPipeline` does,
      drops every thing that reaches it: when the pipelines before it hand things on
      unchanged, the chain raises `ThingDropped` for that pipeline. */
  lemma {:induction false} ReportPipelineDropsInChain<T(!new)>(thing: T, stages: seq<Stage<T>>, i: nat, j: nat)
    requires i <= j < |stages|
    requires forall k, x :: 0 <= k < j ==> stages[k](x) == Ok(Some(x))
    requires forall x :: stages[j](x) == Ok(None)
    decreases j - i
    ensures Chain(thing, stages, i) == Err(ThingDropped(j))
  {
    if i < j {
      assert stages[i](thing) == Ok(Some(thing));
      ReportPipelineDropsInChain(thing, stages, i + 1, j);
    } else {
      assert stages[j](thing) == Ok(None);
    }
  }

  /** `FilterErrorResponsePipeline.process`: an error status (400 and above) drops the
      response; any other passes it on unchanged. */
  function FilterErrorResponse(response: Response): (r: Option<Response>)
    ensures r.None? <==> response.status >= 400
    ensures r.Some? ==> r.value == response
  {
    if response.status >= 400 then None else Some(response)
  }

  /** The response `RetryResponsePipeline` looks at in round `k`: the original one, then the
      reply to the re-request made in each earlier round. `refetch(k, request)` is what the
      network answers to the re-request of round `k`. */
  function Attempt(first: Response, refetch: (nat, nat) -> Response, k: nat): Response
  {
    if k == 0 then first
    else
      var previous := Attempt(first, refetch, k - 1);
      refetch(k - 1, previous.request)
  }

  /** What `RetryResponsePipeline` returns when the rounds `k` to `retries` are still to come:
      the first successful response among them, or `None`. */
  function FirstSuccess(first: Response, refetch: (nat, nat) -> Response, k: nat, retries: int): (r: Option<Response>)
    decreases retries + 1 - k
    ensures r.Some? ==> r.value.status < 400
  {
    if retries < k then None
    else if Attempt(first, refetch, k).status < 400 then Some(Attempt(first, refetch, k))
    else FirstSuccess(first, refetch, k + 1, retries)
  }

  /** `RetryResponsePipeline.process`: while retries remain, an error response is re-requested
      and a good one returned. `checked` counts the responses looked at and `requests` the
      re-requests made; once the retries run out `None` is returned, so the reply to the last
      re-request is never looked at, and with fewer than 0 retries even a good response is
      dropped. */
  method RetryResponse(response: Response, retries: int, refetch: (nat, nat) -> Response)
    returns (r: Option<Response>, checked: nat, requests: nat)
    ensures r == FirstSuccess(response, refetch, 0, retries)
    ensures r.Some? ==> requests + 1 == checked && r.value == Attempt(response, refetch, requests)
    ensures r.None? ==> requests == checked && checked == Max(retries + 1, 0)
    ensures checked <= Max(retries + 1, 0) && requests <= Max(retries + 1, 0)
  {
    var thing := response;
    var left := retries;
    checked, requests := 0, 0;
    while left >= 0
      invariant left == retries - checked && checked == requests
      invariant checked <= Max(retries + 1, 0)
      invariant thing == Attempt(response, refetch, checked)
      invariant FirstSuccess(response, refetch, checked, retries) == FirstSuccess(response, refetch, 0, retries)
      decreases left + 1
    {
      checked := checked + 1;
      if thing.status >= 400 {
        thing := refetch(requests, thing.request);
        requests := requests + 1;
      } else {
        return Some(thing), checked, requests;
      }
      left := left - 1;
    }
    r := None;
  }

  /** The retry pipeline returns the response of the first good round `j`, provided `j` is
      within the retries. */
  lemma {:induction false} RetryReturnsFirstSuccess(first: Response, refetch: (nat, nat) -> Response, k: nat, retries: int, j: nat)
    requires k <= j <= retries && Attempt(first, refetch, j).status < 400
    requires forall m :: k <= m < j ==> Attempt(first, refetch, m).status >= 400
    decreases j - k
    ensures FirstSuccess(first, refetch, k, retries) == Some(Attempt(first, refetch, j))
  {
    if k < j {
      RetryReturnsFirstSuccess(first, refetch, k + 1, retries, j);
    }
  }

  /** It returns `None` exactly when every round it looks at gives an error status. */
  lemma {:induction false} RetryGivesUp(first: Response, refetch: (nat, nat) -> Response, k: nat, retries: int)
    decreases retries + 1 - k
    ensures FirstSuccess(first, refetch, k, retries).None? <==>
      forall m :: k <= m <= retries ==> Attempt(first, refetch, m).status >= 400
  {
    if k <= retries {
      if Attempt(first, refetch, k).status >= 400 {
        assert FirstSuccess(first, refetch, k, retries) == FirstSuccess(first, refetch, k + 1, retries);
        RetryGivesUp(first, refetch, k + 1, retries);
      } else {
        assert FirstSuccess(first, refetch, k, retries).Some?;
        var m := k;
        assert k <= m <= retries && Attempt(first, refetch, m).status < 400;
      }
    }
  }

  /** The request fields the request pipelines set. */
  class Request {
    const url: string
    var allowRedirects: bool
    var maxRedirects: int
    var proxy: Option<string>

    constructor (url: string, allowRedirects: bool, maxRedirects: int, proxy: Option<string>)
      ensures this.url == url && this.allowRedirects == allowRedirects
      ensures this.maxRedirects == maxRedirects && this.proxy == proxy
    {
      this.url := url;
      this.allowRedirects := allowRedirects;
      this.maxRedirects := maxRedirects;
      this.proxy := proxy;
    }
  }

  /** `NoRedirectsRequestPipeline.process`: turns redirects off in place and hands on the same
      request. */
  method NoRedirects(request: Request) returns (r: Request)
    modifies request
    ensures r == request
    ensures !request.allowRedirects && request.maxRedirects == 0 && request.proxy == old(request.proxy)
  {
    request.allowRedirects := false;
    request.maxRedirects := 0;
    r := request;
  }

  /** `ProxyRequestPipeline`. */
  class ProxyRequestPipeline {
    const proxy: string

    constructor (proxy: string)
      ensures this.proxy == proxy
    {
      this.proxy := proxy;
    }

    /** `process`: sets the request's proxy in place and hands on the same request. */
    method Process(request: Request) returns (r: Request)
      modifies request
      ensures r == request && request.proxy == Some(proxy)
      ensures request.allowRedirects == old(request.allowRedirects)
      ensures request.maxRedirects == old(request.maxRedirects)
    {
      request.proxy := Some(proxy);
      r := request;
    }
  }

  /** `s.replace(pattern, '')`: every non-overlapping occurrence of `pattern`, scanning left to
      right, is removed; an empty pattern leaves `s` as it is. */
  function Replace(s: string, pattern: string): (r: string)
    decreases |s|
    ensures |r| <= |s|
    ensures pattern == [] ==> r == s
  {
    if pattern == [] || |s| < |pattern| then s
    else if s[..|pattern|] == pattern then Replace(s[|pattern|..], pattern)
    else [s[0]] + Replace(s[1..], pattern)
  }

  /** `s` with every character of `cs` taken out, the others in order. */
  function Without(s: string, cs: set<char>): (r: string)
    ensures forall i :: 0 <= i < |r| ==> r[i] !in cs
  {
    if s == [] then []
    else if s[0] in cs then Without(s[1..], cs)
    else [s[0]] + Without(s[1..], cs)
  }

  /** The inner loop of `ReplaceItemFiledPipeline.process` on one string value: each excess
      string in tuple order is removed from the result of the previous one, so the value never
      grows, and empty excess strings leave it as it is. */
  function RemoveEach(s: string, excess: seq<string>): (r: string)
    decreases |excess|
    ensures |r| <= |s|
    ensures (forall k :: 0 <= k < |excess| ==> excess[k] == []) ==> r == s
  {
    if excess == [] then s else RemoveEach(Replace(s, excess[0]), excess[1..])
  }

  /** Removing a single character is filtering it out. */
  lemma {:induction false} ReplaceOneChar(s: string, c: char)
    decreases |s|
    ensures Replace(s, [c]) == Without(s, {c})
  {
    if s != [] {
      ReplaceOneChar(s[1..], c);
      assert s[..1] == [c] <==> s[0] == c;
    }
  }

  /** Filtering two sets in a row is filtering their union. */
  lemma {:induction false} WithoutTwice(s: string, a: set<char>, b: set<char>)
    decreases |s|
    ensures Without(Without(s, a), b) == Without(s, a + b)
  {
    if s != [] {
      WithoutTwice(s[1..], a, b);
      if s[0] !in a {
        assert Without(s, a) == [s[0]] + Without(s[1..], a);
        assert Without(s, a)[1..] == Without(s[1..], a);
      }
    }
  }

  /** Every excess string is one character long. */
  predicate SingleChars(excess: seq<string>) {
    forall k :: 0 <= k < |excess| ==> |excess[k]| == 1
  }

  /** The characters of single-character excess strings. */
  function CharsOf(excess: seq<string>): (cs: set<char>)
    requires SingleChars(excess)
    ensures forall k :: 0 <= k < |excess| ==> excess[k][0] in cs
    ensures forall c :: c in cs ==> exists k :: 0 <= k < |excess| && excess[k] == [c]
  {
    set k | 0 <= k < |excess| :: excess[k][0]
  }

  /** With single-character excess strings, as the default `('\r', '\n', '\t')`, the inner
      loop filters those characters out and keeps the rest in order. */
  lemma {:induction false} RemoveEachFilters(s: string, excess: seq<string>)
    requires SingleChars(excess)
    decreases |excess|
    ensures RemoveEach(s, excess) == Without(s, CharsOf(excess))
  {
    if excess == [] {
      assert CharsOf(excess) == {};
      WithoutNothing(s);
    } else {
      var c := excess[0][0];
      assert excess[0] == [c];
      ReplaceOneChar(s, c);
      RemoveEachFilters(Without(s, {c}), excess[1..]);
      WithoutTwice(s, {c}, CharsOf(excess[1..]));
      assert {c} + CharsOf(excess[1..]) == CharsOf(excess);
    }
  }

  lemma {:induction false} WithoutNothing(s: string)
    decreases |s|
    ensures Without(s, {}) == s
  {
    if s != [] {
      WithoutNothing(s[1..]);
    }
  }

  /** Stripping single characters a second time changes nothing. */
  lemma RemoveEachIdempotent(s: string, excess: seq<string>)
    requires SingleChars(excess)
    ensures RemoveEach(RemoveEach(s, excess), excess) == RemoveEach(s, excess)
  {
    var cs := CharsOf(excess);
    RemoveEachFilters(s, excess);
    RemoveEachFilters(Without(s, cs), excess);
    WithoutTwice(s, cs, cs);
    assert cs + cs == cs;
  }

  /** With a longer excess string a second pass can change the result: removing `"ab"` from
      `"aabb"` leaves `"ab"`, which a second pass removes. */
  lemma LongerExcessNotIdempotent()
    ensures RemoveEach("aabb", ["ab"]) == "ab"
    ensures RemoveEach(RemoveEach("aabb", ["ab"]), ["ab"]) == ""
  {
    assert Replace("aabb", "ab") == "a" + Replace("abb", "ab");
    assert Replace("abb", "ab") == Replace("b", "ab") == "b";
    assert Replace("ab", "ab") == Replace("", "ab") == "";
  }

  /** The pipeline's work on one listed field, with the errors `thing[field]` and `.replace`
      raise: a plain object is not subscriptable (`TypeError`), a missing key is a
      `KeyError`, a value other than a string has no `replace` (`AttributeError`). With no
      excess strings the field is never read. */
  function ScrubField(fields: map<string, Value>, kind: ItemKind, field: string, excess: seq<string>): (r: Result<map<string, Value>, Error>)
    ensures r.Ok? ==> r.value.Keys == fields.Keys
    ensures r.Ok? ==> forall f :: f in fields && f != field ==> r.value[f] == fields[f]
  {
    if excess == [] then Ok(fields)
    else if kind != Mapping then Err(TypeError)
    else if field !in fields then Err(KeyError)
    else if !fields[field].Str? then Err(AttributeError)
    else Ok(fields[field := Str(RemoveEach(fields[field].s, excess))])
  }

  /** The whole of `ReplaceItemFiledPipeline.process`: the listed fields in order; on an error
      the item keeps what the earlier fields already changed. */
  function Scrub(fields: map<string, Value>, kind: ItemKind, listed: seq<string>, excess: seq<string>)
    : (r: (map<string, Value>, Option<Error>))
    ensures r.0.Keys == fields.Keys
    ensures forall f :: f in fields && f !in listed ==> r.0[f] == fields[f]
  {
    if listed == [] then (fields, None)
    else
      match ScrubField(fields, kind, listed[0], excess)
      case Err(e) => (fields, Some(e))
      case Ok(next) => Scrub(next, kind, listed[1..], excess)
  }

  /** `ReplaceItemFiledPipeline`, for the listed `fields` and its `excess_chars`. */
  class ReplaceItemFiledPipeline {
    const fields: seq<string>
    const excess: seq<string>

    /** `excess_chars` defaults to carriage return, line feed and tab. */
    constructor (fields: seq<string>, excess: Option<seq<string>>)
      ensures this.fields == fields && this.excess == excess.GetOr(["\r", "\n", "\t"])
    {
      this.fields := fields;
      this.excess := excess.GetOr(["\r", "\n", "\t"]);
    }

    /** The inner loop of `process`, for one listed field: the field is rewritten as
        `ScrubField` says, or stays as it was when reading it raises. */
    method ScrubOne(item: Item, field: string) returns (err: Option<Error>)
      modifies item
      ensures var r := ScrubField(old(item.fields), item.kind, field, excess);
        && (r.Ok? ==> err.None? && item.fields == r.value)
        && (r.Err? ==> err == Some(r.error) && item.fields == old(item.fields))
    {
      ghost var before := item.fields;
      var j := 0;
      while j < |excess|
        invariant 0 <= j <= |excess|
        invariant j == 0 ==> item.fields == before
        invariant 0 < j ==> item.kind == Mapping && field in before && before[field].Str?
        invariant 0 < j ==> field in item.fields && item.fields[field].Str?
        invariant 0 < j ==> item.fields == before[field := Str(item.fields[field].s)]
        invariant 0 < j ==> RemoveEach(item.fields[field].s, excess[j..]) == RemoveEach(before[field].s, excess)
      {
        if item.kind != Mapping {
          return Some(TypeError);
        }
        if field !in item.fields {
          return Some(KeyError);
        }
        var v := item.fields[field];
        if !v.Str? {
          return Some(AttributeError);
        }
        assert excess[j..] == [excess[j]] + excess[j + 1..];
        item.fields := item.fields[field := Str(Replace(v.s, excess[j]))];
        j := j + 1;
      }
      return None;
    }

    /** `process`: rewrites the item's fields in place, field by field; `err` is the exception
        that stops it, if any. */
    method Process(item: Item) returns (r: Item, err: Option<Error>)
      modifies item
      ensures r == item
      ensures (item.fields, err) == Scrub(old(item.fields), item.kind, fields, excess)
    {
      var i := 0;
      while i < |fields|
        invariant 0 <= i <= |fields|
        invariant Scrub(item.fields, item.kind, fields[i..], excess) == Scrub(old(item.fields), item.kind, fields, excess)
      {
        assert fields[i..] == [fields[i]] + fields[i + 1..];
        var e := ScrubOne(item, fields[i]);
        if e.Some? {
          return item, e;
        }
        i := i + 1;
      }
      return item, None;
    }
  }

  /** A listed field the item lacks stops the pipeline with `KeyError`, once the fields
      before it have been processed without error. */
  lemma MissingFieldRaises(fields: map<string, Value>, listed: seq<string>, excess: seq<string>)
    requires listed != [] && excess != [] && listed[0] !in fields
    ensures Scrub(fields, Mapping, listed, excess) == (fields, Some(KeyError))
  {
  }

  /** On success with single-character excess strings, every listed field holds its original
      string with those characters filtered out, whether or not it is listed twice. */
  lemma {:induction false} ScrubFilters(fields: map<string, Value>, listed: seq<string>, excess: seq<string>, f: string)
    requires SingleChars(excess) && excess != []
    requires Scrub(fields, Mapping, listed, excess).1 == None
    requires f in listed
    decreases |listed|
    ensures f in fields && fields[f].Str?
    ensures Scrub(fields, Mapping, listed, excess).0[f] == Str(Without(fields[f].s, CharsOf(excess)))
  {
    var cs := CharsOf(excess);
    var head := listed[0];
    var next := ScrubField(fields, Mapping, head, excess);
    assert next.Ok?;
    if f == head {
      RemoveEachFilters(fields[f].s, excess);
      if f in listed[1..] {
        ScrubFilters(next.value, listed[1..], excess, f);
        RemoveEachFilters(Without(fields[f].s, cs), excess);
        WithoutTwice(fields[f].s, cs, cs);
        assert cs + cs == cs;
      } else {
        assert next.value[f] == Str(Without(fields[f].s, cs));
      }
    } else {
      assert f in listed[1..];
      ScrubFilters(next.value, listed[1..], excess, f);
    }
  }
}
