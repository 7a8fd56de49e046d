/** Item access and the path-based item extractor of ant_nest/things.py. Xpath, regex and jpath
    evaluation is the caller's `search` function: given the path type, the path and the data, it
    returns the list of matches or the exception the evaluation raises. */
module Things {
  import opened Common

  /** The extract types of `ItemExtractor`. */
  const TakeFirst := "take_first"
  const JoinAll := "join_all"
  const DoNothing := "do_nothing"

  /** One registered path: `(path_type, path, extract_type)`. */
  datatype PathSpec = PathSpec(pathType: string, path: string, extractType: string)

  type Searcher = (string, string, Value) -> Result<seq<Value>, Error>

  /** `set_value_to_item`: `item[key] = value` on a mapping, `setattr` on any other object;
      either way the key now holds the value and nothing else changes. */
  method SetValueToItem(item: Item, key: string, value: Value)
    modifies item
    ensures item.fields == old(item.fields)[key := value]
  {
    item.fields := item.fields[key := value];
  }

  /** `get_value_by_item`: the value under `key`; for a missing key (`KeyError` on a mapping,
      `AttributeError` on another object) the given default, which may be `None` (`Null`),
      while without a default (the `CustomNoneType` sentinel, here `None`) it raises
      `ItemGetValueError`. */
  function GetValueByItem(item: Item, key: string, default: Option<Value>): (r: Result<Value, Error>)
    reads item
    ensures r.Ok? <==> key in item.fields || default.Some?
    ensures key in item.fields ==> r.value == item.fields[key]
    ensures key !in item.fields && default.Some? ==> r.value == default.value
    ensures r.Err? ==> r.error == ItemGetValueError
  {
    if key in item.fields then Ok(item.fields[key])
    else if default.Some? then Ok(default.value)
    else Err(ItemGetValueError)
  }

  /** Reading a key back after setting it gives the value set, on either kind of item and with
      or without a default. */
  method SetThenGet(kind: ItemKind, existing: map<string, Value>, key: string, value: Value, default: Option<Value>)
    returns (r: Result<Value, Error>)
    ensures r == Ok(value)
  {
    var item := new Item(kind);
    item.fields := existing;
    SetValueToItem(item, key, value);
    r := GetValueByItem(item, key, default);
  }

  /** On a fresh item every key is missing. */
  method GetFromFresh(kind: ItemKind, key: string, default: Option<Value>) returns (r: Result<Value, Error>)
    ensures default.Some? ==> r == Ok(default.value)
    ensures default.None? ==> r == Err(ItemGetValueError)
  {
    var item := new Item(kind);
    r := GetValueByItem(item, key, default);
  }

  /** `''.join` of the string elements of a match list, in order; other elements are left out. */
  function JoinStrings(vs: seq<Value>): (r: string)
    ensures (forall k :: 0 <= k < |vs| ==> !vs[k].Str?) ==> r == ""
  {
    if vs == [] then ""
    else (if vs[0].Str? then vs[0].s else "") + JoinStrings(vs[1..])
  }

  /** Joining a concatenation joins the parts. */
  lemma {:induction false} JoinStringsAppend(a: seq<Value>, b: seq<Value>)
    decreases |a|
    ensures JoinStrings(a + b) == JoinStrings(a) + JoinStrings(b)
  {
    if a == [] {
      assert a + b == b;
    } else {
      assert (a + b)[1..] == a[1..] + b;
      JoinStringsAppend(a[1..], b);
      var h := if a[0].Str? then a[0].s else "";
      assert JoinStrings(a + b) == h + (JoinStrings(a[1..]) + JoinStrings(b));
      assert h + (JoinStrings(a[1..]) + JoinStrings(b)) == (h + JoinStrings(a[1..])) + JoinStrings(b);
    }
  }

  /** `ItemExtractor.extract_value`: searches by the path type and post-processes the matches
      by the extract type. */
  function ExtractValue(pathType: string, path: string, data: Value, extractType: string, search: Searcher)
    : (r: Result<Value, Error>)
    ensures pathType != "xpath" && pathType != "regex" && pathType != "jpath" ==> r == Err(ValueError)
    ensures r.Ok? ==> search(pathType, path, data).Ok?
    ensures r.Ok? && extractType == TakeFirst ==>
      |search(pathType, path, data).value| > 0 && r.value == search(pathType, path, data).value[0]
    ensures r.Ok? && extractType == JoinAll ==> r.value == Str(JoinStrings(search(pathType, path, data).value))
    ensures r.Ok? && extractType != TakeFirst && extractType != JoinAll ==>
      r.value == List(search(pathType, path, data).value)
    ensures pathType == "xpath" || pathType == "regex" || pathType == "jpath" ==>
      match search(pathType, path, data)
      case Err(e) => r == Err(e)
      case Ok(found) =>
        && (r.Err? ==> r == Err(IndexError))
        && (r == Err(IndexError) <==> extractType == TakeFirst && found == [])
  {
    if pathType != "xpath" && pathType != "regex" && pathType != "jpath" then Err(ValueError)
    else
      match search(pathType, path, data)
      case Err(e) => Err(e)
      case Ok(found) =>
        if extractType == TakeFirst then
          if |found| == 0 then Err(IndexError) else Ok(found[0])
        else if extractType == JoinAll then Ok(Str(JoinStrings(found)))
        else Ok(List(found))
  }

  /** What `'{:s}'.format(v)` raises: nothing for a string, `ValueError` for an integer, and
      `TypeError` for every other object. */
  function FormatAsString(v: Value): (e: Option<Error>)
    ensures e.None? <==> v.Str?
  {
    match v
    case Str(_) => None
    case Int(_) => Some(ValueError)
    case _ => Some(TypeError)
  }

  /** What two successful paths with different results raise when the error message is
      built: the message formats both results with `{:s}`, so `ItemExtractError` is only
      reached when both are strings. */
  function ConflictError(first: Value, second: Value): (e: Error)
    ensures e == ItemExtractError <==> first.Str? && second.Str?
  {
    match FormatAsString(first)
    case Some(e) => e
    case None =>
      match FormatAsString(second)
      case Some(e) => e
      case None => ItemExtractError
  }

  /** Two jpath results `1` and `2` for one key raise `ValueError`, not `ItemExtractError`. */
  lemma IntConflictRaisesValueError()
    ensures ConflictError(Int(1), Int(2)) == ValueError
  {
  }

  /** The inner loop of `extract` for one key, from path `i` on, with `acc` the value found
      so far (`None` for the `CustomNoneType` sentinel): a path raising `IndexError` is skipped,
      any other exception propagates, and a result different from an earlier one raises. */
  function Merge(specs: seq<PathSpec>, i: nat, data: Value, search: Searcher, acc: Option<Value>)
    : (r: Result<Option<Value>, Error>)
    requires i <= |specs|
    decreases |specs| - i
    ensures acc.Some? && r.Ok? ==> r.value == acc
  {
    if i == |specs| then Ok(acc)
    else
      var s := specs[i];
      match ExtractValue(s.pathType, s.path, data, s.extractType, search)
      case Err(e) =>
        if e == IndexError then Merge(specs, i + 1, data, search, acc) else Err(e)
      case Ok(v) =>
        if acc.Some? && acc.value != v then Err(ConflictError(acc.value, v))
        else Merge(specs, i + 1, data, search, Some(v))
  }

  /** The result of path `k` of `specs`. */
  function PathResult(specs: seq<PathSpec>, k: nat, data: Value, search: Searcher): Result<Value, Error>
    requires k < |specs|
  {
    ExtractValue(specs[k].pathType, specs[k].path, data, specs[k].extractType, search)
  }

  /** When a key's paths merge without error, every path that succeeded gave the merged value:
      multiple successful paths agree. */
  lemma {:induction false} MergedPathsAgree(specs: seq<PathSpec>, i: nat, data: Value, search: Searcher, acc: Option<Value>)
    requires i <= |specs| && Merge(specs, i, data, search, acc).Ok?
    decreases |specs| - i
    ensures forall k :: i <= k < |specs| && PathResult(specs, k, data, search).Ok? ==>
      Merge(specs, i, data, search, acc).value == Some(PathResult(specs, k, data, search).value)
  {
    if i < |specs| {
      match PathResult(specs, i, data, search)
      case Err(e) =>
        MergedPathsAgree(specs, i + 1, data, search, acc);
      case Ok(v) =>
        MergedPathsAgree(specs, i + 1, data, search, Some(v));
    }
  }

  /** From the sentinel, a key stays unset exactly when every one of its paths raised
      `IndexError`. */
  lemma {:induction false} MergeUnsetIffAllMissing(specs: seq<PathSpec>, i: nat, data: Value, search: Searcher)
    requires i <= |specs|
    decreases |specs| - i
    ensures Merge(specs, i, data, search, None) == Ok(None) <==>
      forall k :: i <= k < |specs| ==> PathResult(specs, k, data, search) == Err(IndexError)
  {
    if i < |specs| {
      match PathResult(specs, i, data, search)
      case Err(e) =>
        MergeUnsetIffAllMissing(specs, i + 1, data, search);
        if e != IndexError {
          assert !(PathResult(specs, i, data, search) == Err(IndexError));
        }
      case Ok(v) =>
        assert Merge(specs, i + 1, data, search, Some(v)).Ok? ==> Merge(specs, i + 1, data, search, Some(v)).value == Some(v);
    }
  }

  /** Two paths of one key that succeed with different results make the extraction fail. */
  lemma ConflictFails(specs: seq<PathSpec>, data: Value, search: Searcher, k1: nat, k2: nat)
    requires k1 < |specs| && k2 < |specs|
    requires PathResult(specs, k1, data, search).Ok? && PathResult(specs, k2, data, search).Ok?
    requires PathResult(specs, k1, data, search).value != PathResult(specs, k2, data, search).value
    ensures Merge(specs, 0, data, search, None).Err?
  {
    if Merge(specs, 0, data, search, None).Ok? {
      MergedPathsAgree(specs, 0, data, search, None);
    }
  }

  /** The inner loop of `extract`: the paths of one key tried in order. */
  method MergePaths(specs: seq<PathSpec>, data: Value, search: Searcher) returns (r: Result<Option<Value>, Error>)
    ensures r == Merge(specs, 0, data, search, None)
  {
    var value: Option<Value> := None;
    var j := 0;
    while j < |specs|
      invariant 0 <= j <= |specs|
      invariant Merge(specs, j, data, search, value) == Merge(specs, 0, data, search, None)
    {
      var s := specs[j];
      var v := ExtractValue(s.pathType, s.path, data, s.extractType, search);
      if v.Err? {
        if v.error != IndexError {
          return Err(v.error);
        }
      } else {
        if value.Some? && value.value != v.value {
          return Err(ConflictError(value.value, v.value));
        }
        value := Some(v.value);
      }
      j := j + 1;
    }
    return Ok(value);
  }

  /** The paths registered for `key`: the `defaultdict(list)` default for an unknown key. */
  function PathsOf(paths: map<string, seq<PathSpec>>, key: string): seq<PathSpec> {
    if key in paths then paths[key] else []
  }

  /** The outer loop of `extract`, from key `i` on, with `fields` what the item holds so far:
      each key whose paths produce a value is set, and no field is ever removed; the first
      exception ends the extraction, so an error is the one some later key's paths raised. */
  function FieldsFrom(keys: seq<string>, paths: map<string, seq<PathSpec>>, data: Value, search: Searcher,
                      i: nat, fields: map<string, Value>): (r: Result<map<string, Value>, Error>)
    requires i <= |keys|
    decreases |keys| - i
    ensures r.Ok? ==> forall k :: k in fields ==> k in r.value
    ensures r.Err? ==> exists j :: i <= j < |keys| && Merge(PathsOf(paths, keys[j]), 0, data, search, None) == Err(r.error)
  {
    if i == |keys| then Ok(fields)
    else
      match Merge(PathsOf(paths, keys[i]), 0, data, search, None)
      case Err(e) => Err(e)
      case Ok(None) => FieldsFrom(keys, paths, data, search, i + 1, fields)
      case Ok(Some(v)) => FieldsFrom(keys, paths, data, search, i + 1, fields[keys[i] := v])
  }

  predicate Distinct(keys: seq<string>) {
    forall a, b :: 0 <= a < b < |keys| ==> keys[a] != keys[b]
  }

  /** On success, with distinct keys, the extracted item holds exactly the keys whose paths
      found a value (besides what it already held), each with the merged value. */
  lemma {:induction false} FieldsSetExactly(keys: seq<string>, paths: map<string, seq<PathSpec>>, data: Value,
                                            search: Searcher, i: nat, fields: map<string, Value>)
    requires i <= |keys| && Distinct(keys)
    requires forall k :: k in fields ==> k !in keys[i..]
    requires FieldsFrom(keys, paths, data, search, i, fields).Ok?
    decreases |keys| - i
    ensures var r := FieldsFrom(keys, paths, data, search, i, fields).value;
      forall k ::
        && (k in fields ==> k in r && r[k] == fields[k])
        && (k in keys[i..] ==>
              Merge(PathsOf(paths, k), 0, data, search, None).Ok?
              && (k in r <==> Merge(PathsOf(paths, k), 0, data, search, None).value.Some?)
              && (k in r ==> Some(r[k]) == Merge(PathsOf(paths, k), 0, data, search, None).value))
        && (k in r ==> k in fields || k in keys[i..])
  {
    if i < |keys| {
      var key := keys[i];
      assert keys[i..] == [key] + keys[i + 1..];
      match Merge(PathsOf(paths, key), 0, data, search, None)
      case Ok(None) =>
        FieldsSetExactly(keys, paths, data, search, i + 1, fields);
      case Ok(Some(v)) =>
        FieldsSetExactly(keys, paths, data, search, i + 1, fields[key := v]);
    }
  }

  /** `ItemExtractor`: the paths registered per key, in registration order; `keys` is the
      insertion order of the `paths` dictionary. */
  class ItemExtractor {
    /** What `item_class()` builds. */
    const itemKind: ItemKind
    var keys: seq<string>
    var paths: map<string, seq<PathSpec>>

    ghost predicate Valid()
      reads this
    {
      (forall k :: k in keys <==> k in paths) && Distinct(keys)
    }

    constructor (itemKind: ItemKind)
      ensures Valid() && this.itemKind == itemKind && keys == [] && paths == map[]
    {
      this.itemKind := itemKind;
      keys := [];
      paths := map[];
    }

    /** `self.paths[key].append(spec)`: the spec goes to the end of the key's list, a new key
        goes to the end of the key order, and no other key changes. */
    method Add(key: string, spec: PathSpec)
      requires Valid()
      modifies this
      ensures Valid()
      ensures paths == old(paths)[key := PathsOf(old(paths), key) + [spec]]
      ensures key in old(paths) ==> keys == old(keys)
      ensures key !in old(paths) ==> keys == old(keys) + [key]
    {
      if key !in paths {
        keys := keys + [key];
      }
      paths := paths[key := PathsOf(paths, key) + [spec]];
    }

    /** `add_xpath`; the extract type defaults to `take_first`. */
    method AddXpath(key: string, xpath: string, extractType: Option<string>)
      requires Valid()
      modifies this
      ensures Valid()
      ensures paths == old(paths)[key := PathsOf(old(paths), key) + [PathSpec("xpath", xpath, extractType.GetOr(TakeFirst))]]
      ensures keys == if key in old(paths) then old(keys) else old(keys) + [key]
    {
      Add(key, PathSpec("xpath", xpath, extractType.GetOr(TakeFirst)));
    }

    /** `add_regex`; the extract type defaults to `take_first`. */
    method AddRegex(key: string, pattern: string, extractType: Option<string>)
      requires Valid()
      modifies this
      ensures Valid()
      ensures paths == old(paths)[key := PathsOf(old(paths), key) + [PathSpec("regex", pattern, extractType.GetOr(TakeFirst))]]
      ensures keys == if key in old(paths) then old(keys) else old(keys) + [key]
    {
      Add(key, PathSpec("regex", pattern, extractType.GetOr(TakeFirst)));
    }

    /** `add_jpath`; the extract type defaults to `take_first`. */
    method AddJpath(key: string, jpath: string, extractType: Option<string>)
      requires Valid()
      modifies this
      ensures Valid()
      ensures paths == old(paths)[key := PathsOf(old(paths), key) + [PathSpec("jpath", jpath, extractType.GetOr(TakeFirst))]]
      ensures keys == if key in old(paths) then old(keys) else old(keys) + [key]
    {
      Add(key, PathSpec("jpath", jpath, extractType.GetOr(TakeFirst)));
    }

    /** `extract`: a fresh item, and for each key in turn its paths tried in order; a key is
        set only when some path succeeded. */
    method Extract(data: Value, search: Searcher) returns (r: Result<Item, Error>)
      ensures r.Ok? ==> fresh(r.value) && r.value.kind == itemKind
      ensures r.Ok? ==> FieldsFrom(keys, paths, data, search, 0, map[]) == Ok(r.value.fields)
      ensures r.Err? ==> FieldsFrom(keys, paths, data, search, 0, map[]) == Err(r.error)
    {
      var item := new Item(itemKind);
      var i := 0;
      while i < |keys|
        invariant 0 <= i <= |keys|
        invariant fresh(item) && item.kind == itemKind
        invariant FieldsFrom(keys, paths, data, search, i, item.fields) == FieldsFrom(keys, paths, data, search, 0, map[])
      {
        var key := keys[i];
        var merged := MergePaths(PathsOf(paths, key), data, search);
        if merged.Err? {
          return Err(merged.error);
        }
        var value := merged.value;
        if value.Some? {
          SetValueToItem(item, key, value.value);
        }
        i := i + 1;
      }
      r := Ok(item);
    }
  }

  /** `ItemNestExtractor`: a root path whose matches are each extracted into an item by the
      key paths of `extractor`. */
  class ItemNestExtractor {
    const rootPathType: string
    const rootPath: string
    const extractor: ItemExtractor

    constructor (rootPathType: string, rootPath: string, itemKind: ItemKind)
      ensures this.rootPathType == rootPathType && this.rootPath == rootPath
      ensures fresh(extractor) && extractor.Valid() && extractor.itemKind == itemKind
      ensures extractor.keys == [] && extractor.paths == map[]
    {
      this.rootPathType := rootPathType;
      this.rootPath := rootPath;
      extractor := new ItemExtractor(itemKind);
    }

    /** `extract` is disabled in this class. */
    method Extract(data: Value) returns (r: Result<Item, Error>)
      ensures r == Err(NotImplementedError)
    {
      r := Err(NotImplementedError);
    }

    /** `extract_items`: the root path's matches (taken as they are), then one item per match,
        in match order; the generator stops at the first exception. */
    method ExtractItems(response: Value, search: Searcher) returns (items: seq<Item>, err: Option<Error>)
      ensures var base := ExtractValue(rootPathType, rootPath, response, DoNothing, search);
        && (base.Err? ==> items == [] && err == Some(base.error))
        && (base.Ok? ==>
              var nodes := base.value.items;
              && |items| <= |nodes|
              && (forall n :: 0 <= n < |items| ==>
                    FieldsFrom(extractor.keys, extractor.paths, nodes[n], search, 0, map[]) == Ok(items[n].fields))
              && (err.None? ==> |items| == |nodes|)
              && (err.Some? ==>
                    && |items| < |nodes|
                    && FieldsFrom(extractor.keys, extractor.paths, nodes[|items|], search, 0, map[]) == Err(err.value)))
    {
      var base := ExtractValue(rootPathType, rootPath, response, DoNothing, search);
      if base.Err? {
        return [], Some(base.error);
      }
      var nodes := base.value.items;
      items := [];
      var n := 0;
      while n < |nodes|
        invariant 0 <= n <= |nodes| && |items| == n
        invariant forall m :: 0 <= m < n ==>
          FieldsFrom(extractor.keys, extractor.paths, nodes[m], search, 0, map[]) == Ok(items[m].fields)
      {
        var one := extractor.Extract(nodes[n], search);
        if one.Err? {
          return items, Some(one.error);
        }
        items := items + [one.value];
        n := n + 1;
      }
      err := None;
    }
  }
}
