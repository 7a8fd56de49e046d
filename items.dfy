/** Item access and the callable-based extractor of ant_nest/items.py: each key has one
    extractor function from the response (or node) to the key's value. */
module Items {
  import opened Common

  /** `set_value`: `item[key] = value` on a mapping, `setattr` on any other object. */
  method SetValue(item: Item, key: string, value: Value)
    modifies item
    ensures item.fields == old(item.fields)[key := value]
  {
    item.fields := item.fields[key := value];
  }

  /** `get_value`: the value under `key`; a missing key raises `ItemGetValueError`, as there is
      no default here. */
  function GetValue(item: Item, key: string): (r: Result<Value, Error>)
    reads item
    ensures r.Ok? <==> key in item.fields
    ensures r.Ok? ==> r.value == item.fields[key]
    ensures r.Err? ==> r.error == ItemGetValueError
  {
    if key in item.fields then Ok(item.fields[key]) else Err(ItemGetValueError)
  }

  /** Reading a key back after setting it gives the value set, on either kind of item. */
  method SetThenGet(kind: ItemKind, existing: map<string, Value>, key: string, value: Value)
    returns (r: Result<Value, Error>)
    ensures r == Ok(value)
  {
    var item := new Item(kind);
    item.fields := existing;
    SetValue(item, key, value);
    r := GetValue(item, key);
  }

  /** A key that was never set raises, whatever else the item holds. */
  method GetUnset(kind: ItemKind, existing: map<string, Value>, key: string) returns (r: Result<Value, Error>)
    requires key !in existing
    ensures r == Err(ItemGetValueError)
  {
    var item := new Item(kind);
    item.fields := existing;
    r := GetValue(item, key);
  }

  predicate Distinct(keys: seq<string>) {
    forall a, b :: 0 <= a < b < |keys| ==> keys[a] != keys[b]
  }

  /** `Extractor`: one extractor per key; `keys` is the insertion order of the `extractors`
      dictionary. */
  class Extractor {
    /** What `item_cls()` builds. */
    const itemKind: ItemKind
    var keys: seq<string>
    var extractors: map<string, Value -> Value>

    ghost predicate Valid()
      reads this
    {
      (forall k :: k in keys <==> k in extractors) && Distinct(keys)
    }

    constructor (itemKind: ItemKind)
      ensures Valid() && this.itemKind == itemKind && keys == [] && extractors == map[]
    {
      this.itemKind := itemKind;
      keys := [];
      extractors := map[];
    }

    /** `add_extractor`: the key's extractor is set, replacing any earlier one, which keeps
        its place in the key order; no other key changes. */
    method AddExtractor(key: string, extractor: Value -> Value)
      requires Valid()
      modifies this
      ensures Valid()
      ensures extractors == old(extractors)[key := extractor]
      ensures key in old(extractors) ==> keys == old(keys)
      ensures key !in old(extractors) ==> keys == old(keys) + [key]
    {
      if key !in extractors {
        keys := keys + [key];
      }
      extractors := extractors[key := extractor];
    }

    /** `extract`: a fresh item in which every registered key holds its extractor's result on
        `res`, and nothing else is set. */
    method Extract(res: Value) returns (item: Item)
      requires Valid()
      ensures fresh(item) && item.kind == itemKind
      ensures item.fields.Keys == extractors.Keys
      ensures forall k :: k in extractors ==> item.fields[k] == extractors[k](res)
    {
      item := new Item(itemKind);
      var i := 0;
      while i < |keys|
        invariant 0 <= i <= |keys|
        invariant fresh(item) && item.kind == itemKind
        invariant forall k :: k in item.fields <==> k in keys[..i]
        invariant forall k :: k in item.fields ==> k in extractors && item.fields[k] == extractors[k](res)
      {
        var key := keys[i];
        SetValue(item, key, extractors[key](res));
        assert keys[..i + 1] == keys[..i] + [key];
        i := i + 1;
      }
      assert keys[..i] == keys;
    }
  }

  /** `NestExtractor`: a root extractor listing the nodes of a response, and the key
      extractors of `extractor` applied to each node. */
  class NestExtractor {
    const rootExtractor: Value -> seq<Value>
    const extractor: Extractor

    constructor (itemKind: ItemKind, rootExtractor: Value -> seq<Value>)
      ensures this.rootExtractor == rootExtractor
      ensures fresh(extractor) && extractor.Valid() && extractor.itemKind == itemKind
      ensures extractor.keys == [] && extractor.extractors == map[]
    {
      this.rootExtractor := rootExtractor;
      extractor := new Extractor(itemKind);
    }

    /** `extract_items`: one item per root node, in node order. */
    method ExtractItems(res: Value) returns (items: seq<Item>)
      requires extractor.Valid()
      ensures |items| == |rootExtractor(res)|
      ensures forall n :: 0 <= n < |items| ==>
        && items[n].kind == extractor.itemKind
        && items[n].fields.Keys == extractor.extractors.Keys
        && forall k :: k in extractor.extractors ==> items[n].fields[k] == extractor.extractors[k](rootExtractor(res)[n])
    {
      var nodes := rootExtractor(res);
      items := [];
      var n := 0;
      while n < |nodes|
        invariant 0 <= n <= |nodes| && |items| == n
        invariant forall m :: 0 <= m < n ==>
          && items[m].kind == extractor.itemKind
          && items[m].fields.Keys == extractor.extractors.Keys
          && forall k :: k in extractor.extractors ==> items[m].fields[k] == extractor.extractors[k](nodes[m])
      {
        var one := extractor.Extract(nodes[n]);
        items := items + [one];
        n := n + 1;
      }
    }
  }
}
