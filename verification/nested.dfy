/**
 * The two recursive lookups: `_get_value_from_nested_dict`, which walks
 * keys through nested dictionaries, and `_get_nested_attr`, which walks
 * attribute names through the client object graph.
 */
module Nested {

  import opened Wrappers
  import opened Types

  /** `d.get(key)`: the stored value, or None when the key is absent. */
  function Get(d: map<string, Value>, key: string): Value
  {
    if key in d then d[key] else VNone
  }

  // ---------------------------------------------------------------------
  // Key-path walk
  // ---------------------------------------------------------------------

  /**
   * `_get_value_from_nested_dict(d, path)`: look up `path[0]`; if the
   * value found is a dictionary, continue in it with the rest of the
   * path, otherwise return it, however many segments remain. Running out
   * of path while still on a dictionary is the source's IndexError on
   * `key_path[0]`.
   */
  function GetNestedValue(d: map<string, Value>, path: seq<string>): (r: Result<Value, Error>)
    ensures r.Success? ==> !r.value.VDict?
    ensures r.Failure? ==> r.error == KeyPathExhausted
    decreases |path|
  {
    if |path| == 0 then Failure(KeyPathExhausted)
    else
      var value := Get(d, path[0]);
      if value.VDict? then GetNestedValue(value.entries, path[1..])
      else Success(value)
  }

  /**
   * The dictionary reached by descending through every key of `path`,
   * provided each of them holds a dictionary; None as soon as one does not.
   */
  function DictAt(d: map<string, Value>, path: seq<string>): Option<map<string, Value>>
    decreases |path|
  {
    if |path| == 0 then Some(d)
    else
      var value := Get(d, path[0]);
      if value.VDict? then DictAt(value.entries, path[1..]) else None
  }

  /**
   * The key walk fails exactly when the whole path leads through
   * dictionaries, i.e. the path is no longer than the dictionary nesting
   * along it. Every registry path is non-empty, but an instance nesting
   * dictionaries deeper than the declared path still makes it fail.
   */
  lemma {:induction false} KeyWalkFailsIffExhausted(d: map<string, Value>, path: seq<string>)
    ensures GetNestedValue(d, path).Failure? <==> DictAt(d, path).Some?
    decreases |path|
  {
    if |path| > 0 && Get(d, path[0]).VDict? {
      KeyWalkFailsIffExhausted(Get(d, path[0]).entries, path[1..]);
    }
  }

  /**
   * The key walk returns the first non-dictionary value met along the
   * path: if descending through `path[..k]` reaches dictionary `m` and
   * `m.get(path[k])` is not a dictionary, that value is the result.
   */
  lemma {:induction false} KeyWalkStopsAtFirstNonDict(d: map<string, Value>, path: seq<string>, k: nat, m: map<string, Value>)
    requires k < |path|
    requires DictAt(d, path[..k]) == Some(m)
    requires !Get(m, path[k]).VDict?
    ensures GetNestedValue(d, path) == Success(Get(m, path[k]))
    decreases k
  {
    if k == 0 {
      assert path[..0] == [];
    } else {
      assert path[..k][0] == path[0];
      assert path[..k][1..] == path[1..][..k - 1];
      KeyWalkStopsAtFirstNonDict(Get(d, path[0]).entries, path[1..], k - 1, m);
    }
  }

  /**
   * An over-long key path is tolerated: once the walk has produced a
   * value, extra trailing segments do not change it.
   */
  lemma {:induction false} KeyWalkIgnoresExtraSegments(d: map<string, Value>, path: seq<string>, extra: seq<string>)
    requires GetNestedValue(d, path).Success?
    ensures GetNestedValue(d, path + extra) == GetNestedValue(d, path)
    decreases |path|
  {
    assert (path + extra)[0] == path[0];
    if Get(d, path[0]).VDict? {
      assert (path + extra)[1..] == path[1..] + extra;
      KeyWalkIgnoresExtraSegments(Get(d, path[0]).entries, path[1..], extra);
    }
  }

  /**
   * An absent key and a key holding None are indistinguishable to the
   * key walk: both yield None.
   */
  lemma KeyWalkAbsentIsNone(d: map<string, Value>, path: seq<string>)
    requires |path| > 0 && path[0] !in d
    ensures GetNestedValue(d, path) == Success(VNone)
    ensures GetNestedValue(d[path[0] := VNone], path) == Success(VNone)
  {
  }

  // ---------------------------------------------------------------------
  // Attribute-path walk
  // ---------------------------------------------------------------------

  /** `getattr(obj, name, None)`. */
  function Attr(o: Obj, name: string): Option<Obj>
  {
    if name in o.attrs then Some(o.attrs[name]) else None
  }

  /**
   * `_get_nested_attr(obj, path)`: None when `obj` is None or falsy or the
   * path is empty; otherwise look up `path[0]` and, on the last segment,
   * return what was found (even a falsy object), else continue from it.
   */
  function GetNestedAttr(obj: Option<Obj>, path: seq<string>): (r: Option<Obj>)
    ensures !Truthy(obj) || |path| == 0 ==> r == None
    ensures r.Some? ==> |path| > 0 && Truthy(obj)
    ensures Truthy(obj) && |path| == 1 ==> r == Attr(obj.value, path[0])
    decreases |path|
  {
    if !Truthy(obj) || |path| == 0 then None
    else
      var value := Attr(obj.value, path[0]);
      if |path| == 1 then value
      else GetNestedAttr(value, path[1..])
  }

  /**
   * The walk read left to right: extending a non-empty path by one
   * segment continues from the object the shorter path reached, which
   * must be present and truthy for the lookup to go on.
   */
  lemma {:induction false} AttrWalkSnoc(obj: Option<Obj>, path: seq<string>, name: string)
    requires |path| > 0
    ensures GetNestedAttr(obj, path + [name]) ==
      (if Truthy(GetNestedAttr(obj, path)) then Attr(GetNestedAttr(obj, path).value, name) else None)
    decreases |path|
  {
    if Truthy(obj) {
      assert (path + [name])[0] == path[0];
      assert (path + [name])[1..] == path[1..] + [name];
      if |path| > 1 {
        AttrWalkSnoc(Attr(obj.value, path[0]), path[1..], name);
      }
    }
  }

  /**
   * A path fails to resolve as soon as one attribute along it is missing:
   * if the prefix `path[..k+1]` gives None, so does the whole path.
   */
  lemma {:induction false} AttrWalkMissingPropagates(obj: Option<Obj>, path: seq<string>, k: nat)
    requires k < |path|
    requires GetNestedAttr(obj, path[..k + 1]) == None
    ensures GetNestedAttr(obj, path) == None
    decreases |path| - k
  {
    if k + 1 < |path| {
      assert path[..k + 2] == path[..k + 1] + [path[k + 1]];
      AttrWalkSnoc(obj, path[..k + 1], path[k + 1]);
      AttrWalkMissingPropagates(obj, path, k + 1);
    } else {
      assert path[..k + 1] == path;
    }
  }

  /**
   * `{"flavor": {"id": 42}}`: the path ["flavor", "id"] yields 42, and so
   * does the over-long ["flavor", "id", "extra"]; ["flavor"] alone runs out
   * of path on the nested dictionary.
   */
  lemma KeyWalkFlavorExample()
    ensures
      var d := map["flavor" := VDict(map["id" := VInt(42)])];
      && GetNestedValue(d, ["flavor", "id"]) == Success(VInt(42))
      && GetNestedValue(d, ["flavor", "id", "extra"]) == Success(VInt(42))
      && GetNestedValue(d, ["flavor"]) == Failure(KeyPathExhausted)
  {
  }
}
