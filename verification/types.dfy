/**
 * The data the attribute extractor works on: the dictionaries a
 * resource manager's `list()` yields, and the object graph of clients
 * through which a resource manager is reached.
 */
module Types {

  import opened Wrappers

  /**
   * A value stored in an instance dictionary. Only the distinction
   * "nested dictionary or not" matters to the extractor; the other
   * constructors stand for the JSON-like scalars and lists an OpenStack
   * client returns. `VNone` is Python's None.
   */
  datatype Value =
    | VNone
    | VBool(b: bool)
    | VInt(i: int)
    | VStr(s: string)
    | VList(items: seq<Value>)
    | VDict(entries: map<string, Value>)

  /** An instance as a plain dictionary (the result of `to_dict()` or `__dict__`). */
  type Instance = map<string, Value>

  /** One flat output record: output field name to extracted value. */
  type Record = map<string, Value>

  /** What calling `list()` on an object does: yield instances, or fail upstream. */
  datatype Listing = Listed(instances: seq<Instance>) | ListFails(reason: string)

  /**
   * An object of the client graph. `truthy` is Python truthiness of the
   * object; `attrs` holds the attributes that are present and not None
   * (a missing attribute and one holding None look the same to
   * `getattr(obj, name, None)`); `listing` is what its `list()` returns.
   */
  datatype Obj = Obj(truthy: bool, attrs: map<string, Obj>, listing: Listing)

  /** Python truthiness of an attribute lookup result, where None is falsy. */
  predicate Truthy(o: Option<Obj>)
  {
    o.Some? && o.value.truthy
  }

  /** The errors the modelled code raises. */
  datatype Error =
    | UnknownResource(name: string)   // KeyError on the registry lookup
    | ManagerNotFound(name: string)   // no candidate path yielded a truthy manager
    | UpstreamFailure(reason: string) // `list()` itself failed
    | KeyPathExhausted                // IndexError: key path ran out while still on a dict
    | KeystoneVersionUnsupported      // no discovered keystone version is 2.x-or-lower or 3
    | NoOnlineController              // IndexError: no online controller among the nodes
}
