# Resource-attribute extraction of the nailgun statistics collector

This project models, in Dafny, the part of `nailgun/nailgun/statistics/utils.py`
that gathers attributes of OpenStack resources (vms, flavors, tenants, images,
volumes) for the usage statistics report:

- the static registry `collected_components_attrs` (module `Registry`): for each
  resource kind, the output fields with the key path each is read from, and the
  ordered candidate attribute paths to the kind's resource manager;
- `_get_value_from_nested_dict`, the key walk through nested instance
  dictionaries, and `_get_nested_attr`, the attribute walk through the client
  object graph (module `Nested`);
- `get_info_from_os_resource_manager`, which resolves the first usable resource
  manager, lists its instances and builds one flat record per instance
  (module `Extraction`);
- two small first-match selections from the same file: the keystone client
  version pick in `ClientProvider._get_keystone_client` and
  `_get_online_controller` (module `Selection`).

The "first candidate that qualifies wins" rule behind the manager resolution and
both selections is defined once, in module `FirstMatch`. `Wrappers` holds
`Option`/`Result`, and `Types` holds the data model: instance values (`Value`,
with `VNone` for Python's None), the client object graph (`Obj`, with an explicit
`truthy` flag for Python truthiness and a `listing` for what its `list()`
returns), and the errors the code raises.

Behaviours of the code worth noting:

- The key walk is not always "missing means None". A path that runs out while the
  walk is still on a dictionary makes the code index an empty list, which raises
  IndexError. The model returns `Failure(KeyPathExhausted)` for that case, and
  the error aborts the whole extraction. `Nested.KeyWalkFailsIffExhausted` states
  exactly when it happens.
- A candidate manager path counts as resolved only if the walk returns a truthy
  object. A present but falsy manager, or a falsy object part-way along the path,
  sends the resolution on to the next candidate.
- An unknown resource kind fails with the registry lookup's KeyError, modelled as
  `UnknownResource`. A failing `list()` propagates unchanged, modelled as
  `UpstreamFailure` carrying the failure's reason.

## Model

| member | source | states |
|---|---|---|
| Registry.LookupSchema | nailgun/nailgun/statistics/utils.py:34-94 | exactly the five kinds vm, flavor, tenant, image, volume are known, and any other name fails with UnknownResource; every known schema declares the field "id" read from key "id", has no empty key path, and has at least one candidate manager path, none of them empty |
| FirstMatch.FirstIndex | nailgun/nailgun/statistics/utils.py:216-231 | the chosen index is the first candidate that qualifies; all earlier candidates fail; the index equals the length exactly when no candidate qualifies |
| FirstMatch.FirstIndexIgnoresSuffix | nailgun/nailgun/statistics/utils.py:216-224 | once a candidate qualifies, appending more candidates does not change the choice, so later candidates are never consulted |
| FirstMatch.FirstIndexSkipsExhausted | nailgun/nailgun/statistics/utils.py:216-231 | when no earlier candidate qualifies, the choice falls to the following candidates, shifted by the number skipped |
| Nested.GetNestedValue | nailgun/nailgun/statistics/utils.py:251-257 | a successful key walk never returns a dictionary; its only failure is the exhausted-path IndexError |
| Nested.KeyWalkFailsIffExhausted | nailgun/nailgun/statistics/utils.py:251-255 | the key walk fails if and only if every key of the path leads to a nested dictionary, so the path is used up while still on a dictionary (this includes the empty path) |
| Nested.KeyWalkStopsAtFirstNonDict | nailgun/nailgun/statistics/utils.py:251-257 | the result is the first non-dictionary value met along the path, looked up in the dictionary reached through the keys before it, even if path segments remain |
| Nested.KeyWalkIgnoresExtraSegments | nailgun/nailgun/statistics/utils.py:254-257 | extra trailing segments on a path that already yields a value do not change the result |
| Nested.KeyWalkAbsentIsNone | nailgun/nailgun/statistics/utils.py:252 | an absent key yields None, the same result as a key that stores None |
| Nested.KeyWalkFlavorExample | nailgun/nailgun/statistics/utils.py:251-257 | for `{"flavor": {"id": 42}}`, both ["flavor", "id"] and the over-long ["flavor", "id", "extra"] give 42, while ["flavor"] runs out on the nested dictionary |
| Nested.GetNestedAttr | nailgun/nailgun/statistics/utils.py:260-273 | a None or falsy start object, or an empty path, gives None; any object found implies a truthy start and a non-empty path; for a truthy object and a one-name path the result is that attribute, or None if it is missing, even when the attribute is falsy (with `AttrWalkSnoc` this fixes the result for every path) |
| Nested.AttrWalkSnoc | nailgun/nailgun/statistics/utils.py:260-273 | extending a path by one name continues from the object reached by the shorter path: that object must be present and truthy, and the result is its attribute of that name |
| Nested.AttrWalkMissingPropagates | nailgun/nailgun/statistics/utils.py:263-273 | if a prefix of the path already gives None, the whole path gives None |
| Extraction.ResolveManager | nailgun/nailgun/statistics/utils.py:216-231 | the manager is the object of the first candidate path that yields a truthy object, and it is truthy; no manager exactly when no candidate yields one, including when there are no candidates |
| Extraction.ResolveIgnoresLaterCandidates | nailgun/nailgun/statistics/utils.py:216-224 | the candidates after the first one that yields a manager can be replaced by anything without changing the manager |
| Extraction.TenantManagerPreference | nailgun/nailgun/statistics/utils.py:64-65 | tenants come from keystone.tenants whenever it yields a manager, even if keystone.projects also does; otherwise from keystone.projects; with neither, extraction fails with ManagerNotFound |
| Extraction.RecordOf | nailgun/nailgun/statistics/utils.py:237-244 | a record has exactly the declared field names, each holding the key walk of the instance along that field's path; it fails exactly when some declared path runs out on a dictionary |
| Extraction.Records | nailgun/nailgun/statistics/utils.py:233-248 | one record per listed instance, in list order, where the i-th record is the record of the i-th instance; the whole list fails exactly when some instance's record fails |
| Extraction.RecordsSucceedIff | nailgun/nailgun/statistics/utils.py:236-246 | building the records of a listing succeeds if and only if no declared key path runs out on a dictionary in any listed instance |
| Extraction.ExtractWith | nailgun/nailgun/statistics/utils.py:216-248 | given the kind's schema, exactly one of four outcomes holds. (1) ManagerNotFound exactly when no candidate path yields a truthy manager, so no listing is consulted. (2) The upstream failure exactly when the resolved manager's list call fails, with no partial records. (3) KeyPathExhausted exactly when the listing succeeds but some declared key path runs out on a dictionary in some instance. (4) Otherwise success, with one record per listed instance in list order, each holding exactly the declared fields, each the key walk of that instance along the field's path |
| Extraction.Extract | nailgun/nailgun/statistics/utils.py:213-248 | fails with UnknownResource exactly for unknown kinds; for a known kind, fails with ManagerNotFound, with the upstream failure or with KeyPathExhausted, or succeeds with one record per listed instance, each under exactly the conditions stated for its registry schema; a missing field becomes None and never aborts; no other error is possible |
| Extraction.ExampleVmRecord | nailgun/nailgun/statistics/utils.py:35-46 | a nova server without "tenant_id" and with nested flavor and image dictionaries is extracted to one vm record, with tenant_id None and flavor_id and image_id read one level down |
| Selection.PickKeystoneApi | nailgun/nailgun/statistics/utils.py:159-169 | the first discovered version whose major is at most 2 selects the v2 client, and the first equal to 3 selects the v3 client; other versions are skipped; the pick fails exactly when no version qualifies |
| Selection.OnlineController | nailgun/nailgun/statistics/utils.py:205-210 | the result is the first node that has the controller role and is online; it fails exactly when no node qualifies |

## Left out

- Client construction in `ClientProvider` (utils.py:97-187) is not modelled. This covers the lazy nova, cinder and keystone clients, credential lookup in the cluster database and the auth URL. These are network clients and memoised mutable state. The client graph is an input (`Obj`), and attribute lookups on it cannot fail.
- Selection.PickKeystoneApi: takes the major version of each discovered entry, not the raw version data. An empty version tuple would raise IndexError in the source; the model does not represent it.
- Selection.OnlineController: follows Python 2, where `filter(...)` returns a list and `[0]` on no match is the IndexError modelled as `NoOnlineController`. Under Python 3 `filter` returns an iterator, and `[0]` would raise TypeError for every input.
- `_get_host_for_auth` and `get_proxy_for_cluster` (utils.py:190-202) are not modelled. They are network-manager lookups and URL formatting. Only their shared use of `_get_online_controller` is modelled.
- `set_proxy` (utils.py:276-307) is not modelled. It changes process environment variables and logs.
- `dithered` (utils.py:310-311) is not modelled. It uses random numbers and floating point.
- The `to_dict()` / `__dict__` normalisation of an instance (utils.py:240-241) is not modelled. The model's `list()` yields instances that are already dictionaries.
- Python truthiness is an abstract flag on each object. An attribute that holds None is the same as an absent attribute, as it is for `getattr(obj, name, None)`.
- A resolved manager always has a `list()` in the model. The AttributeError a manager without one would raise is not represented.
- The iteration order of the field dictionary is not modelled. The output record is a dictionary, so that order does not affect the result.
