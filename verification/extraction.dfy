/**
 * `get_info_from_os_resource_manager`: resolve the resource manager of a
 * kind through its ordered candidate paths, list its instances and turn
 * each instance into one flat record.
 */
module Extraction {

  import opened Wrappers
  import opened Types
  import opened FirstMatch
  import opened Registry
  import opened Nested

  /** Whether the candidate `path` yields a truthy manager from `holder`. */
  predicate Yields(holder: Obj, path: seq<string>)
  {
    Truthy(GetNestedAttr(Some(holder), path))
  }

  /**
   * The `for ... else` over the candidate paths: the first candidate whose
   * attribute walk gives a truthy object wins; None when none does,
   * including when there are no candidates.
   */
  function ResolveManager(holder: Obj, candidates: seq<seq<string>>): (r: Option<Obj>)
    ensures r.Some? ==> r.value.truthy
    ensures r.None? <==> forall j :: 0 <= j < |candidates| ==> !Yields(holder, candidates[j])
    ensures forall i ::
      (&& 0 <= i < |candidates|
       && Yields(holder, candidates[i])
       && (forall j :: 0 <= j < i ==> !Yields(holder, candidates[j])))
      ==> r == GetNestedAttr(Some(holder), candidates[i])
  {
    var i := FirstIndex(candidates, path => Yields(holder, path));
    if i < |candidates| then GetNestedAttr(Some(holder), candidates[i]) else None
  }

  /**
   * Manager resolution never consults a candidate after the first one
   * that yields a manager: whatever follows it may be replaced freely.
   */
  lemma ResolveIgnoresLaterCandidates(holder: Obj, candidates: seq<seq<string>>, i: nat, rest: seq<seq<string>>)
    requires i < |candidates| && Yields(holder, candidates[i])
    requires forall j :: 0 <= j < i ==> !Yields(holder, candidates[j])
    ensures ResolveManager(holder, candidates[..i + 1] + rest) == ResolveManager(holder, candidates)
  {
    var c' := candidates[..i + 1] + rest;
    assert c'[i] == candidates[i];
    assert forall j :: 0 <= j < i ==> c'[j] == candidates[j];
  }

  /**
   * One record: every declared field mapped to the key walk of its path
   * in the instance; the source's IndexError when some walk runs out of
   * path on a dictionary.
   */
  function RecordOf(attrNames: map<string, seq<string>>, inst: Instance): (r: Result<Record, Error>)
    ensures r.Success? ==> r.value.Keys == attrNames.Keys
    ensures r.Success? ==> forall a :: a in attrNames ==> GetNestedValue(inst, attrNames[a]) == Success(r.value[a])
    ensures r.Failure? <==> exists a :: a in attrNames && DictAt(inst, attrNames[a]).Some?
    ensures r.Failure? ==> r.error == KeyPathExhausted
  {
    forall a | a in attrNames
      ensures GetNestedValue(inst, attrNames[a]).Failure? <==> DictAt(inst, attrNames[a]).Some?
    {
      KeyWalkFailsIffExhausted(inst, attrNames[a]);
    }
    if forall a :: a in attrNames ==> GetNestedValue(inst, attrNames[a]).Success? then
      Success(map a | a in attrNames :: GetNestedValue(inst, attrNames[a]).value)
    else
      Failure(KeyPathExhausted)
  }

  /** The loop over the listed instances: one record per instance, in order. */
  function Records(attrNames: map<string, seq<string>>, insts: seq<Instance>): (r: Result<seq<Record>, Error>)
    ensures r.Success? ==> |r.value| == |insts|
    ensures r.Success? ==> forall i :: 0 <= i < |insts| ==> RecordOf(attrNames, insts[i]) == Success(r.value[i])
    ensures r.Failure? <==> exists i :: 0 <= i < |insts| && RecordOf(attrNames, insts[i]).Failure?
    ensures r.Failure? ==> r.error == KeyPathExhausted
    decreases |insts|
  {
    if |insts| == 0 then Success([])
    else
      match RecordOf(attrNames, insts[0])
      case Failure(e) => Failure(e)
      case Success(rec) =>
        match Records(attrNames, insts[1..])
        case Failure(e) =>
          RecordFailureInTail(attrNames, insts);
          Failure(e)
        case Success(recs) => Success([rec] + recs)
  }

  /** A failing record in the tail of the instance list is a failing record of the list. */
  lemma RecordFailureInTail(attrNames: map<string, seq<string>>, insts: seq<Instance>)
    requires |insts| > 0
    requires exists i :: 0 <= i < |insts[1..]| && RecordOf(attrNames, insts[1..][i]).Failure?
    ensures exists i :: 0 <= i < |insts| && RecordOf(attrNames, insts[i]).Failure?
  {
  }

  /** The record list builds exactly when no declared path runs out on a dictionary in any instance. */
  lemma RecordsSucceedIff(attrNames: map<string, seq<string>>, insts: seq<Instance>)
    ensures Records(attrNames, insts).Success? <==>
      forall i, a :: 0 <= i < |insts| && a in attrNames ==> DictAt(insts[i], attrNames[a]).None?
  {
  }

  /** No candidate manager path of `schema` yields a truthy manager from `holder`. */
  predicate NoManager(holder: Obj, schema: Schema)
  {
    forall j :: 0 <= j < |schema.managerPaths| ==> !Yields(holder, schema.managerPaths[j])
  }

  /** The resolved manager's `list()` fails with `reason`. */
  predicate ListingFails(holder: Obj, schema: Schema, reason: string)
  {
    var manager := ResolveManager(holder, schema.managerPaths);
    manager.Some? && manager.value.listing == ListFails(reason)
  }

  /**
   * A manager resolves and lists successfully, and no declared key path
   * runs out on a dictionary in any listed instance.
   */
  predicate Extractable(holder: Obj, schema: Schema)
  {
    var manager := ResolveManager(holder, schema.managerPaths);
    && manager.Some?
    && manager.value.listing.Listed?
    && var insts := manager.value.listing.instances;
       forall i, a :: 0 <= i < |insts| && a in schema.attrNames ==> DictAt(insts[i], schema.attrNames[a]).None?
  }

  /**
   * A manager resolves and lists successfully, but some declared key path
   * runs out on a dictionary in some listed instance.
   */
  predicate PathExhausted(holder: Obj, schema: Schema)
  {
    var manager := ResolveManager(holder, schema.managerPaths);
    && manager.Some?
    && manager.value.listing.Listed?
    && var insts := manager.value.listing.instances;
       exists i, a :: 0 <= i < |insts| && a in schema.attrNames && DictAt(insts[i], schema.attrNames[a]).Some?
  }

  /**
   * `recs` is what the resolved manager's listing turns into: one record
   * per listed instance, in list order, holding exactly the schema's
   * declared fields, each the key walk of that instance along its path.
   */
  predicate ExtractedFromManager(holder: Obj, schema: Schema, recs: seq<Record>)
  {
    var manager := ResolveManager(holder, schema.managerPaths);
    && manager.Some?
    && manager.value.listing.Listed?
    && var insts := manager.value.listing.instances;
       && |recs| == |insts|
       && forall i :: 0 <= i < |recs| ==>
            && recs[i].Keys == schema.attrNames.Keys
            && forall a :: a in schema.attrNames ==>
                 GetNestedValue(insts[i], schema.attrNames[a]) == Success(recs[i][a])
  }

  /**
   * The body of `get_info_from_os_resource_manager` once the kind's schema
   * is known: resolve the manager (failing before any `list()` when none
   * resolves), list the instances and build the records.
   */
  function ExtractWith(holder: Obj, name: string, schema: Schema): (r: Result<seq<Record>, Error>)
    ensures r == Failure(ManagerNotFound(name)) <==> NoManager(holder, schema)
    ensures r.Success? <==> Extractable(holder, schema)
    ensures r.Success? ==> ExtractedFromManager(holder, schema, r.value)
    ensures forall reason :: r == Failure(UpstreamFailure(reason)) <==> ListingFails(holder, schema, reason)
    ensures r == Failure(KeyPathExhausted) <==> PathExhausted(holder, schema)
    ensures r.Failure? ==> r.error == ManagerNotFound(name) || r.error.UpstreamFailure? || r.error == KeyPathExhausted
  {
    match ResolveManager(holder, schema.managerPaths)
    case None => Failure(ManagerNotFound(name))
    case Some(manager) =>
      match manager.listing
      case ListFails(reason) => Failure(UpstreamFailure(reason))
      case Listed(insts) =>
        RecordsSucceedIff(schema.attrNames, insts);
        Records(schema.attrNames, insts)
  }

  /**
   * `get_info_from_os_resource_manager(client_provider, resource_name)`:
   * an unknown kind fails the registry lookup; for a known kind, the
   * extraction over its schema.
   */
  function Extract(holder: Obj, name: string): (r: Result<seq<Record>, Error>)
    ensures r == Failure(UnknownResource(name)) <==> name !in KnownKinds
    ensures r == Failure(ManagerNotFound(name)) <==>
      name in KnownKinds && NoManager(holder, LookupSchema(name).value)
    ensures r.Success? <==> name in KnownKinds && Extractable(holder, LookupSchema(name).value)
    ensures r.Success? ==> ExtractedFromManager(holder, LookupSchema(name).value, r.value)
    ensures forall reason :: r == Failure(UpstreamFailure(reason)) <==>
      name in KnownKinds && ListingFails(holder, LookupSchema(name).value, reason)
    ensures r == Failure(KeyPathExhausted) <==> name in KnownKinds && PathExhausted(holder, LookupSchema(name).value)
    ensures r.Failure? ==>
      || r.error == UnknownResource(name)
      || r.error == ManagerNotFound(name)
      || r.error.UpstreamFailure?
      || r.error == KeyPathExhausted
  {
    var schema :- LookupSchema(name);
    ExtractWith(holder, name, schema)
  }

  /**
   * Tenants are looked up through keystone's `tenants` manager (identity
   * API v2) when it is there, whatever `projects` holds; only otherwise
   * through `projects` (identity API v3).
   */
  lemma TenantManagerPreference(holder: Obj)
    ensures Yields(holder, ["keystone", "tenants"]) ==>
      ResolveManager(holder, LookupSchema("tenant").value.managerPaths) == GetNestedAttr(Some(holder), ["keystone", "tenants"])
    ensures !Yields(holder, ["keystone", "tenants"]) && Yields(holder, ["keystone", "projects"]) ==>
      ResolveManager(holder, LookupSchema("tenant").value.managerPaths) == GetNestedAttr(Some(holder), ["keystone", "projects"])
    ensures !Yields(holder, ["keystone", "tenants"]) && !Yields(holder, ["keystone", "projects"]) ==>
      Extract(holder, "tenant") == Failure(ManagerNotFound("tenant"))
  {
  }

  // ---------------------------------------------------------------------
  // A worked example: one nova server extracted as a "vm" record
  // ---------------------------------------------------------------------

  const ExampleServer: Instance := map[
    "id" := VStr("i-1"),
    "status" := VStr("ACTIVE"),
    "hostId" := VStr("h1"),
    "created" := VStr("t0"),
    "OS-EXT-STS:power_state" := VInt(1),
    "flavor" := VDict(map["id" := VStr("f1")]),
    "image" := VDict(map["id" := VStr("im1")])
  ]

  /** A client holder whose `nova.servers` lists just `ExampleServer`. */
  const ExampleHolder := Obj(true, map[
    "nova" := Obj(true, map[
      "servers" := Obj(true, map[], Listed([ExampleServer]))
    ], Listed([]))
  ], Listed([]))

  const ExampleRecord: Record := map[
    "id" := VStr("i-1"),
    "status" := VStr("ACTIVE"),
    "tenant_id" := VNone,
    "host_id" := VStr("h1"),
    "created_at" := VStr("t0"),
    "power_state" := VInt(1),
    "flavor_id" := VStr("f1"),
    "image_id" := VStr("im1")
  ]

  /** The key walks of every "vm" field over `ExampleServer`. */
  lemma ExampleServerWalks()
    ensures forall a :: a in VmSchema.attrNames ==>
      GetNestedValue(ExampleServer, VmSchema.attrNames[a]) == Success(ExampleRecord[a])
  {
  }

  lemma ExampleRecordOf()
    ensures RecordOf(VmSchema.attrNames, ExampleServer) == Success(ExampleRecord)
  {
    ExampleServerWalks();
    var r := RecordOf(VmSchema.attrNames, ExampleServer);
    assert r.Success?;
    assert VmSchema.attrNames.Keys == ExampleRecord.Keys;
    assert forall a :: a in ExampleRecord ==> r.value[a] == ExampleRecord[a];
    assert r.value == ExampleRecord;
  }

  lemma ExampleResolves()
    ensures ResolveManager(ExampleHolder, VmSchema.managerPaths) == Some(Obj(true, map[], Listed([ExampleServer])))
  {
  }

  lemma ExampleRecords()
    ensures Records(VmSchema.attrNames, [ExampleServer]) == Success([ExampleRecord])
  {
    var insts := [ExampleServer];
    ExampleRecordOf();
    assert RecordOf(VmSchema.attrNames, insts[0]) == Success(ExampleRecord);
    assert insts[1..] == [];
    assert Records(VmSchema.attrNames, insts[1..]) == Success([]);
    assert [ExampleRecord] + [] == [ExampleRecord];
  }

  lemma ExampleExtractWith()
    ensures ExtractWith(ExampleHolder, "vm", VmSchema) == Success([ExampleRecord])
  {
    ExampleResolves();
    ExampleRecords();
  }

  /**
   * The server without a "tenant_id" key gets None in that field; the
   * nested flavor and image ids are read one level down.
   */
  lemma ExampleVmRecord()
    ensures Extract(ExampleHolder, "vm") == Success([ExampleRecord])
  {
    assert LookupSchema("vm") == Success(VmSchema);
    ExampleExtractWith();
  }
}
