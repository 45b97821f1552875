/**
 * Two small first-match selections from the same file: choosing the
 * keystone client version from the server's discovered versions, and
 * finding the online controller node of a cluster.
 */
module Selection {

  import opened Wrappers
  import opened Types
  import opened FirstMatch

  /** The keystone client classes the collector can instantiate. */
  datatype KeystoneApi = V2 | V3

  /** A discovered major version the collector has a client for. */
  predicate Supported(major: int)
  {
    major <= 2 || major == 3
  }

  /**
   * The loop over `discover.version_data()`, given the major version of
   * each entry in discovery order: the first entry with major version at
   * most 2 selects the v2 client, the first equal to 3 the v3 client;
   * other entries are skipped, and no suitable entry is an error.
   */
  function PickKeystoneApi(majors: seq<int>): (r: Result<KeystoneApi, Error>)
    ensures r.Failure? <==> forall j :: 0 <= j < |majors| ==> !Supported(majors[j])
    ensures r.Failure? ==> r.error == KeystoneVersionUnsupported
    ensures r.Success? ==>
      exists i ::
        && 0 <= i < |majors|
        && Supported(majors[i])
        && (forall j :: 0 <= j < i ==> !Supported(majors[j]))
        && r.value == (if majors[i] <= 2 then V2 else V3)
  {
    var i := FirstIndex(majors, Supported);
    if i == |majors| then Failure(KeystoneVersionUnsupported)
    else if majors[i] <= 2 then Success(V2)
    else Success(V3)
  }

  /** A cluster node as far as controller selection is concerned. */
  datatype Node = Node(roles: seq<string>, online: bool)

  predicate IsOnlineController(n: Node)
  {
    "controller" in n.roles && n.online
  }

  /**
   * `_get_online_controller(cluster)`: the first node that has the
   * controller role and is online; the IndexError of indexing an empty
   * filtered list when there is none.
   */
  function OnlineController(nodes: seq<Node>): (r: Result<Node, Error>)
    ensures r.Success? ==> IsOnlineController(r.value) && r.value in nodes
    ensures r.Success? ==>
      exists i ::
        && 0 <= i < |nodes|
        && nodes[i] == r.value
        && (forall j :: 0 <= j < i ==> !IsOnlineController(nodes[j]))
    ensures r.Failure? <==> forall j :: 0 <= j < |nodes| ==> !IsOnlineController(nodes[j])
    ensures r.Failure? ==> r.error == NoOnlineController
  {
    var i := FirstIndex(nodes, IsOnlineController);
    if i == |nodes| then Failure(NoOnlineController) else Success(nodes[i])
  }
}
