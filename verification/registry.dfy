/**
 * The static registry `collected_components_attrs`: for every resource
 * kind, which output fields to extract (and along which key path), and
 * the ordered candidate attribute paths to its resource manager.
 */
module Registry {

  import opened Wrappers
  import opened Types

  /**
   * `attrNames` maps an output field name to the key path walked in each
   * instance dictionary; `managerPaths` lists the attribute paths tried,
   * in order, to find the object whose `list()` yields the instances.
   */
  datatype Schema = Schema(attrNames: map<string, seq<string>>, managerPaths: seq<seq<string>>)

  const VmSchema := Schema(
    map[
      "id" := ["id"],
      "status" := ["status"],
      "tenant_id" := ["tenant_id"],
      "host_id" := ["hostId"],
      "created_at" := ["created"],
      "power_state" := ["OS-EXT-STS:power_state"],
      "flavor_id" := ["flavor", "id"],
      "image_id" := ["image", "id"]
    ],
    [["nova", "servers"]])

  const FlavorSchema := Schema(
    map[
      "id" := ["id"],
      "ram" := ["ram"],
      "vcpus" := ["vcpus"],
      "ephemeral" := ["OS-FLV-EXT-DATA:ephemeral"],
      "disk" := ["disk"],
      "swap" := ["swap"]
    ],
    [["nova", "flavors"]])

  const TenantSchema := Schema(
    map[
      "id" := ["id"],
      "enabled_flag" := ["enabled"]
    ],
    [["keystone", "tenants"], ["keystone", "projects"]])

  const ImageSchema := Schema(
    map[
      "id" := ["id"],
      "minDisk" := ["minDisk"],
      "minRam" := ["minRam"],
      "sizeBytes" := ["OS-EXT-IMG-SIZE:size"],
      "created_at" := ["created"],
      "updated_at" := ["updated"]
    ],
    [["nova", "images"]])

  const VolumeSchema := Schema(
    map[
      "id" := ["id"],
      "availability_zone" := ["availability_zone"],
      "encrypted_flag" := ["encrypted"],
      "bootable_flag" := ["bootable"],
      "status" := ["status"],
      "volume_type" := ["volume_type"],
      "size" := ["size"],
      "host" := ["os-vol-host-attr:host"],
      "snapshot_id" := ["snapshot_id"],
      "attachments" := ["attachments"],
      "tenant_id" := ["os-vol-tenant-attr:tenant_id"]
    ],
    [["cinder", "volumes"]])

  /** The registry table, keyed by resource kind name. */
  const CollectedComponentsAttrs: map<string, Schema> := map[
    "vm" := VmSchema,
    "flavor" := FlavorSchema,
    "tenant" := TenantSchema,
    "image" := ImageSchema,
    "volume" := VolumeSchema
  ]

  /** The resource kinds the statistics collector knows about. */
  const KnownKinds: set<string> := {"vm", "flavor", "tenant", "image", "volume"}

  /**
   * What every registry entry guarantees: at least the field "id",
   * extracted from the key "id"; no empty key path; at least one
   * candidate manager path, none of them empty.
   */
  predicate WellFormed(s: Schema)
  {
    && "id" in s.attrNames
    && s.attrNames["id"] == ["id"]
    && (forall a :: a in s.attrNames ==> |s.attrNames[a]| > 0)
    && |s.managerPaths| > 0
    && (forall i :: 0 <= i < |s.managerPaths| ==> |s.managerPaths[i]| > 0)
  }

  lemma VmWellFormed() ensures WellFormed(VmSchema) {}
  lemma FlavorWellFormed() ensures WellFormed(FlavorSchema) {}
  lemma TenantWellFormed() ensures WellFormed(TenantSchema) {}
  lemma ImageWellFormed() ensures WellFormed(ImageSchema) {}
  lemma VolumeWellFormed() ensures WellFormed(VolumeSchema) {}

  /** `collected_components_attrs[resource_name]`, failing like the KeyError on an unknown kind. */
  function LookupSchema(name: string): (r: Result<Schema, Error>)
    ensures r.Success? <==> name in KnownKinds
    ensures r.Failure? ==> r.error == UnknownResource(name)
    ensures r.Success? ==> WellFormed(r.value)
  {
    VmWellFormed();
    FlavorWellFormed();
    TenantWellFormed();
    ImageWellFormed();
    VolumeWellFormed();
    if name in CollectedComponentsAttrs then
      Success(CollectedComponentsAttrs[name])
    else
      Failure(UnknownResource(name))
  }
}
