/** The resources the LocalStorageClass controller, the webhook and the CSI driver share. */
module LocalStorage {
  import opened Wrappers

  type Labels = map<string, string>

  /** A label selector: either it does not parse or it decides about label sets. */
  datatype Selector = Malformed | Selecting(matches: Labels -> bool)

  /** One spec.lvm.lvmVolumeGroups entry. */
  datatype Entry = Entry(name: string, selector: Option<Selector>, thin: Option<string>)

  datatype ThinPool = ThinPool(name: string, available: int)

  /** An LVMVolumeGroup with the status its node agent reports. */
  datatype VolumeGroup = VolumeGroup(
    name: string,
    labels: Labels,
    nodeName: string,
    actualVgName: string,
    nodes: seq<string>,
    thinPools: seq<ThinPool>,
    vgSize: int,
    vgFree: int,
    allocatedSize: int,
    extentSize: int)

  datatype Result<+T> = Ok(value: T) | Fail
}
