/**
  LocalStorageClasses, the StorageClasses they manage, and the pure decisions the
  controller takes about them.
  */
module StorageClasses {
  import opened Wrappers
  import opened Names
  import opened LocalStorage

  const PROVISIONER: string := "local.csi.storage.deckhouse.io"
  const THIN: string := "Thin"
  const DEFAULT_FS_TYPE: string := "ext4"
  const MANAGED_KEY: string := "storage.deckhouse.io/managed-by"
  const CONTROLLER_NAME: string := "d8-sds-local-volume-storage-class-controller"
  const SNAPSHOT_CLASS_KEY: string := "storage.deckhouse.io/volumesnapshotclass"
  const SNAPSHOT_CLASS: string := "sds-local-volume-snapshot-class"

  /** Both spellings of the controller's finalizer, and anybody else's. */
  datatype Holder = Controller | ControllerOld | Other(name: string)

  datatype LvmSpec = LvmSpec(lvmType: string, contiguous: Option<bool>, cleanup: string, entries: seq<Entry>)

  datatype Phase = NoPhase | Created | Failed
  datatype Condition = Condition(ok: bool, observedGeneration: nat)
  datatype Status = Status(phase: Phase, ready: Option<Condition>)

  datatype LocalStorageClass = LocalStorageClass(
    name: string,
    rv: nat,
    terminating: bool,
    finalizers: seq<Holder>,
    labels: Labels,
    generation: nat,
    reclaimPolicy: string,
    bindingMode: string,
    fsType: string,
    lvm: Option<LvmSpec>,
    status: Option<Status>)

  /** `lvgs` is the parsed lvm-volume-groups parameter, None where it does not parse;
      `cleanup` is empty where the parameter is absent. */
  datatype StorageClass = StorageClass(
    name: string,
    rv: nat,
    terminating: bool,
    finalizers: seq<Holder>,
    provisioner: string,
    labels: Labels,
    annotations: Labels,
    lvgs: Option<seq<Target>>,
    cleanup: string,
    lvmType: string,
    fsType: string,
    contiguous: bool,
    reclaimPolicy: string,
    bindingMode: string)

  predicate Ours(sc: StorageClass) {
    sc.provisioner == PROVISIONER
  }

  function FindSc(scs: seq<StorageClass>, name: string): Option<StorageClass> {
    if scs == [] then None
    else if scs[0].name == name then Some(scs[0])
    else FindSc(scs[1..], name)
  }

  // ------------------------------------------------------------------------ labels

  predicate IsIgnored(key: string, prefixes: seq<string>) {
    exists prefix :: prefix in prefixes && prefix != "" && prefix <= key
  }

  function FilterLabels(labels: Labels, prefixes: seq<string>): Labels {
    map key | key in labels && !IsIgnored(key, prefixes) :: labels[key]
  }

  function ExpectedLabels(labels: Labels, prefixes: seq<string>): Labels {
    FilterLabels(labels, prefixes)[MANAGED_KEY := CONTROLLER_NAME]
  }

  // -------------------------------------------------------------------------- diff

  function ByName(targets: seq<Target>): map<string, Option<string>> {
    if targets == [] then map[]
    else ByName(targets[..|targets| - 1])[targets[|targets| - 1].name := targets[|targets| - 1].thin]
  }

  function Compare(current: seq<Target>, effective: map<string, Option<string>>, thin: bool): Result<bool> {
    if current == [] then Ok(false)
    else if current[0].name !in effective then Ok(true)
    else if thin && current[0].thin.None? && effective[current[0].name].None? then Fail
    else if thin && current[0].thin != effective[current[0].name] then Ok(true)
    else Compare(current[1..], effective, thin)
  }

  function HasScDiff(sc: StorageClass, lsc: LocalStorageClass, targets: seq<Target>, prefixes: seq<string>): Result<bool>
    requires sc.lvgs.Some? ==> lsc.lvm.Some?
  {
    if sc.lvgs.None? then Fail
    else if lsc.lvm.value.cleanup != sc.cleanup then Ok(true)
    else if sc.labels != ExpectedLabels(lsc.labels, prefixes) then Ok(true)
    else if |sc.lvgs.value| != |targets| then Ok(true)
    else Compare(sc.lvgs.value, ByName(targets), lsc.lvm.value.lvmType == THIN)
  }

  method CheckScDiff(sc: StorageClass, lsc: LocalStorageClass, targets: seq<Target>, prefixes: seq<string>) returns (r: Result<bool>)
    requires sc.lvgs.Some? ==> lsc.lvm.Some?
    ensures r == HasScDiff(sc, lsc, targets, prefixes)
  {
    if sc.lvgs.None? {
      return Fail;
    }
    if lsc.lvm.value.cleanup != sc.cleanup {
      return Ok(true);
    }
    var expected := FilterLabels(lsc.labels, prefixes);
    expected := expected[MANAGED_KEY := CONTROLLER_NAME];
    if sc.labels != expected {
      return Ok(true);
    }
    var current := sc.lvgs.value;
    if |current| != |targets| {
      return Ok(true);
    }
    var effective: map<string, Option<string>> := map[];
    for i := 0 to |targets|
      invariant effective == ByName(targets[..i])
    {
      assert targets[..i + 1][..i] == targets[..i];
      effective := effective[targets[i].name := targets[i].thin];
    }
    assert targets[..|targets|] == targets;
    var thin := lsc.lvm.value.lvmType == THIN;
    for i := 0 to |current|
      invariant Compare(current, effective, thin) == Compare(current[i..], effective, thin)
    {
      assert current[i..][0] == current[i] && current[i..][1..] == current[i + 1..];
      if current[i].name !in effective {
        return Ok(true);
      }
      if thin {
        if current[i].thin.None? && effective[current[i].name].None? {
          return Fail;
        }
        if current[i].thin != effective[current[i].name] {
          return Ok(true);
        }
      }
    }
    return Ok(false);
  }

  // -------------------------------------------------------------------- rendering

  function Configure(lsc: LocalStorageClass, targets: seq<Target>, prefixes: seq<string>): Result<StorageClass> {
    if lsc.lvm.None? then Fail
    else
      var lvm := lsc.lvm.value;
      Ok(StorageClass(lsc.name, 0, false, [Controller], PROVISIONER, ExpectedLabels(lsc.labels, prefixes),
                      map[SNAPSHOT_CLASS_KEY := SNAPSHOT_CLASS], Some(targets), lvm.cleanup, lvm.lvmType,
                      if lsc.fsType == "" then DEFAULT_FS_TYPE else lsc.fsType, lvm.contiguous == Some(true),
                      lsc.reclaimPolicy, lsc.bindingMode))
  }

  /** The replacement of an existing StorageClass keeps the annotations others put there. */
  function Reconfigure(lsc: LocalStorageClass, existing: StorageClass, targets: seq<Target>, prefixes: seq<string>): Result<StorageClass> {
    match Configure(lsc, targets, prefixes)
    case Fail => Fail
    case Ok(sc) => Ok(sc.(annotations := existing.annotations + sc.annotations))
  }

  // ----------------------------------------------------------------- the next step

  datatype ReconcileKind = NoReconcile | CreateReconcile | UpdateReconcile | DeleteReconcile

  /** The Ready condition says yes, about the generation now in the spec. */
  predicate ReadyIsCurrent(lsc: LocalStorageClass) {
    && lsc.status.Some? && lsc.status.value.ready.Some? && lsc.status.value.ready.value.ok
    && lsc.status.value.ready.value.observedGeneration >= lsc.generation
  }

  /** hasSCDiff dereferences a missing spec.lvm. */
  predicate Panics(scs: seq<StorageClass>, lsc: LocalStorageClass) {
    var sc := FindSc(scs, lsc.name);
    !lsc.terminating && lsc.lvm.None? && sc.Some? && Ours(sc.value) && sc.value.lvgs.Some?
  }

  function Identify(scs: seq<StorageClass>, lsc: LocalStorageClass, targets: seq<Target>, prefixes: seq<string>): Result<ReconcileKind>
    requires !Panics(scs, lsc)
  {
    if lsc.terminating then Ok(DeleteReconcile)
    else
      match FindSc(scs, lsc.name)
      case None => Ok(CreateReconcile)
      case Some(sc) =>
        if !Ours(sc) then Fail
        else
          match HasScDiff(sc, lsc, targets, prefixes)
          case Fail => Fail
          case Ok(diff) => Ok(if diff || !ReadyIsCurrent(lsc) then UpdateReconcile else NoReconcile)
  }
}
