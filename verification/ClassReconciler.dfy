/** One pass of the LocalStorageClass controller, call by call. */
module ClassReconciler {
  import opened Wrappers
  import opened Names
  import opened LocalStorage
  import opened LvgResolution
  import opened StorageClasses
  import opened Validation
  import opened ClassServer

  /** retry.DefaultBackoff makes four attempts. */
  const ATTEMPTS: nat := 4

  /** What the pass returns: whether to come back, and whether it failed. */
  datatype Outcome = Outcome(w: Cluster, requeue: bool, failed: bool)

  // -------------------------------------------------------------------- finalizers

  datatype Ensured = Ensured(w: Cluster, lsc: LocalStorageClass, ok: bool)

  function AddFinalizer(env: Environment, w: Cluster, lsc: LocalStorageClass, attempts: nat): Ensured
    requires attempts > 0
    decreases attempts
  {
    var got := GetClass(env, w);
    if !got.reply.Found? then Ensured(got.w, lsc, false)
    else
      var live := got.reply.value;
      if live.terminating || Controller in live.finalizers then Ensured(got.w, lsc, true)
      else
        var finalizers := live.finalizers + [Controller];
        match UpdateClass(env, got.w, live, finalizers)
        case Accepted(w') => Ensured(w', lsc.(finalizers := finalizers), true)
        case Refused(w', conflict) =>
          if conflict && attempts > 1 then AddFinalizer(env, w', lsc, attempts - 1) else Ensured(w', lsc, false)
  }

  function EnsureFinalizer(env: Environment, w: Cluster, lsc: LocalStorageClass): Ensured {
    if lsc.terminating || Controller in lsc.finalizers then Ensured(w, lsc, true) else AddFinalizer(env, w, lsc, ATTEMPTS)
  }

  predicate IsControllers(f: Holder) {
    f == Controller || f == ControllerOld
  }

  /** The finalizers that are not this controller's, in their order. */
  function Kept(finalizers: seq<Holder>): seq<Holder> {
    if finalizers == [] then []
    else
      var last := finalizers[|finalizers| - 1];
      Kept(finalizers[..|finalizers| - 1]) + if IsControllers(last) then [] else [last]
  }

  function ReleaseSc(env: Environment, w: Cluster, attempts: nat): Written
    requires attempts > 0
    decreases attempts
  {
    var got := GetSc(env, w);
    match got.reply
    case NotFound => Accepted(got.w)
    case Unread => Refused(got.w, false)
    case Found(live) =>
      if Kept(live.finalizers) == live.finalizers then Accepted(got.w)
      else
        match UpdateSc(env, got.w, live, Kept(live.finalizers))
        case Accepted(w') => Accepted(w')
        case Refused(w', conflict) =>
          if conflict && attempts > 1 then ReleaseSc(env, w', attempts - 1) else Refused(w', false)
  }

  function ReleaseClass(env: Environment, w: Cluster, attempts: nat): Written
    requires attempts > 0
    decreases attempts
  {
    var got := GetClass(env, w);
    match got.reply
    case NotFound => Accepted(got.w)
    case Unread => Refused(got.w, false)
    case Found(live) =>
      if Kept(live.finalizers) == live.finalizers then Accepted(got.w)
      else
        match UpdateClass(env, got.w, live, Kept(live.finalizers))
        case Accepted(w') => Accepted(w')
        case Refused(w', conflict) =>
          if conflict && attempts > 1 then ReleaseClass(env, w', attempts - 1) else Refused(w', false)
  }

  // ------------------------------------------------------------------------ status

  function UpdatePhase(env: Environment, w: Cluster, lsc: LocalStorageClass, phase: Phase): Written {
    var ensured := EnsureFinalizer(env, w, lsc);
    if !ensured.ok then Refused(ensured.w, false)
    else WriteStatus(env, ensured.w, Some(phase), Condition(phase == Created, lsc.generation))
  }

  function SetDeleting(env: Environment, w: Cluster, lsc: LocalStorageClass): Written {
    WriteStatus(env, w, None, Condition(false, lsc.generation))
  }

  function ReportFailure(env: Environment, w: Cluster, lsc: LocalStorageClass): Outcome {
    Outcome(UpdatePhase(env, w, lsc, Failed).w, true, true)
  }

  function ReportSuccess(env: Environment, w: Cluster, lsc: LocalStorageClass): Outcome {
    var p := UpdatePhase(env, w, lsc, Created);
    Outcome(p.w, p.Refused?, p.Refused?)
  }

  // ------------------------------------------------------------------- StorageClass

  function DeleteManaged(env: Environment, w: Cluster, sc: StorageClass): Written {
    if !Ours(sc) then Refused(w, false)
    else
      var released := ReleaseSc(env, w, ATTEMPTS);
      if released.Refused? then released else DeleteSc(env, released.w)
  }

  function Recreate(env: Environment, w: Cluster, existing: StorageClass, replacement: StorageClass): Written {
    var deleted := DeleteManaged(env, w, existing);
    if deleted.Refused? then deleted else CreateSc(env, deleted.w, replacement)
  }

  /** A no-op on what Configure renders, which carries the finalizer already. */
  function AddFinalizerToSc(env: Environment, w: Cluster, sc: StorageClass): Written {
    if Controller in sc.finalizers then Accepted(w) else UpdateSc(env, w, sc, sc.finalizers + [Controller])
  }

  // -------------------------------------------------------------------------- passes

  ghost function CreatePass(env: Environment, w: Cluster, scs: seq<StorageClass>, lsc: LocalStorageClass,
                            lvgs: seq<VolumeGroup>, targets: seq<Target>, prefixes: seq<string>): Outcome
  {
    var ensured := EnsureFinalizer(env, w, lsc);
    var w1, lsc1 := ensured.w, ensured.lsc;
    if !ensured.ok then Outcome(w1, true, true)
    else if !IsValid(scs, lsc1, lvgs, targets) then ReportFailure(env, w1, lsc1)
    else
      // Rendering fails only without spec.lvm, which a valid class has.
      var sc := Configure(lsc1, targets, prefixes).value;
      if FindSc(scs, sc.name).Some? then Outcome(w1, true, false)
      else
        var created := CreateSc(env, w1, sc);
        if created.Refused? then ReportFailure(env, created.w, lsc1)
        else
          var held := AddFinalizerToSc(env, created.w, sc);
          if held.Refused? then Outcome(held.w, true, true) else ReportSuccess(env, held.w, lsc1)
  }

  ghost function UpdatePass(env: Environment, w: Cluster, scs: seq<StorageClass>, lsc: LocalStorageClass,
                            lvgs: seq<VolumeGroup>, targets: seq<Target>, prefixes: seq<string>): Outcome
  {
    if !IsValid(scs, lsc, lvgs, targets) || FindSc(scs, lsc.name).None? then ReportFailure(env, w, lsc)
    else
      var existing := FindSc(scs, lsc.name).value;
      match HasScDiff(existing, lsc, targets, prefixes)
      case Fail => ReportFailure(env, w, lsc)
      case Ok(false) => ReportSuccess(env, w, lsc)
      case Ok(true) =>
        var recreated := Recreate(env, w, existing, Reconfigure(lsc, existing, targets, prefixes).value);
        if recreated.Refused? then ReportFailure(env, recreated.w, lsc) else ReportSuccess(env, recreated.w, lsc)
  }

  function DeletePass(env: Environment, w: Cluster, scs: seq<StorageClass>, lsc: LocalStorageClass): Outcome {
    var sc := FindSc(scs, lsc.name);
    var deleted := if sc.Some? && Ours(sc.value) then DeleteManaged(env, w, sc.value) else Accepted(w);
    if deleted.Refused? then ReportFailure(env, deleted.w, lsc)
    else
      var released := ReleaseClass(env, deleted.w, ATTEMPTS);
      if released.Refused? then ReportFailure(env, released.w, lsc)
      else Outcome(SetDeleting(env, released.w, lsc).w, false, false)
  }

  function EffectiveLvgs(lsc: LocalStorageClass, lvgs: seq<VolumeGroup>): Result<seq<Target>> {
    if lsc.lvm.None? then Ok([]) else Resolve(lsc.lvm.value.entries, lvgs)
  }

  ghost function RunEventReconcile(env: Environment, w: Cluster, scs: seq<StorageClass>, lsc: LocalStorageClass,
                                   lvgs: seq<VolumeGroup>, prefixes: seq<string>): Outcome
  {
    if lsc.terminating then DeletePass(env, w, scs, lsc)
    else
      var listed := ReadOther(env, w);
      var targets := EffectiveLvgs(lsc, lvgs);
      if listed.reply.Unread? || targets.Fail? then ReportFailure(env, listed.w, lsc)
      else if Panics(scs, lsc) then Outcome(listed.w, true, true)
      else
        match Identify(scs, lsc, targets.value, prefixes)
        case Fail => ReportFailure(env, listed.w, lsc)
        case Ok(NoReconcile) => Outcome(listed.w, false, false)
        case Ok(CreateReconcile) => CreatePass(env, listed.w, scs, lsc, lvgs, targets.value, prefixes)
        case Ok(UpdateReconcile) => UpdatePass(env, listed.w, scs, lsc, lvgs, targets.value, prefixes)
        case Ok(DeleteReconcile) => DeletePass(env, listed.w, scs, lsc)
  }

  /** What a pass reads besides the two resources. */
  datatype Inputs = Inputs(lvgs: seq<VolumeGroup>, prefixes: seq<string>)

  ghost function Pass(env: Environment, w: Cluster, inputs: Inputs): Outcome {
    var start := OpenPass(env, w.(down := false));
    if !start.reply.Found? then Outcome(start.w, start.reply.Unread?, start.reply.Unread?)
    else
      var scs := ListScs(env, start.w);
      if scs.reply.Unread? then Outcome(scs.w, true, true)
      else
        var secret := ReadOther(env, scs.w);
        if secret.reply.Unread? then Outcome(secret.w, true, false)
        else RunEventReconcile(env, secret.w, scs.reply.value, start.reply.value, inputs.lvgs, inputs.prefixes)
  }

  /** Any number of passes, each after a crash, a failure or a success of the one before. */
  ghost function Run(env: Environment, w: Cluster, passes: seq<Inputs>): Cluster {
    if passes == [] then w
    else Pass(env, Run(env, w, passes[..|passes| - 1]), passes[|passes| - 1]).w
  }
}
