/** CreateVolume and ControllerExpandVolume: what size is stored, where, and what capacity
    is reported. */
module Volumes {
  import opened Wrappers
  import opened Names
  import opened LocalStorage
  import opened StorageClasses
  import opened Sizing
  import opened Placement

  const IMMEDIATE: string := "Immediate"
  const WAIT_FOR_FIRST_CONSUMER: string := "WaitForFirstConsumer"
  const CREATED: string := "Created"
  const FAILED: string := "Failed"

  datatype Code = InvalidArgument | Internal | NotFound | FailedPrecondition | OutOfRange | Unknown

  /** The lvm-volume-groups parameter: absent, not parsing, or a list. */
  datatype Parameter = Missing | Unparsable | Parsed(targets: seq<Target>)

  datatype SnapshotStatus = SnapshotStatus(phase: string, nodeName: string, actualVgName: string, size: int)
  /** `size` is None where spec.size does not parse. */
  datatype SourceVolume = SourceVolume(lvmType: string, size: Option<int>, lvgName: string)
  /** What looking the source up found. */
  datatype ContentSource =
    | FromSnapshot(snapshot: Option<Option<SnapshotStatus>>)
    | FromVolume(volume: Option<SourceVolume>)

  datatype Request = Request(
    typeIsLvm: bool,
    name: string,
    capable: bool,
    bindingMode: string,
    lvmType: string,
    classTargets: Parameter,
    required: int,
    source: Option<ContentSource>,
    preferred: Option<string>,
    cleanup: string)

  // ------------------------------------------------------------------ small decisions

  /** The extent is positive after SafeExtentSize, so aligning does not fail. */
  function AlignToLvg(size: int, lvg: VolumeGroup): int {
    AlignSizeToExtent(size, SafeExtentSize(lvg.extentSize)).value
  }

  predicate FitsFreeSpace(bindingMode: string, lvmType: string, aligned: int, free: int) {
    if bindingMode != IMMEDIATE || lvmType != THICK then true else aligned <= free
  }

  // ------------------------------------------------------------- choosing place and size

  datatype Plan = Planned(lvg: VolumeGroup, node: string, size: int) | Rejected(code: Code) | Panics

  /** The size of a copy: the source's unless more was asked for. */
  function CopySize(required: int, sourceSize: int, lvg: VolumeGroup): Option<int> {
    if required == 0 then Some(sourceSize)
    else if AlignToLvg(required, lvg) < sourceSize then None
    else Some(AlignToLvg(required, lvg))
  }

  function PlanCopy(required: int, sourceSize: int, lvg: VolumeGroup, node: string, pools: map<string, string>): Plan {
    if lvg.name !in pools then Rejected(InvalidArgument)
    else
      match CopySize(required, sourceSize, lvg)
      case None => Rejected(OutOfRange)
      case Some(size) => Planned(lvg, node, size)
  }

  function PlanFromSource(req: Request, source: ContentSource, lvgs: seq<VolumeGroup>, pools: map<string, string>): Plan {
    if req.lvmType != THIN then Rejected(InvalidArgument)
    else
      match source
      case FromSnapshot(None) => Rejected(NotFound)
      case FromSnapshot(Some(None)) => Rejected(FailedPrecondition)
      case FromSnapshot(Some(Some(s))) =>
        if s.phase != CREATED then Rejected(FailedPrecondition)
        else
          var lvg := SelectLvgByActualName(lvgs, s.nodeName, s.actualVgName);
          if lvg.None? then Rejected(FailedPrecondition) else PlanCopy(req.required, s.size, lvg.value, s.nodeName, pools)
      case FromVolume(None) => Rejected(NotFound)
      case FromVolume(Some(v)) =>
        if v.lvmType != THIN then Rejected(InvalidArgument)
        else if v.size.None? then Rejected(Internal)
        else
          var lvg := SelectLvgByName(lvgs, v.lvgName);
          if lvg.None? then Rejected(Internal) else PlanCopy(req.required, v.size.value, lvg.value, lvg.value.nodeName, pools)
  }

  function Preferred(req: Request): string {
    if req.bindingMode == WAIT_FOR_FIRST_CONSUMER && req.preferred.Some? then req.preferred.value else ""
  }

  function PlanPlain(req: Request, lvgs: seq<VolumeGroup>, pools: map<string, string>): Plan {
    var pick := if req.bindingMode == IMMEDIATE then NodeWithMaxFreeSpace(lvgs, pools, req.lvmType) else Picked(Preferred(req), 0);
    match pick
    case NoPick => Rejected(Internal)
    case Panic => Panics
    case Picked(node, free) =>
      var lvg := SelectLvg(lvgs, node);
      if lvg.None? then Rejected(Internal)
      else
        var size := AlignToLvg(req.required, lvg.value);
        if FitsFreeSpace(req.bindingMode, req.lvmType, size, free) then Planned(lvg.value, node, size) else Rejected(Internal)
  }

  /** `listed` is None where the LVMVolumeGroups cannot be listed. */
  function PlanVolume(req: Request, listed: Option<seq<VolumeGroup>>, cleanupEnabled: bool): Plan {
    if !req.typeIsLvm || req.name == "" || !req.capable || req.classTargets.Missing? then Rejected(InvalidArgument)
    else if req.classTargets.Unparsable? || listed.None? then Rejected(Internal)
    else
      var pools := PoolsOf(req.classTargets.targets);
      var lvgs := ClassLvgs(listed.value, pools.Keys);
      var plan := if req.source.Some? then PlanFromSource(req, req.source.value, lvgs, pools) else PlanPlain(req, lvgs, pools);
      if plan.Planned? && !cleanupEnabled && req.cleanup != "" then Rejected(Unknown) else plan
  }

  // ------------------------------------------------------------------------ waiting

  datatype LlvStatus = LlvStatus(phase: string, actualSize: int)
  datatype Poll = GetFailed | Polled(terminating: bool, status: Option<LlvStatus>)

  /** The polls until the context is done. */
  function Await(polls: seq<Poll>, aligned: int): Option<LlvStatus> {
    if polls == [] || polls[0].GetFailed? then None
    else if polls[0].status.None? then Await(polls[1..], aligned)
    else
      var status := polls[0].status.value;
      if polls[0].terminating || status.phase == FAILED then None
      else if status.phase == CREATED && status.actualSize >= aligned then Some(status)
      else Await(polls[1..], aligned)
  }

  method WaitForStatusUpdate(polls: seq<Poll>, size: int, extent: int) returns (status: Option<LlvStatus>)
    ensures AlignSizeToExtent(size, extent).Fail? ==> status == None
    ensures AlignSizeToExtent(size, extent).Ok? ==> status == Await(polls, AlignSizeToExtent(size, extent).value)
  {
    var alignedSize := AlignSizeToExtent(size, extent);
    if alignedSize.Fail? {
      return None;
    }
    for i := 0 to |polls|
      invariant Await(polls, alignedSize.value) == Await(polls[i..], alignedSize.value)
    {
      assert polls[i..][0] == polls[i] && polls[i..][1..] == polls[i + 1..];
      if polls[i].GetFailed? {
        return None;
      }
      if polls[i].status.Some? {
        var llv := polls[i].status.value;
        if polls[i].terminating {
          return None;
        }
        if llv.phase == FAILED {
          return None;
        }
        if llv.phase == CREATED {
          if llv.actualSize >= alignedSize.value {
            return Some(llv);
          }
        }
      }
    }
    return None;
  }

  // ------------------------------------------------------------------------- creating

  /** The LVMLogicalVolume's own spec: its LVMVolumeGroup and its size. */
  datatype Stored = Stored(lvgName: string, size: int)

  /** A retry finds the object an earlier call created, and leaves it as it is. */
  datatype CreateReply = CreatedNew | AlreadyExists(existing: Stored) | CreateFailed

  /** What the driver reports - capacity, node and volume group - and what is stored.
      `cleanedUp`: the volume was deleted again, the existing one included. */
  datatype Response =
    | Provisioned(capacity: int, node: string, lvg: VolumeGroup, stored: Stored)
    | Refused(code: Code, cleanedUp: bool)
    | Panicked

  function Provision(plan: Plan, reply: CreateReply, polls: seq<Poll>): Response {
    match plan
    case Rejected(code) => Refused(code, false)
    case Panics => Panicked
    case Planned(lvg, node, size) =>
      if reply.CreateFailed? then Refused(Unknown, false)
      else
        match Await(polls, AlignToLvg(size, lvg))
        case None => Refused(Unknown, true)
        case Some(status) =>
          Provisioned(status.actualSize, node, lvg, if reply.AlreadyExists? then reply.existing else Stored(lvg.name, size))
  }

  method CreateVolume(req: Request, listed: Option<seq<VolumeGroup>>, cleanupEnabled: bool, reply: CreateReply, polls: seq<Poll>)
    returns (response: Response)
    ensures response == Provision(PlanVolume(req, listed, cleanupEnabled), reply, polls)
  {
    if !req.typeIsLvm || |req.name| == 0 || !req.capable || req.classTargets.Missing? {
      return Refused(InvalidArgument, false);
    }
    if req.classTargets.Unparsable? || listed.None? {
      return Refused(Internal, false);
    }
    var lvgs, pools := GetStorageClassLvgsAndParameters(req.classTargets.targets, listed.value);
    var plan;
    if req.source.Some? {
      plan := ChooseFromSource(req, req.source.value, lvgs, pools);
    } else {
      plan := ChoosePlain(req, lvgs, pools);
    }
    match plan {
      case Rejected(code) => return Refused(code, false);
      case Panics => return Panicked;
      case Planned(selectedLvg, preferredNode, llvSize) =>
        if !cleanupEnabled && req.cleanup != "" {
          return Refused(Unknown, false);
        }
        var stored := Stored(selectedLvg.name, llvSize);
        match reply {
          case CreatedNew =>
          case AlreadyExists(existing) => stored := existing;
          case CreateFailed => return Refused(Unknown, false);
        }
        var status := WaitForStatusUpdate(polls, llvSize, SafeExtentSize(selectedLvg.extentSize));
        if status.None? {
          return Refused(Unknown, true);
        }
        return Provisioned(status.value.actualSize, preferredNode, selectedLvg, stored);
    }
  }

  /** The branches for a volume with a content source. */
  method ChooseFromSource(req: Request, source: ContentSource, lvgs: seq<VolumeGroup>, pools: map<string, string>) returns (plan: Plan)
    ensures plan == PlanFromSource(req, source, lvgs, pools)
  {
    if req.lvmType != THIN {
      return Rejected(InvalidArgument);
    }
    var llvSize := req.required;
    var sourceSize, preferredNode;
    var selectedLvg: Option<VolumeGroup>;
    match source {
      case FromSnapshot(snapshot) =>
        if snapshot.None? {
          return Rejected(NotFound);
        }
        if snapshot.value.None? || snapshot.value.value.phase != CREATED {
          return Rejected(FailedPrecondition);
        }
        var s := snapshot.value.value;
        selectedLvg := FindLvgByActualName(lvgs, s.nodeName, s.actualVgName);
        if selectedLvg.None? {
          return Rejected(FailedPrecondition);
        }
        sourceSize, preferredNode := s.size, s.nodeName;
      case FromVolume(volume) =>
        if volume.None? {
          return Rejected(NotFound);
        }
        var v := volume.value;
        if v.lvmType != THIN {
          return Rejected(InvalidArgument);
        }
        if v.size.None? {
          return Rejected(Internal);
        }
        selectedLvg := FindLvgByName(lvgs, v.lvgName);
        if selectedLvg.None? {
          return Rejected(Internal);
        }
        sourceSize, preferredNode := v.size.value, selectedLvg.value.nodeName;
    }
    if selectedLvg.value.name !in pools {
      return Rejected(InvalidArgument);
    }
    if llvSize == 0 {
      llvSize := sourceSize;
    } else {
      llvSize := AlignToLvg(llvSize, selectedLvg.value);
      if llvSize < sourceSize {
        return Rejected(OutOfRange);
      }
    }
    return Planned(selectedLvg.value, preferredNode, llvSize);
  }

  /** The branch for an empty volume. */
  method ChoosePlain(req: Request, lvgs: seq<VolumeGroup>, pools: map<string, string>) returns (plan: Plan)
    ensures plan == PlanPlain(req, lvgs, pools)
  {
    var preferredNode, maxFreeSpace := "", 0;
    if req.bindingMode == IMMEDIATE {
      var pick := GetNodeWithMaxFreeSpace(lvgs, pools, req.lvmType);
      match pick {
        case NoPick => return Rejected(Internal);
        case Panic => return Panics;
        case Picked(node, free) => preferredNode, maxFreeSpace := node, free;
      }
    } else if req.bindingMode == WAIT_FOR_FIRST_CONSUMER && req.preferred.Some? {
      preferredNode := req.preferred.value;
    }
    var selectedLvg := FindLvg(lvgs, preferredNode);
    if selectedLvg.None? {
      return Rejected(Internal);
    }
    var llvSize := AlignToLvg(req.required, selectedLvg.value);
    if !FitsFreeSpace(req.bindingMode, req.lvmType, llvSize, maxFreeSpace) {
      return Rejected(Internal);
    }
    return Planned(selectedLvg.value, preferredNode, llvSize);
  }

  // ------------------------------------------------------------------------ expanding

  datatype Llv = Llv(lvmType: string, specSize: int, status: Option<LlvStatus>)
  datatype Expansion = Expanded(capacity: int, specSize: int) | NotExpanded(code: Code, specSize: int) | ExpandPanicked

  /** What spec.size is afterwards is part of every outcome. */
  function Expand(id: string, llv: Option<Llv>, lvg: Option<VolumeGroup>, required: int, updated: bool, polls: seq<Poll>): Expansion {
    if id == "" then NotExpanded(InvalidArgument, if llv.Some? then llv.value.specSize else 0)
    else if llv.None? then NotExpanded(Internal, 0)
    else if lvg.None? then NotExpanded(Internal, llv.value.specSize)
    else if llv.value.status.None? then ExpandPanicked
    else
      var aligned, actual := AlignToLvg(required, lvg.value), llv.value.status.value.actualSize;
      if actual >= aligned then Expanded(actual, llv.value.specSize)
      else if llv.value.lvmType == THICK && lvg.value.vgSize - lvg.value.allocatedSize < Wrap64(aligned - actual) then
        NotExpanded(Internal, llv.value.specSize)
      else if !updated then NotExpanded(Internal, llv.value.specSize)
      else
        match Await(polls, aligned)
        case None => NotExpanded(Unknown, required)
        case Some(status) => Expanded(status.actualSize, required)
  }

  method ControllerExpandVolume(id: string, llv: Option<Llv>, lvg: Option<VolumeGroup>, required: int, updated: bool, polls: seq<Poll>)
    returns (expansion: Expansion)
    ensures expansion == Expand(id, llv, lvg, required, updated, polls)
  {
    var specSize := if llv.Some? then llv.value.specSize else 0;
    if |id| == 0 {
      return NotExpanded(InvalidArgument, specSize);
    }
    if llv.None? || lvg.None? {
      return NotExpanded(Internal, specSize);
    }
    var alignedRequestCapacity := AlignToLvg(required, lvg.value);
    if llv.value.status.None? {
      return ExpandPanicked;
    }
    var actualSize := llv.value.status.value.actualSize;
    if actualSize >= alignedRequestCapacity {
      return Expanded(actualSize, specSize);
    }
    if llv.value.lvmType == THICK {
      var lvgFreeSpace := lvg.value.vgSize - lvg.value.allocatedSize;
      if lvgFreeSpace < Wrap64(alignedRequestCapacity - actualSize) {
        return NotExpanded(Internal, specSize);
      }
    }
    if !updated {
      return NotExpanded(Internal, specSize);
    }
    specSize := required;
    var status := WaitForStatusUpdate(polls, required, SafeExtentSize(lvg.value.extentSize));
    if status.None? {
      return NotExpanded(Unknown, specSize);
    }
    return Expanded(status.value.actualSize, specSize);
  }

  // --------------------------------------------------------------------- the capacity

  lemma {:induction false} AwaitedIsEnough(polls: seq<Poll>, aligned: int)
    ensures var s := Await(polls, aligned);
            s.Some? ==> s.value.phase == CREATED && s.value.actualSize >= aligned
                        && exists p :: p in polls && p == Polled(false, s)
  {
    if polls != [] && Await(polls, aligned).Some? {
      if Await(polls[1..], aligned).Some? {
        AwaitedIsEnough(polls[1..], aligned);
        assert forall p :: p in polls[1..] ==> p in polls;
      }
      assert polls[0] in polls;
    }
  }

  function SourceSize(source: ContentSource): Option<int> {
    match source
    case FromSnapshot(Some(Some(s))) => Some(s.size)
    case FromVolume(Some(v)) => v.size
    case _ => None
  }

  lemma {:induction false} SelectedByNameIsIn(lvgs: seq<VolumeGroup>, name: string)
    ensures var l := SelectLvgByName(lvgs, name); l.Some? ==> l.value in lvgs && l.value.name == name
  {
    if lvgs != [] && lvgs[0].name != name {
      SelectedByNameIsIn(lvgs[1..], name);
    }
  }

  lemma {:induction false} SelectedByActualNameIsIn(lvgs: seq<VolumeGroup>, node: string, actualName: string)
    ensures var l := SelectLvgByActualName(lvgs, node, actualName);
            l.Some? ==> l.value in lvgs && l.value.nodeName == node && l.value.actualVgName == actualName
  {
    if lvgs != [] && !(lvgs[0].nodeName == node && lvgs[0].actualVgName == actualName) {
      SelectedByActualNameIsIn(lvgs[1..], node, actualName);
    }
  }

  /** What is stored: the aligned request, except that a copy without a size of its own
      stores its source's; a copy is never smaller than its source, and only thin volumes
      are copied. The volume goes to one of the class's LVMVolumeGroups. */
  lemma PlannedSize(req: Request, listed: Option<seq<VolumeGroup>>, cleanupEnabled: bool)
    requires PlanVolume(req, listed, cleanupEnabled).Planned?
    ensures var p := PlanVolume(req, listed, cleanupEnabled);
            && req.classTargets.Parsed? && listed.Some?
            && p.lvg in ClassLvgs(listed.value, PoolsOf(req.classTargets.targets).Keys)
            && (req.source.None? ==> p.size == AlignToLvg(req.required, p.lvg))
            && (req.source.Some? ==>
                  && req.lvmType == THIN && SourceSize(req.source.value).Some?
                  && p.size == (if req.required == 0 then SourceSize(req.source.value).value else AlignToLvg(req.required, p.lvg))
                  && p.size >= SourceSize(req.source.value).value)
  {
    var lvgs := ClassLvgs(listed.value, PoolsOf(req.classTargets.targets).Keys);
    if req.source.Some? {
      match req.source.value {
        case FromSnapshot(Some(Some(s))) => SelectedByActualNameIsIn(lvgs, s.nodeName, s.actualVgName);
        case FromVolume(Some(v)) => SelectedByNameIsIn(lvgs, v.lvgName);
        case _ =>
      }
    } else {
      SelectedIsIn(lvgs, PlanVolume(req, listed, cleanupEnabled).node);
    }
  }

  /** A copy lands in its source's own volume group and on its node; an empty volume on the
      node Immediate binding picked or the scheduler preferred, in a group that is there. */
  lemma PlannedPlace(req: Request, listed: Option<seq<VolumeGroup>>, cleanupEnabled: bool)
    requires PlanVolume(req, listed, cleanupEnabled).Planned?
    ensures var p := PlanVolume(req, listed, cleanupEnabled);
            match req.source
            case Some(FromSnapshot(Some(Some(s)))) =>
              s.phase == CREATED && p.node == s.nodeName == p.lvg.nodeName && p.lvg.actualVgName == s.actualVgName
            case Some(FromVolume(Some(v))) => v.lvmType == THIN && p.lvg.name == v.lvgName && p.node == p.lvg.nodeName
            case Some(_) => false
            case None =>
              && HasNode(p.lvg, p.node)
              && (req.bindingMode == WAIT_FOR_FIRST_CONSUMER && req.preferred.Some? ==> p.node == req.preferred.value)
              && (req.bindingMode == IMMEDIATE && req.lvmType == THICK ==>
                    var lvgs := ClassLvgs(listed.value, PoolsOf(req.classTargets.targets).Keys);
                    p.size > 0 ==> exists l :: l in lvgs && HasNode(l, p.node) && p.size <= l.vgFree)
  {
    var lvgs, pools := ClassLvgs(listed.value, PoolsOf(req.classTargets.targets).Keys), PoolsOf(req.classTargets.targets);
    match req.source {
      case Some(FromSnapshot(Some(Some(s)))) => SelectedByActualNameIsIn(lvgs, s.nodeName, s.actualVgName);
      case Some(FromVolume(Some(v))) => SelectedByNameIsIn(lvgs, v.lvgName);
      case Some(_) =>
      case None =>
        SelectedIsIn(lvgs, PlanVolume(req, listed, cleanupEnabled).node);
        if req.bindingMode == IMMEDIATE {
          PickIsMaximum(lvgs, pools, req.lvmType);
        }
    }
  }

  /** What CreateVolume reports covers the aligned request and the source, whether the
      volume is new or was there already. What a new one stores is the plan; what was there
      stays as it was. */
  lemma CreateReportsEnough(req: Request, listed: Option<seq<VolumeGroup>>, cleanupEnabled: bool, reply: CreateReply, polls: seq<Poll>)
    requires var p := PlanVolume(req, listed, cleanupEnabled);
             p.Planned? && IsInt64(p.lvg.extentSize)
             && Alignable(req.required, SafeExtentSize(p.lvg.extentSize)) && Alignable(p.size, SafeExtentSize(p.lvg.extentSize))
    requires Provision(PlanVolume(req, listed, cleanupEnabled), reply, polls).Provisioned?
    ensures var r := Provision(PlanVolume(req, listed, cleanupEnabled), reply, polls);
            && r.capacity >= AlignToLvg(req.required, r.lvg) >= req.required
            && IsLeastMultiple(AlignToLvg(req.required, r.lvg), req.required, SafeExtentSize(r.lvg.extentSize))
            && (req.source.Some? ==> r.capacity >= SourceSize(req.source.value).value)
            && (match reply
                case CreatedNew =>
                  r.stored.lvgName == r.lvg.name
                  && (req.source.None? || req.required > 0 ==> r.stored.size % SafeExtentSize(r.lvg.extentSize) == 0)
                case AlreadyExists(existing) => r.stored == existing
                case CreateFailed => false)
  {
    var p := PlanVolume(req, listed, cleanupEnabled);
    PlannedSize(req, listed, cleanupEnabled);
    var extent := SafeExtentSize(p.lvg.extentSize);
    AlignedIsLeastMultiple(req.required, extent);
    AlignedIsLeastMultiple(p.size, extent);
    AwaitedIsEnough(polls, AlignToLvg(p.size, p.lvg));
    if req.required == 0 {
      AlignIsMonotone(0, p.size, extent);
    }
  }

  /** The node agent makes a volume as large as its own spec says, in whole extents of the
      group it is in. */
  ghost predicate AgentFollows(stored: Stored, home: VolumeGroup, polls: seq<Poll>) {
    home.name == stored.lvgName
    && forall p, status :: p in polls && p == Polled(false, Some(status)) && status.phase == CREATED ==>
         status.actualSize == AlignToLvg(stored.size, home)
  }

  /** A retry reports the size the existing volume really has; and if that is too small for
      what is asked now, it fails and has the existing volume deleted. */
  lemma RetryFollowsStored(plan: Plan, existing: Stored, home: VolumeGroup, polls: seq<Poll>)
    requires plan.Planned? && AgentFollows(existing, home, polls)
    ensures var r := Provision(plan, AlreadyExists(existing), polls);
            && (r.Provisioned? ==> r.capacity == AlignToLvg(existing.size, home) >= AlignToLvg(plan.size, plan.lvg))
            && (AlignToLvg(existing.size, home) < AlignToLvg(plan.size, plan.lvg) ==> r == Refused(Unknown, true))
  {
    AwaitedIsEnough(polls, AlignToLvg(plan.size, plan.lvg));
  }

  /** Each LVMVolumeGroup has its own name, and no node is called "". */
  ghost predicate WellNamed(lvgs: seq<VolumeGroup>) {
    && (forall i, j :: 0 <= i < j < |lvgs| ==> lvgs[i].name != lvgs[j].name)
    && (forall l :: l in lvgs ==> !HasNode(l, ""))
  }

  /** A retried Immediate create picks afresh. It reports the node and the volume group the
      existing volume is on exactly if that group now has free space, more than every group
      before it in the list and no less than any after it. */
  lemma RetryReportsPlace(req: Request, lvgs: seq<VolumeGroup>, pools: map<string, string>, existing: Stored, polls: seq<Poll>, home: nat)
    requires req.bindingMode == IMMEDIATE && OneEach(lvgs) && WellNamed(lvgs)
    requires home < |lvgs| && lvgs[home].name == existing.lvgName
    requires Provision(PlanPlain(req, lvgs, pools), AlreadyExists(existing), polls).Provisioned?
    ensures var r := Provision(PlanPlain(req, lvgs, pools), AlreadyExists(existing), polls);
            && (r.lvg.name == existing.lvgName <==> FirstMax(lvgs, pools, req.lvmType, home))
            && (r.lvg.name == existing.lvgName ==> r.lvg == lvgs[home] && HasNode(lvgs[home], r.node))
  {
    var pick := NodeWithMaxFreeSpace(lvgs, pools, req.lvmType);
    PickIsFirstMax(lvgs, pools, req.lvmType);
    SelectedIsIn(lvgs, pick.node);
    assert pick.free > 0;
    var k: nat :| FirstAt(lvgs, pools, req.lvmType, k, pick);
    SelectFindsTheOne(lvgs, lvgs[k], pick.node);
    if FirstMax(lvgs, pools, req.lvmType, home) {
      FirstMaxIsUnique(lvgs, pools, req.lvmType, home, k);
    }
  }

  /** What ControllerExpandVolume reports covers the aligned request and what was there
      before; it stores the request as it came, unaligned. */
  lemma ExpandReportsEnough(id: string, llv: Llv, lvg: VolumeGroup, required: int, updated: bool, polls: seq<Poll>)
    requires IsInt64(lvg.extentSize) && Alignable(required, SafeExtentSize(lvg.extentSize))
    requires Expand(id, Some(llv), Some(lvg), required, updated, polls).Expanded?
    ensures var r := Expand(id, Some(llv), Some(lvg), required, updated, polls);
            && r.capacity >= AlignToLvg(required, lvg) >= required
            && llv.status.Some? && r.capacity >= llv.status.value.actualSize
            && (r.specSize == llv.specSize || r.specSize == required)
            && (llv.status.value.actualSize < AlignToLvg(required, lvg) ==> r.specSize == required)
  {
    AlignedIsLeastMultiple(required, SafeExtentSize(lvg.extentSize));
    AwaitedIsEnough(polls, AlignToLvg(required, lvg));
  }

  /** An overflowing request passes every check: it is aligned to nothing, fits any free
      space, and any Created volume is big enough for it. */
  lemma OverflowPassesEveryCheck(required: int, lvg: VolumeGroup, bindingMode: string, lvmType: string, free: int,
                                 polls: seq<Poll>, status: LlvStatus)
    requires IsInt64(required) && IsInt64(lvg.extentSize) && required + SafeExtentSize(lvg.extentSize) - 1 >= TWO_63
    requires free >= 0 && polls != [] && polls[0] == Polled(false, Some(status))
    requires status.phase == CREATED && status.actualSize >= 0
    ensures FitsFreeSpace(bindingMode, lvmType, AlignToLvg(required, lvg), free)
    ensures Await(polls, AlignToLvg(required, lvg)) == Some(status)
  {
    OverflowAlignsToNothing(required, SafeExtentSize(lvg.extentSize));
  }
}
