/**
  Exactly when CreateVolume and ControllerExpandVolume succeed: how long they wait, which
  requests can be planned, and which expansions are refused.
  */
module VolumeOutcomes {
  import opened Wrappers
  import opened Names
  import opened LocalStorage
  import opened StorageClasses
  import opened Validation
  import opened Sizing
  import opened Placement
  import opened Volumes
  import opened ClassPlacement

  // ------------------------------------------------------------------------ waiting

  /** A volume the agent has made, large enough and not on its way out. */
  predicate Enough(p: Poll, aligned: int, s: LlvStatus) {
    p == Polled(false, Some(s)) && s.phase == "Created" && s.actualSize >= aligned
  }

  /** Nothing to decide on yet: it could be read, and has no status, or neither failed nor is
      being deleted nor is made as large as it should be. */
  predicate Undecided(p: Poll, aligned: int) {
    p.Polled?
    && (p.status.Some? ==>
          !p.terminating && p.status.value.phase != "Failed"
          && (p.status.value.phase == "Created" ==> p.status.value.actualSize < aligned))
  }

  ghost predicate EnoughAt(polls: seq<Poll>, aligned: int, s: LlvStatus, k: nat) {
    k < |polls| && Enough(polls[k], aligned, s) && forall i :: 0 <= i < k ==> Undecided(polls[i], aligned)
  }

  /** Some poll shows the volume ready, with nothing to decide on before it. */
  ghost predicate BecomesReady(polls: seq<Poll>, aligned: int, s: LlvStatus) {
    exists k: nat :: EnoughAt(polls, aligned, s, k)
  }

  lemma {:induction false} AwaitsReadiness(polls: seq<Poll>, aligned: int, s: LlvStatus)
    ensures Await(polls, aligned) == Some(s) <==> BecomesReady(polls, aligned, s)
  {
    if polls != [] {
      AwaitsReadiness(polls[1..], aligned, s);
      if Undecided(polls[0], aligned) {
        if BecomesReady(polls[1..], aligned, s) {
          var k: nat :| EnoughAt(polls[1..], aligned, s, k);
          ShiftEnough(polls, aligned, s, k);
        }
        if BecomesReady(polls, aligned, s) {
          var k: nat :| EnoughAt(polls, aligned, s, k);
          assert k > 0;
          ShiftEnough(polls, aligned, s, k - 1);
        }
      } else if Await(polls, aligned) == Some(s) {
        assert EnoughAt(polls, aligned, s, 0);
      }
    }
  }

  lemma ShiftEnough(polls: seq<Poll>, aligned: int, s: LlvStatus, k: nat)
    requires polls != [] && Undecided(polls[0], aligned)
    ensures EnoughAt(polls[1..], aligned, s, k) <==> EnoughAt(polls, aligned, s, k + 1)
  {
    var tail := polls[1..];
    if EnoughAt(tail, aligned, s, k) {
      forall i | 0 <= i < k + 1 ensures Undecided(polls[i], aligned) {
        assert i > 0 ==> polls[i] == tail[i - 1];
      }
    }
    if EnoughAt(polls, aligned, s, k + 1) {
      forall i | 0 <= i < k ensures Undecided(tail[i], aligned) {
        assert tail[i] == polls[i + 1];
      }
    }
  }

  /** A planned volume is reported exactly if it could be created, or was there already, and
      becomes ready; with the size that is then really there, the chosen node and group. A
      volume that does not become ready is deleted again. */
  lemma ProvisionedExactlyIfReady(plan: Plan, reply: CreateReply, polls: seq<Poll>)
    requires plan.Planned?
    ensures var r := Provision(plan, reply, polls);
            && (forall s :: BecomesReady(polls, AlignToLvg(plan.size, plan.lvg), s) && !reply.CreateFailed? ==>
                  r.Provisioned? && r.capacity == s.actualSize && r.node == plan.node && r.lvg == plan.lvg)
            && (r.Provisioned? ==>
                  !reply.CreateFailed? && exists s :: BecomesReady(polls, AlignToLvg(plan.size, plan.lvg), s))
            && (!r.Provisioned? ==> r == Refused(Unknown, !reply.CreateFailed?))
  {
    var aligned := AlignToLvg(plan.size, plan.lvg);
    forall s ensures Await(polls, aligned) == Some(s) <==> BecomesReady(polls, aligned, s) {
      AwaitsReadiness(polls, aligned, s);
    }
  }

  /** What is not planned is not created: the refusal is passed on, and nothing deleted. */
  lemma UnplannedIsRefused(plan: Plan, reply: CreateReply, polls: seq<Poll>)
    requires !plan.Planned?
    ensures Provision(plan, reply, polls) == if plan.Rejected? then Refused(plan.code, false) else Panicked
  {
  }

  // ----------------------------------------------------------------------- expanding

  /** The group has room for what is missing. */
  predicate Room(lvg: VolumeGroup, aligned: int, actual: int) {
    aligned - actual <= lvg.vgSize - lvg.allocatedSize
  }

  /** Expanding a volume that is there succeeds exactly if it is large enough already, or -
      only a thick one needing room in its group - its new size could be stored and the
      agent makes it that large. */
  lemma ExpandedExactlyIfReady(id: string, llv: Llv, lvg: VolumeGroup, required: int, updated: bool, polls: seq<Poll>)
    requires id != "" && llv.status.Some? && IsInt64(lvg.extentSize) && Alignable(required, SafeExtentSize(lvg.extentSize))
    requires IsInt64(llv.status.value.actualSize) && llv.status.value.actualSize >= 0
    ensures var r, aligned, actual := Expand(id, Some(llv), Some(lvg), required, updated, polls), AlignToLvg(required, lvg), llv.status.value.actualSize;
            var fits := llv.lvmType == "Thick" ==> Room(lvg, aligned, actual);
            && (actual >= aligned ==> r == Expanded(actual, llv.specSize))
            && (forall s :: actual < aligned && fits && updated && BecomesReady(polls, aligned, s) ==> r == Expanded(s.actualSize, required))
            && (actual < aligned && r.Expanded? ==> fits && updated && exists s :: BecomesReady(polls, aligned, s))
            && (actual < aligned && !fits ==> r == NotExpanded(Internal, llv.specSize))
  {
    var aligned, actual := AlignToLvg(required, lvg), llv.status.value.actualSize;
    AlignedIsLeastMultiple(required, SafeExtentSize(lvg.extentSize));
    if actual < aligned {
      Unwrapped(aligned - actual);
    }
    forall s ensures Await(polls, aligned) == Some(s) <==> BecomesReady(polls, aligned, s) {
      AwaitsReadiness(polls, aligned, s);
    }
  }

  /** An expansion that cannot even be considered changes nothing: no identifier, no volume
      or group, no status - the last of which panics. */
  lemma ImpossibleExpansionChangesNothing(id: string, llv: Option<Llv>, lvg: Option<VolumeGroup>, required: int, updated: bool, polls: seq<Poll>)
    ensures var r, stored := Expand(id, llv, lvg, required, updated, polls), if llv.Some? then llv.value.specSize else 0;
            && (id == "" ==> r == NotExpanded(InvalidArgument, stored))
            && (id != "" && (llv.None? || lvg.None?) ==> r == NotExpanded(Internal, stored))
            && (r == ExpandPanicked <==> id != "" && llv.Some? && lvg.Some? && llv.value.status.None?)
  {
  }

  // ------------------------------------------------------------------------ planning

  /** A copy may ask for no size of its own, or for one that holds its source. */
  predicate CopyFits(required: int, sourceSize: int, l: VolumeGroup) {
    required == 0 || AlignToLvg(required, l) >= sourceSize
  }

  /** The volume group a source's data is in. */
  ghost predicate HomeOf(lvgs: seq<VolumeGroup>, source: ContentSource, l: VolumeGroup) {
    match source
    case FromSnapshot(Some(Some(s))) => FirstSuch(lvgs, l, (x: VolumeGroup) => x.nodeName == s.nodeName && x.actualVgName == s.actualVgName)
    case FromVolume(Some(v)) => FirstSuch(lvgs, l, (x: VolumeGroup) => x.name == v.lvgName)
    case _ => false
  }

  /** A source data can be copied from. */
  predicate Copyable(source: ContentSource) {
    match source
    case FromSnapshot(Some(Some(s))) => s.phase == "Created"
    case FromVolume(Some(v)) => v.lvmType == "Thin" && v.size.Some?
    case _ => false
  }

  /** A copy is planned exactly if it is thin, its source is complete and in one of the
      groups the class names, and the size asked for - if any - holds the source; too small a
      size, and nothing else, is out of range. */
  lemma CopyPlannedExactly(req: Request, source: ContentSource, lvgs: seq<VolumeGroup>, pools: map<string, string>)
    ensures var plan, able := PlanFromSource(req, source, lvgs, pools), req.lvmType == "Thin" && Copyable(source);
            && (plan.Planned? <==>
                  able && exists l :: HomeOf(lvgs, source, l) && l.name in pools && CopyFits(req.required, SourceSize(source).value, l))
            && (plan == Rejected(OutOfRange) <==>
                  able && exists l :: HomeOf(lvgs, source, l) && l.name in pools && !CopyFits(req.required, SourceSize(source).value, l))
            && (able && (exists l :: HomeOf(lvgs, source, l) && l.name !in pools) ==> plan == Rejected(InvalidArgument))
  {
    match source {
      case FromSnapshot(Some(Some(s))) =>
        forall l { SelectionsAreFirst(lvgs, s.nodeName, s.actualVgName, l); }
        SelectedByActualNameIsIn(lvgs, s.nodeName, s.actualVgName);
        assert forall l :: SelectLvgByActualName(lvgs, s.nodeName, s.actualVgName) == Some(l) <==> HomeOf(lvgs, source, l);
      case FromVolume(Some(v)) =>
        forall l { SelectionsAreFirst(lvgs, "", v.lvgName, l); }
        SelectedByNameIsIn(lvgs, v.lvgName);
        assert forall l :: SelectLvgByName(lvgs, v.lvgName) == Some(l) <==> HomeOf(lvgs, source, l);
      case _ =>
    }
  }

  /** Where an empty volume should go: to the scheduler's choice under late binding. */
  function Wish(req: Request): string {
    if req.bindingMode == "WaitForFirstConsumer" && req.preferred.Some? then req.preferred.value else ""
  }

  /** Without Immediate binding an empty volume is planned exactly if some group of the class
      is on the node wished for, whatever space it has. */
  lemma LatePlannedExactly(req: Request, lvgs: seq<VolumeGroup>, pools: map<string, string>)
    requires req.bindingMode != "Immediate"
    ensures var plan := PlanPlain(req, lvgs, pools);
            && (plan.Planned? <==> exists l :: l in lvgs && HasNode(l, Wish(req)))
            && (plan.Planned? ==> plan.node == Wish(req) && HasNode(plan.lvg, Wish(req)))
            && (!plan.Planned? ==> plan == Rejected(Internal))
  {
    SelectedIsIn(lvgs, Wish(req));
    if l :| l in lvgs && HasNode(l, Wish(req)) {
      var i :| 0 <= i < |lvgs| && lvgs[i] == l;
      SelectIsFirst(lvgs, i, Wish(req));
    }
  }

  /** Picking fails for a thin pool that is not there, and panics for a group that has free
      space and reports no node; so does planning, and in no other case. */
  lemma PickFailsForAReason(req: Request, lvgs: seq<VolumeGroup>, pools: map<string, string>)
    ensures var pick, plan := NodeWithMaxFreeSpace(lvgs, pools, req.lvmType), PlanPlain(req, lvgs, pools);
            && (pick == NoPick ==> exists l :: l in lvgs && FreeSpace(l, pools, req.lvmType).Fail?)
            && (pick == Panic ==> exists l :: l in lvgs && l.nodes == [] && FreeSpace(l, pools, req.lvmType).Ok?
                                              && FreeSpace(l, pools, req.lvmType).value > 0)
            && (plan == Panics <==> req.bindingMode == "Immediate" && pick == Panic)
            && (req.bindingMode == "Immediate" && pick == NoPick ==> plan == Rejected(Internal))
  {
    PickFailure(lvgs, pools, req.lvmType);
  }

  /** With Immediate binding, over a class with no node in two groups and some free space:
      a thin volume always, a thick one exactly if it fits the group with the most. */
  lemma ImmediatePlannedExactly(req: Request, lvgs: seq<VolumeGroup>, pools: map<string, string>)
    requires req.bindingMode == "Immediate" && OneEach(lvgs)
    requires NodeWithMaxFreeSpace(lvgs, pools, req.lvmType).Picked? && NodeWithMaxFreeSpace(lvgs, pools, req.lvmType).free > 0
    ensures exists l :: l in lvgs && FreeSpace(l, pools, req.lvmType) == Ok(NodeWithMaxFreeSpace(lvgs, pools, req.lvmType).free)
              && (PlanPlain(req, lvgs, pools).Planned? <==> (req.lvmType == "Thick" ==> AlignToLvg(req.required, l) <= l.vgFree))
              && (PlanPlain(req, lvgs, pools).Planned? ==> PlanPlain(req, lvgs, pools).lvg == l)
  {
    SelectedHasMostFree(lvgs, pools, req.lvmType);
    var l := SelectLvg(lvgs, NodeWithMaxFreeSpace(lvgs, pools, req.lvmType).node).value;
    assert l in lvgs;
  }

  predicate WellFormedRequest(req: Request) {
    req.typeIsLvm && req.name != "" && req.capable && !req.classTargets.Missing?
  }

  /** What each refusal says about the request, its source or the cluster. */
  predicate Explains(code: Code, req: Request, listed: Option<seq<VolumeGroup>>, cleanupEnabled: bool) {
    match code
    case InvalidArgument =>
      !WellFormedRequest(req) || (req.source.Some? && (req.lvmType != "Thin" || NotThin(req.source.value)))
    case NotFound => req.source.Some? && Absent(req.source.value)
    case FailedPrecondition => req.source.Some? && req.source.value.FromSnapshot? && req.source.value.snapshot.Some?
    case OutOfRange => req.source.Some? && Copyable(req.source.value) && req.required != 0
    case Internal => req.classTargets.Unparsable? || listed.None? || req.source.None? || req.source.value.FromVolume?
    case Unknown => !cleanupEnabled && req.cleanup != ""
  }

  predicate NotThin(source: ContentSource) {
    source.FromVolume? && source.volume.Some? && source.volume.value.lvmType != "Thin"
  }

  predicate Absent(source: ContentSource) {
    source == FromSnapshot(None) || source == FromVolume(None)
  }

  /** Nothing is planned for a malformed request, and every refusal is for a reason of its kind. */
  lemma RefusalsExplain(req: Request, listed: Option<seq<VolumeGroup>>, cleanupEnabled: bool)
    ensures var plan := PlanVolume(req, listed, cleanupEnabled);
            && (plan.Planned? ==> WellFormedRequest(req) && req.classTargets.Parsed? && listed.Some? && (cleanupEnabled || req.cleanup == ""))
            && (plan.Rejected? ==> Explains(plan.code, req, listed, cleanupEnabled))
  {
    if req.classTargets.Parsed? && listed.Some? {
      var pools := PoolsOf(req.classTargets.targets);
      var lvgs := ClassLvgs(listed.value, pools.Keys);
      ClassLvgsAreNamed(listed.value, pools.Keys);
      if req.source.Some? {
        CopyPlannedExactly(req, req.source.value, lvgs, pools);
        match req.source.value {
          case FromSnapshot(Some(Some(s))) => SelectedByActualNameIsIn(lvgs, s.nodeName, s.actualVgName);
          case FromVolume(Some(v)) => SelectedByNameIsIn(lvgs, v.lvgName);
          case _ =>
        }
      }
    }
  }

  /** A well-formed request is planned as its kind is, over the listed groups the class names;
      only where that succeeds can the edition still forbid its cleanup. */
  lemma WellFormedIsPlannedAsItsKind(req: Request, listed: Option<seq<VolumeGroup>>, cleanupEnabled: bool)
    requires WellFormedRequest(req) && req.classTargets.Parsed? && listed.Some?
    ensures var pools := PoolsOf(req.classTargets.targets);
            var lvgs := ClassLvgs(listed.value, pools.Keys);
            var plan := if req.source.Some? then PlanFromSource(req, req.source.value, lvgs, pools) else PlanPlain(req, lvgs, pools);
            && (forall l :: l in lvgs <==> l in listed.value && exists t :: t in req.classTargets.targets && t.name == l.name)
            && (!plan.Planned? || cleanupEnabled || req.cleanup == "" ==> PlanVolume(req, listed, cleanupEnabled) == plan)
            && (plan.Planned? && !cleanupEnabled && req.cleanup != "" ==> PlanVolume(req, listed, cleanupEnabled) == Rejected(Unknown))
  {
    ClassLvgsAreNamed(listed.value, PoolsOf(req.classTargets.targets).Keys);
    PoolsAreNamed(req.classTargets.targets);
  }
}
