/**
  The garbage collector itself: the loops and the mutable state, proved to do exactly
  what the functions of module Sweep say.
  */
module Collector {
  import opened Wrappers
  import opened ApiServer
  import opened FinalizerRemoval
  import opened Sweep
  import opened Monitoring
  import SweepInputs
  import SweepProgress

  class ReclaimBudget {
    var remaining: int
    var deferred: nat
    var exhausted: bool

    function Value(): Budget
      reads this
    {
      Budget(remaining, deferred, exhausted)
    }

    constructor (maxReclaims: int)
      ensures Value() == Budget(maxReclaims, 0, false)
    {
      remaining, deferred, exhausted := maxReclaims, 0, false;
    }

    method Spend() returns (ok: bool)
      modifies this
      ensures ok <==> old(remaining) > 0
      ensures ok ==> Value() == old(Value()).(remaining := old(remaining) - 1)
      ensures !ok ==> Value() == old(Value()).(deferred := old(deferred) + 1, exhausted := true)
    {
      if remaining <= 0 {
        exhausted := true;
        deferred := deferred + 1;
        return false;
      }
      remaining := remaining - 1;
      return true;
    }
  }

  /** A PersistentVolume on its way into the informer cache, edited in place. */
  class CachedPersistentVolume {
    var pv: PersistentVolume

    constructor (pv: PersistentVolume)
      ensures this.pv == pv
    {
      this.pv := pv;
    }

    method Strip()
      modifies this
      ensures pv == SweepInputs.Stripped(old(pv))
    {
      if pv.csi.Some? {
        pv := pv.(csi := Some(CsiSource(pv.csi.value.driver, pv.csi.value.handle, "")));
      }
      pv := pv.(otherSpec := "");
      pv := pv.(annotations := map[]);
      pv := pv.(labels := map[]);
    }
  }

  method ReferencingPersistentVolumes(pvs: seq<PersistentVolume>) returns (referenced: map<string, PvReference>)
    ensures referenced == References(pvs)
  {
    referenced := map[];
    for i := 0 to |pvs|
      invariant referenced == References(pvs[..i])
    {
      var pv := pvs[i];
      assert pvs[..i + 1][..i] == pvs[..i];
      var ref := PvReference(pv.name, "");
      if pv.csi.Some? {
        ref := ref.(driver := pv.csi.value.driver);
      }
      referenced := Keep(referenced, pv.name, ref);
      if pv.csi.Some? && pv.csi.value.driver == PROVISIONER && pv.csi.value.handle != "" {
        referenced := Keep(referenced, pv.csi.value.handle, ref);
      }
    }
    assert pvs[..|pvs|] == pvs;
  }

  method SnapshotContentHandles(contents: Option<seq<Content>>) returns (handles: set<string>)
    ensures handles == ContentHandles(contents)
  {
    handles := {};
    if contents.None? {
      return;
    }
    for i := 0 to |contents.value|
      invariant handles == Handles(contents.value[..i])
    {
      var content := contents.value[i];
      assert contents.value[..i + 1][..i] == contents.value[..i];
      if content.driver != PROVISIONER {
        continue;
      }
      if content.statusHandle.Some? && content.statusHandle.value != "" {
        handles := handles + {content.statusHandle.value};
      }
      if content.sourceHandle.Some? && content.sourceHandle.value != "" {
        handles := handles + {content.sourceHandle.value};
      }
    }
    assert contents.value[..|contents.value|] == contents.value;
  }

  method SnapshottedVolumeNames(snapshots: seq<Item>) returns (snapshotted: set<string>)
    ensures snapshotted == Sources(snapshots)
  {
    snapshotted := {};
    for i := 0 to |snapshots|
      invariant snapshotted == Sources(snapshots[..i])
    {
      assert snapshots[..i + 1][..i] == snapshots[..i];
      var name := snapshots[i].obj.spec.source;
      if name != "" {
        snapshotted := snapshotted + {name};
      }
    }
    assert snapshots[..|snapshots|] == snapshots;
  }

  /** The items of an uncached list, in whatever order the API server returns them. */
  method Enumerate(objects: map<Key, Object>) returns (items: seq<Item>)
    ensures SweepProgress.Mirrors(items, Snapshot, objects)
  {
    items := [];
    var todo := set k | k in objects && k.kind.Snapshot?;
    while todo != {}
      invariant todo <= objects.Keys && forall k :: k in todo ==> k.kind.Snapshot?
      invariant forall i, j :: 0 <= i < j < |items| ==> items[i].name != items[j].name
      invariant forall i :: 0 <= i < |items| ==>
                  var k := Key(Snapshot, items[i].name); k in objects && k !in todo && objects[k] == items[i].obj
      invariant forall k :: k in objects && k.kind.Snapshot? && k !in todo ==> exists i :: 0 <= i < |items| && items[i].name == k.name
      decreases |todo|
    {
      var key :| key in todo;
      ghost var before := items;
      items := items + [Item(key.name, objects[key])];
      todo := todo - {key};
      forall k | k in objects && k.kind.Snapshot? && k !in todo ensures exists i :: 0 <= i < |items| && items[i].name == k.name {
        if k == key {
          assert items[|items| - 1].name == k.name;
        } else {
          var i :| 0 <= i < |before| && before[i].name == k.name;
          assert items[i].name == k.name;
        }
      }
    }
  }

  class LiveConfirmation {
    const g: GarbageCollector
    var readAt: Option<int>
    var referenced: map<string, PvReference>
    var snapshotted: set<string>
    var snapshotContents: set<string>

    function Value(): Live
      reads this
    {
      Live(readAt, referenced, snapshotted, snapshotContents)
    }

    constructor (g: GarbageCollector)
      ensures this.g == g && Value() == NEVER_READ
    {
      this.g := g;
      readAt, referenced, snapshotted, snapshotContents := None, map[], {}, {};
    }

    method Load() returns (ok: bool)
      modifies this, g`w
      ensures Loaded(g.w, Value(), ok) == Sweep.Load(g.env, old(g.w), old(Value()))
    {
      if readAt.Some? && g.w.now - readAt.value < LIVE_CONFIRMATION_MAX_AGE {
        return true;
      }
      var pvs := ListPvs(g.env, g.w);
      g.w := pvs.w;
      if !pvs.ok {
        return false;
      }
      var refs := ReferencingPersistentVolumes(g.w.pvs);
      var snapshots := ListSnapshots(g.env, g.w);
      g.w := snapshots.w;
      if !snapshots.ok {
        return false;
      }
      var items := Enumerate(g.w.objects);
      SweepProgress.MirroredSources(items, g.w.objects);
      var contents := ListContents(g.env, g.w);
      g.w := contents.w;
      if !contents.ok {
        return false;
      }
      referenced := refs;
      snapshotted := SnapshottedVolumeNames(items);
      snapshotContents := SnapshotContentHandles(g.w.contents);
      readAt := Some(g.w.now);
      return true;
    }
  }

  class GarbageCollector {
    const env: Environment
    const cfg: Config
    const metrics: Recorder
    var w: World
    var lastSweep: Option<int>

    constructor (env: Environment, cfg: Config, metrics: Recorder, w: World)
      ensures this.env == env && this.cfg == cfg && this.metrics == metrics && this.w == w && lastSweep == None
    {
      this.env, this.cfg, this.metrics, this.w, lastSweep := env, cfg, metrics, w, None;
    }

    method RemoveCsiFinalizer(key: Key, uid: nat) returns (outcome: Outcome)
      modifies this`w
      ensures Removal(w, outcome) == Remove(env, old(w), key, uid, ATTEMPTS)
    {
      var left := ATTEMPTS;
      while true
        invariant left > 0
        invariant Remove(env, w, key, uid, left) == Remove(env, old(w), key, uid, ATTEMPTS)
        decreases left
      {
        var retriable;
        outcome, retriable := RemoveOnce(key, uid);
        if !retriable || left == 1 {
          return;
        }
        left := left - 1;
      }
    }

    /** One attempt; Failed may be worth another one. */
    method RemoveOnce(key: Key, uid: nat) returns (outcome: Outcome, retriable: bool)
      modifies this`w
      ensures retriable ==> outcome == Failed
      ensures forall left: nat :: left > 0 ==>
                Remove(env, old(w), key, uid, left)
                == if retriable && left > 1 then Remove(env, w, key, uid, left - 1) else Removal(w, outcome)
    {
      var got := Get(env, w, key);
      w := got.w;
      match got.reply {
        case NotFound => return Noop, false;
        case GetFailed(r) => return Failed, r;
        case Found(live) =>
          if live.uid != uid {
            return Successor, false;
          }
          if live.deletedAt.None? {
            return Failed, false;
          }
          if Csi !in live.finalizers {
            return Noop, false;
          }
          if Agent !in live.finalizers {
            return AgentAbsent, false;
          }
          var patched := Patch(env, w, key, live, Without(live.finalizers, Csi));
          w := patched.w;
          if patched.reply.PatchFailed? {
            return Failed, patched.reply.retriable;
          }
          return Removed, false;
      }
    }

    /** Budget, confirmation and write, shared by both kinds. */
    method Attempt(key: Key, uid: nat, live: LiveConfirmation, budget: ReclaimBudget) returns (verdict: Verdict)
      requires live.g == this
      modifies this`w, live, budget
      ensures Attempted(Progress(w, live.Value(), budget.Value()), verdict)
              == Sweep.Attempt(env, Progress(old(w), old(live.Value()), old(budget.Value())), key, uid)
    {
      var mayWrite := budget.Spend();
      if !mayWrite {
        return Verdict(Terminating, NoReason, RECLAIM_BACKLOG_REQUEUE);
      }
      var loaded := live.Load();
      if !loaded {
        return Verdict(Blocked, ApiError, 0);
      }
      if key.kind.Volume? && key.name in live.referenced {
        return Verdict(Blocked, PersistentVolumeExists, 0);
      }
      if key.kind.Volume? && key.name in live.snapshotted {
        return Verdict(Blocked, SnapshotsPresent, 0);
      }
      if key.kind.Snapshot? && key.name in live.snapshotContents {
        return Verdict(Blocked, VolumeSnapshotContentExists, 0);
      }
      w := Note(w, Releasing(key, w.now));
      var outcome := RemoveCsiFinalizer(key, uid);
      var expired := env(w.calls).expired;
      match outcome {
        case AgentAbsent => return Verdict(Blocked, AgentFinalizerAbsent, 0);
        case Successor => return Verdict(Blocked, SuccessorInPlace, 0);
        case Failed =>
          if expired {
            return Verdict(Terminating, NoReason, 0);
          }
          return Verdict(Blocked, RemovalFailed, 0);
        case Removed => return Verdict(Terminating, NoReason, 0);
        case Noop => return Verdict(Terminating, NoReason, 0);
      }
    }

    method Reclaim(item: Item, snapshotted: set<string>, live: LiveConfirmation, budget: ReclaimBudget) returns (verdict: Verdict)
      requires live.g == this
      modifies this`w, live, budget
      ensures Attempted(Progress(w, live.Value(), budget.Value()), verdict)
              == Sweep.Reclaim(env, cfg, snapshotted, Progress(old(w), old(live.Value()), old(budget.Value())), item)
    {
      var o := item.obj;
      if o.deletedAt.None? {
        if SweepInputs.RetainAcknowledged(o) {
          return Verdict(Retained, NoReason, 0);
        }
        return Verdict(Active, NoReason, 0);
      }
      if item.name in snapshotted {
        return Verdict(Blocked, SnapshotsPresent, 0);
      }
      if Agent !in o.finalizers {
        return Verdict(Blocked, AgentFinalizerAbsent, 0);
      }
      var waited := w.now - o.deletedAt.value;
      if waited < cfg.gracePeriod {
        return Verdict(Terminating, NoReason, cfg.gracePeriod - waited);
      }
      verdict := Attempt(Key(Volume, item.name), o.uid, live, budget);
    }

    method ReclaimSnapshot(item: Item, live: LiveConfirmation, budget: ReclaimBudget) returns (verdict: Verdict)
      requires live.g == this && item.obj.deletedAt.Some?
      modifies this`w, live, budget
      ensures Attempted(Progress(w, live.Value(), budget.Value()), verdict)
              == Sweep.ReclaimSnapshot(env, cfg, Progress(old(w), old(live.Value()), old(budget.Value())), item)
    {
      var o := item.obj;
      if Agent !in o.finalizers {
        return Verdict(Blocked, AgentFinalizerAbsent, 0);
      }
      var waited := w.now - o.deletedAt.value;
      if waited < cfg.gracePeriod {
        return Verdict(Terminating, NoReason, cfg.gracePeriod - waited);
      }
      verdict := Attempt(Key(Snapshot, item.name), o.uid, live, budget);
    }

    method SweepSnapshots(items: seq<Item>, live: LiveConfirmation, budget: ReclaimBudget, picture: Picture)
      returns (result: Picture, next: int)
      requires live.g == this
      modifies this`w, live, budget
      ensures Pass(Progress(w, live.Value(), budget.Value()), result, next)
              == Sweep.SweepSnapshots(env, cfg, Pass(Progress(old(w), old(live.Value()), old(budget.Value())), picture, 0), items)
    {
      ghost var start := Pass(Progress(w, live.Value(), budget.Value()), picture, 0);
      result, next := picture, 0;
      for i := 0 to |items|
        invariant Pass(Progress(w, live.Value(), budget.Value()), result, next)
                  == Sweep.SweepSnapshots(env, cfg, start, items[..i])
      {
        assert items[..i + 1][..i] == items[..i];
        var item := items[i];
        if Csi !in item.obj.finalizers {
          if item.obj.deletedAt.Some? && Agent in item.obj.finalizers {
            result := result.(awaiting := Bump(result.awaiting, Snapshot, 1));
          }
          continue;
        }
        if item.obj.deletedAt.None? {
          continue;
        }
        var verdict := ReclaimSnapshot(item, live, budget);
        next := Soonest(next, verdict.requeueAfter);
        var orphan := OrphanedSnapshot(item.name, item.obj.spec.source, verdict.state, verdict.reason, BytesOf(item.obj));
        result := result.(orphanedSnapshots := result.orphanedSnapshots + [orphan]);
      }
      assert items[..|items|] == items;
    }

    method SweepVolumes(items: seq<Item>, snapshots: seq<Item>, referenced: map<string, PvReference>,
                        live: LiveConfirmation, budget: ReclaimBudget, picture: Picture)
      returns (result: Picture, next: int)
      requires live.g == this
      modifies this`w, live, budget
      ensures Pass(Progress(w, live.Value(), budget.Value()), result, next)
              == Sweep.SweepVolumes(env, cfg, referenced, Sources(snapshots),
                                    Pass(Progress(old(w), old(live.Value()), old(budget.Value())), picture, 0), items)
    {
      ghost var start := Pass(Progress(w, live.Value(), budget.Value()), picture, 0);
      var snapshotted := SnapshottedVolumeNames(snapshots);
      result, next := picture, 0;
      for i := 0 to |items|
        invariant Pass(Progress(w, live.Value(), budget.Value()), result, next)
                  == Sweep.SweepVolumes(env, cfg, referenced, snapshotted, start, items[..i])
      {
        assert items[..i + 1][..i] == items[..i];
        var item := items[i];
        var key := PhaseAndType(PhaseOf(item.obj), TypeOf(item.obj));
        result := result.(countBy := Bump(result.countBy, key, 1));
        result := result.(bytesBy := Bump(result.bytesBy, key, BytesOf(item.obj)));
        if Csi !in item.obj.finalizers {
          if item.obj.deletedAt.Some? && Agent in item.obj.finalizers {
            result := result.(awaiting := Bump(result.awaiting, Volume, 1));
          }
          continue;
        }
        if item.name in referenced {
          continue;
        }
        var verdict := Reclaim(item, snapshotted, live, budget);
        next := Soonest(next, verdict.requeueAfter);
        var orphan := Orphan(item.name, item.obj.spec.group, TypeOf(item.obj), verdict.state, verdict.reason, BytesOf(item.obj));
        result := result.(orphans := result.orphans + [orphan]);
      }
      assert items[..|items|] == items;
    }

    /** One pass. What it publishes is what the metrics export afterwards. */
    method RunSweep(cache: Cache) returns (outcome: SweepOutcome)
      modifies this, metrics
      ensures Swept(w, lastSweep, outcome) == SweepOnce(env, cfg, old(w), old(lastSweep), cache)
      ensures if outcome.Published? then Exports(metrics.sweep, outcome.picture) else metrics.sweep == old(metrics.sweep)
    {
      if lastSweep.Some? {
        var since := w.now - lastSweep.value;
        if since < cfg.minInterval {
          return Throttled(cfg.minInterval - since);
        }
      }
      if cache.volumes.None? || cache.snapshots.None? || cache.pvs.None? {
        return ListFailed;
      }
      var referenced := ReferencingPersistentVolumes(cache.pvs.value);
      var live := new LiveConfirmation(this);
      var budget := new ReclaimBudget(cfg.maxReclaims);
      var picture, snapshotsNext := SweepSnapshots(cache.snapshots.value, live, budget, EMPTY);
      var volumesNext;
      picture, volumesNext := SweepVolumes(cache.volumes.value, cache.snapshots.value, referenced, live, budget, picture);
      metrics.SetLVMLogicalVolumeSweep(picture);
      lastSweep := Some(w.now);
      var next := Soonest(volumesNext, snapshotsNext);
      if budget.exhausted {
        next := Soonest(next, RECLAIM_BACKLOG_REQUEUE);
      }
      return Published(picture, next, budget.Value());
    }
  }
}
