/**
  What the watches and the informer cache throw away cannot change what a sweep does.
  */
module SweepInputs {
  import opened Wrappers
  import opened ApiServer
  import opened Sweep

  predicate RetainAcknowledged(o: Object) {
    o.spec.retain == Some("true")
  }

  /** Whether an update of a volume wakes the collector. */
  predicate VolumeInputChanged(before: Object, after: Object) {
    || before.deletedAt.None? != after.deletedAt.None?
    || before.finalizers != after.finalizers
    || RetainAcknowledged(before) != RetainAcknowledged(after)
    || before.spec.group != after.spec.group || before.spec.lvmType != after.spec.lvmType
    || PhaseOf(before) != PhaseOf(after) || BytesOf(before) != BytesOf(after)
  }

  predicate SnapshotInputChanged(before: Object, after: Object) {
    || before.deletedAt.None? != after.deletedAt.None?
    || before.finalizers != after.finalizers
    || before.spec.source != after.spec.source || BytesOf(before) != BytesOf(after)
  }

  /** The same name at every position, and at each the same object - whose deletion time,
      once set, stays - that the predicate calls unchanged. */
  ghost predicate UnchangedList(kind: Kind, items: seq<Item>, items': seq<Item>) {
    && |items| == |items'|
    && forall i :: 0 <= i < |items| ==> UnchangedItem(kind, items[i], items'[i])
  }

  ghost predicate UnchangedItem(kind: Kind, before: Item, after: Item) {
    && before.name == after.name && before.obj.uid == after.obj.uid
    && (before.obj.deletedAt.Some? && after.obj.deletedAt.Some? ==> before.obj.deletedAt == after.obj.deletedAt)
    && (if kind.Volume? then !VolumeInputChanged(before.obj, after.obj) else !SnapshotInputChanged(before.obj, after.obj))
  }

  /** What the informer keeps of a PersistentVolume. */
  function Stripped(pv: PersistentVolume): PersistentVolume {
    PersistentVolume(pv.name, pv.terminating, pv.finalizers,
                     if pv.csi.Some? then Some(CsiSource(pv.csi.value.driver, pv.csi.value.handle, "")) else None,
                     "", map[], map[])
  }

  function StrippedAll(pvs: seq<PersistentVolume>): (r: seq<PersistentVolume>)
    ensures |r| == |pvs| && forall i :: 0 <= i < |pvs| ==> r[i] == Stripped(pvs[i])
  {
    seq(|pvs|, i requires 0 <= i < |pvs| => Stripped(pvs[i]))
  }

  lemma StrippingIsIdempotent(pv: PersistentVolume)
    ensures Stripped(Stripped(pv)) == Stripped(pv)
  {
  }

  /** Stripping keeps the whole reference map, referrer and driver included. */
  lemma {:induction false} StrippingKeepsReferences(pvs: seq<PersistentVolume>)
    ensures References(StrippedAll(pvs)) == References(pvs)
  {
    if pvs != [] {
      var n := |pvs| - 1;
      StrippingKeepsReferences(pvs[..n]);
      assert StrippedAll(pvs)[..n] == StrippedAll(pvs[..n]);
    }
  }

  lemma {:induction false} UnchangedSources(items: seq<Item>, items': seq<Item>)
    requires UnchangedList(Snapshot, items, items')
    ensures Sources(items) == Sources(items')
  {
    if items != [] {
      var n := |items| - 1;
      assert UnchangedItem(Snapshot, items[n], items'[n]);
      UnchangedSources(items[..n], items'[..n]);
    }
  }

  lemma {:induction false} UnchangedSnapshots(env: Environment, cfg: Config, s: Pass, items: seq<Item>, items': seq<Item>)
    requires UnchangedList(Snapshot, items, items')
    ensures SweepSnapshots(env, cfg, s, items) == SweepSnapshots(env, cfg, s, items')
  {
    if items != [] {
      var n := |items| - 1;
      assert UnchangedItem(Snapshot, items[n], items'[n]);
      UnchangedSnapshots(env, cfg, s, items[..n], items'[..n]);
    }
  }

  lemma UnchangedReclaim(env: Environment, cfg: Config, snapshotted: set<string>, p: Progress, item: Item, item': Item)
    requires UnchangedItem(Volume, item, item')
    ensures Reclaim(env, cfg, snapshotted, p, item) == Reclaim(env, cfg, snapshotted, p, item')
  {
    assert ScreenVolume(cfg, p.w.now, snapshotted, item) == ScreenVolume(cfg, p.w.now, snapshotted, item');
  }

  lemma UnchangedVolumeStep(env: Environment, cfg: Config, referenced: map<string, PvReference>, snapshotted: set<string>,
                            s: Pass, item: Item, item': Item)
    requires UnchangedItem(Volume, item, item')
    ensures VolumeStep(env, cfg, referenced, snapshotted, s, item) == VolumeStep(env, cfg, referenced, snapshotted, s, item')
  {
    UnchangedReclaim(env, cfg, snapshotted, s.p, item, item');
    assert CountVolume(s.picture, item.obj) == CountVolume(s.picture, item'.obj);
  }

  lemma {:induction false} UnchangedVolumes(env: Environment, cfg: Config, referenced: map<string, PvReference>,
                                            snapshotted: set<string>, s: Pass, items: seq<Item>, items': seq<Item>)
    requires UnchangedList(Volume, items, items')
    ensures SweepVolumes(env, cfg, referenced, snapshotted, s, items) == SweepVolumes(env, cfg, referenced, snapshotted, s, items')
  {
    if items != [] {
      var n := |items| - 1;
      assert UnchangedItem(Volume, items[n], items'[n]);
      UnchangedVolumes(env, cfg, referenced, snapshotted, s, items[..n], items'[..n]);
      UnchangedVolumeStep(env, cfg, referenced, snapshotted,
                          SweepVolumes(env, cfg, referenced, snapshotted, s, items[..n]), items[n], items'[n]);
    }
  }

  /** A sweep over a cache that missed only ignored updates, and whose PersistentVolumes
      were stripped, publishes the same picture and makes the same calls and writes. */
  lemma IgnoredUpdatesChangeNothing(env: Environment, cfg: Config, w: World, lastSweep: Option<int>, cache: Cache, cache': Cache)
    requires cache.volumes.Some? && cache.snapshots.Some? && cache.pvs.Some?
    requires cache'.volumes.Some? && cache'.snapshots.Some?
    requires UnchangedList(Volume, cache.volumes.value, cache'.volumes.value)
    requires UnchangedList(Snapshot, cache.snapshots.value, cache'.snapshots.value)
    requires cache'.pvs == Some(StrippedAll(cache.pvs.value))
    ensures SweepOnce(env, cfg, w, lastSweep, cache') == SweepOnce(env, cfg, w, lastSweep, cache)
  {
    UnchangedSources(cache.snapshots.value, cache'.snapshots.value);
    UnchangedSnapshots(env, cfg, Start(cfg, w), cache.snapshots.value, cache'.snapshots.value);
    StrippingKeepsReferences(cache.pvs.value);
    UnchangedVolumes(env, cfg, References(cache.pvs.value), Sources(cache.snapshots.value),
                     SnapshotHalf(env, cfg, w, cache).(next := 0), cache.volumes.value, cache'.volumes.value);
  }
  /** And nothing else wakes the collector: an update that leaves alone the deletion, the
      finalizers, the status and what a sweep reads of the spec is called unchanged. */
  lemma OnlyInputsWake(before: Object, after: Object)
    requires before.deletedAt == after.deletedAt && before.finalizers == after.finalizers && before.status == after.status
    ensures (&& before.spec.group == after.spec.group && before.spec.lvmType == after.spec.lvmType
             && (before.spec.retain == Some("true") <==> after.spec.retain == Some("true")))
            ==> !VolumeInputChanged(before, after)
    ensures before.spec.source == after.spec.source ==> !SnapshotInputChanged(before, after)
  {
  }
}
