/**
  The picture a sweep publishes accounts for every volume exactly once.
  */
module SweepPicture {
  import opened Wrappers
  import opened ApiServer
  import opened FinalizerRemoval
  import opened Sweep

  // ---------------------------------------------------------------------- sums

  ghost function Total<K>(m: map<K, int>): int
    decreases |m|
  {
    if m == map[] then 0
    else
      var k :| k in m;
      m[k] + Total(m - {k})
  }

  lemma {:induction false} TotalSplit<K>(m: map<K, int>, k: K)
    requires k in m
    ensures Total(m) == m[k] + Total(m - {k})
    decreases |m|
  {
    var c :| c in m && Total(m) == m[c] + Total(m - {c});
    if c != k {
      TotalSplit(m - {c}, k);
      TotalSplit(m - {k}, c);
      assert m - {c} - {k} == m - {k} - {c};
    }
  }

  lemma TotalBump<K>(m: map<K, int>, k: K, amount: int)
    ensures Total(Bump(m, k, amount)) == Total(m) + amount
  {
    var m' := Bump(m, k, amount);
    TotalSplit(m', k);
    assert m' - {k} == m - {k};
    if k in m {
      TotalSplit(m, k);
    } else {
      assert m - {k} == m;
    }
  }

  /** The size the object's status reports; nothing before it has one. */
  function Size(o: Object): int {
    match o.status case Some(status) => status.size case None => 0
  }

  /** How the picture words a phase or a type: as it stands, or Unknown while it is missing. */
  predicate Worded(given: Option<string>, word: string) {
    match given
    case Some(text) => if text == "" then word == "Unknown" else word == text
    case None => word == "Unknown"
  }

  predicate HasPhase(o: Object, phase: string) {
    Worded(match o.status case Some(status) => Some(status.phase) case None => None, phase)
  }

  predicate HasType(o: Object, lvmType: string) {
    Worded(Some(o.spec.lvmType), lvmType)
  }

  function SumBytes(items: seq<Item>): int {
    if items == [] then 0 else SumBytes(items[..|items| - 1]) + Size(items[|items| - 1].obj)
  }

  // ------------------------------------------------------------------ three classes

  datatype Class = Unowned | Referenced | Orphaned

  function Classify(referenced: map<string, PvReference>, item: Item): Class {
    if Csi !in item.obj.finalizers then Unowned
    else if item.name in referenced then Referenced
    else Orphaned
  }

  function Members(referenced: map<string, PvReference>, sought: Class, items: seq<Item>): seq<Item> {
    if items == [] then []
    else
      var rest := Members(referenced, sought, items[..|items| - 1]);
      var last := items[|items| - 1];
      if Classify(referenced, last) == sought then rest + [last] else rest
  }

  /** An orphan's line: about this item, with a reason exactly when a reclaim is refused,
      and reported as merely present exactly when nobody asked to delete it. */
  ghost predicate Reports(item: Item, o: Orphan) {
    && o.name == item.name && o.group == item.obj.spec.group && HasType(item.obj, o.lvmType) && o.bytes == Size(item.obj)
    && (o.reason != NoReason <==> o.state == Blocked)
    && (o.state in {Active, Retained} <==> item.obj.deletedAt.None?)
    && (o.state == Retained ==> item.obj.spec.retain == Some("true"))
    && (o.state == Active ==> item.obj.spec.retain != Some("true"))
  }

  function CountKind(items: seq<Item>): nat {
    if items == [] then 0
    else
      var o := items[|items| - 1].obj;
      CountKind(items[..|items| - 1]) + (if Csi !in o.finalizers && AwaitsAgent(o) then 1 else 0)
  }

  function At(m: map<Kind, int>, k: Kind): int {
    if k in m then m[k] else 0
  }

  /** How the picture relates to the volumes looked at so far, starting from `before`. */
  ghost predicate Accounts(referenced: map<string, PvReference>, before: Picture, items: seq<Item>, after: Picture) {
    var orphans := Members(referenced, Orphaned, items);
    && Total(after.countBy) == Total(before.countBy) + |items|
    && Total(after.bytesBy) == Total(before.bytesBy) + SumBytes(items)
    && At(after.awaiting, Volume) == At(before.awaiting, Volume) + CountKind(items)
    && At(after.awaiting, Snapshot) == At(before.awaiting, Snapshot)
    && after.orphanedSnapshots == before.orphanedSnapshots
    && |after.orphans| == |before.orphans| + |orphans| && before.orphans <= after.orphans
    && forall i :: 0 <= i < |orphans| ==> Reports(orphans[i], after.orphans[|before.orphans| + i])
  }

  lemma VerdictsAreConsistent(env: Environment, cfg: Config, snapshotted: set<string>, p: Progress, item: Item)
    ensures var v := Reclaim(env, cfg, snapshotted, p, item).verdict;
            && (v.reason != NoReason <==> v.state == Blocked)
            && (v.state in {Active, Retained} <==> item.obj.deletedAt.None?)
            && (v.state == Retained ==> item.obj.spec.retain == Some("true"))
            && (v.state == Active ==> item.obj.spec.retain != Some("true"))
  {
  }

  /** What one volume's step adds to the picture. */
  ghost predicate Records(referenced: map<string, PvReference>, before: Picture, item: Item, after: Picture) {
    var key := PhaseAndType(PhaseOf(item.obj), TypeOf(item.obj));
    && after.countBy == Bump(before.countBy, key, 1)
    && after.bytesBy == Bump(before.bytesBy, key, BytesOf(item.obj))
    && At(after.awaiting, Volume) == At(before.awaiting, Volume) + CountKind([item])
    && At(after.awaiting, Snapshot) == At(before.awaiting, Snapshot)
    && after.orphanedSnapshots == before.orphanedSnapshots
    && (if Classify(referenced, item) == Orphaned then
          |after.orphans| > 0 && before.orphans == after.orphans[..|after.orphans| - 1]
          && Reports(item, after.orphans[|after.orphans| - 1])
        else after.orphans == before.orphans)
  }

  lemma StepRecords(env: Environment, cfg: Config, referenced: map<string, PvReference>, snapshotted: set<string>, s: Pass, item: Item)
    ensures Records(referenced, s.picture, item, VolumeStep(env, cfg, referenced, snapshotted, s, item).picture)
  {
    VerdictsAreConsistent(env, cfg, snapshotted, s.p, item);
    assert CountKind([]) == 0 && [item][..0] == [];
  }

  /** One more volume recorded is one more accounted for. */
  lemma RecordedIsAccounted(referenced: map<string, PvReference>, start: Picture, before: Picture, items: seq<Item>, after: Picture)
    requires items != [] && Accounts(referenced, start, items[..|items| - 1], before)
    requires Records(referenced, before, items[|items| - 1], after)
    ensures Accounts(referenced, start, items, after)
  {
    var last := items[|items| - 1];
    var key := PhaseAndType(PhaseOf(last.obj), TypeOf(last.obj));
    TotalBump(before.countBy, key, 1);
    TotalBump(before.bytesBy, key, BytesOf(last.obj));
    assert CountKind([]) == 0 && [last][..0] == [];
  }

  lemma {:induction false} VolumesAreAccounted(env: Environment, cfg: Config, referenced: map<string, PvReference>,
                                               snapshotted: set<string>, s: Pass, items: seq<Item>)
    ensures Accounts(referenced, s.picture, items, SweepVolumes(env, cfg, referenced, snapshotted, s, items).picture)
  {
    if items != [] {
      var init, last := items[..|items| - 1], items[|items| - 1];
      VolumesAreAccounted(env, cfg, referenced, snapshotted, s, init);
      var before := SweepVolumes(env, cfg, referenced, snapshotted, s, init);
      StepRecords(env, cfg, referenced, snapshotted, before, last);
      RecordedIsAccounted(referenced, s.picture, before.picture, items, VolumeStep(env, cfg, referenced, snapshotted, before, last).picture);
    }
  }

  ghost predicate ReportsSnapshot(item: Item, o: OrphanedSnapshot) {
    && o.name == item.name && o.volume == item.obj.spec.source && o.bytes == Size(item.obj)
    && o.state in {Terminating, Blocked} && (o.reason != NoReason <==> o.state == Blocked)
  }

  function HeldUp(items: seq<Item>): seq<Item> {
    if items == [] then []
    else
      var last := items[|items| - 1];
      HeldUp(items[..|items| - 1]) + (if Csi in last.obj.finalizers && last.obj.deletedAt.Some? then [last] else [])
  }

  ghost predicate AccountsSnapshots(before: Picture, items: seq<Item>, after: Picture) {
    && after.countBy == before.countBy && after.bytesBy == before.bytesBy && after.orphans == before.orphans
    && At(after.awaiting, Snapshot) == At(before.awaiting, Snapshot) + CountKind(items)
    && At(after.awaiting, Volume) == At(before.awaiting, Volume)
    && |after.orphanedSnapshots| == |before.orphanedSnapshots| + |HeldUp(items)|
    && before.orphanedSnapshots <= after.orphanedSnapshots
    && forall i :: 0 <= i < |HeldUp(items)| ==>
         ReportsSnapshot(HeldUp(items)[i], after.orphanedSnapshots[|before.orphanedSnapshots| + i])
  }

  /** What one snapshot's step adds to the picture. */
  ghost predicate RecordsSnapshot(before: Picture, item: Item, after: Picture) {
    && after.countBy == before.countBy && after.bytesBy == before.bytesBy && after.orphans == before.orphans
    && At(after.awaiting, Snapshot) == At(before.awaiting, Snapshot) + CountKind([item])
    && At(after.awaiting, Volume) == At(before.awaiting, Volume)
    && (if Csi in item.obj.finalizers && item.obj.deletedAt.Some? then
          |after.orphanedSnapshots| > 0 && before.orphanedSnapshots == after.orphanedSnapshots[..|after.orphanedSnapshots| - 1]
          && ReportsSnapshot(item, after.orphanedSnapshots[|after.orphanedSnapshots| - 1])
        else after.orphanedSnapshots == before.orphanedSnapshots)
  }

  lemma StepRecordsSnapshot(env: Environment, cfg: Config, s: Pass, item: Item)
    ensures RecordsSnapshot(s.picture, item, SnapshotStep(env, cfg, s, item).picture)
  {
    assert CountKind([]) == 0 && [item][..0] == [];
  }

  lemma RecordedSnapshotIsAccounted(start: Picture, before: Picture, items: seq<Item>, after: Picture)
    requires items != [] && AccountsSnapshots(start, items[..|items| - 1], before)
    requires RecordsSnapshot(before, items[|items| - 1], after)
    ensures AccountsSnapshots(start, items, after)
  {
    assert CountKind([]) == 0 && [items[|items| - 1]][..0] == [];
  }

  lemma {:induction false} SnapshotsAreAccounted(env: Environment, cfg: Config, s: Pass, items: seq<Item>)
    ensures AccountsSnapshots(s.picture, items, SweepSnapshots(env, cfg, s, items).picture)
  {
    if items != [] {
      var init, last := items[..|items| - 1], items[|items| - 1];
      SnapshotsAreAccounted(env, cfg, s, init);
      var before := SweepSnapshots(env, cfg, s, init);
      StepRecordsSnapshot(env, cfg, before, last);
      RecordedSnapshotIsAccounted(s.picture, before.picture, items, SnapshotStep(env, cfg, before, last).picture);
    }
  }

  // ------------------------------------------------------------ per phase and type

  predicate Has(item: Item, key: PhaseAndType) {
    HasPhase(item.obj, key.phase) && HasType(item.obj, key.lvmType)
  }

  /** How many of the volumes have this phase and type, and their bytes. */
  function CountOf(items: seq<Item>, key: PhaseAndType): nat {
    if items == [] then 0
    else CountOf(items[..|items| - 1], key) + if Has(items[|items| - 1], key) then 1 else 0
  }

  function BytesIn(items: seq<Item>, key: PhaseAndType): int {
    if items == [] then 0
    else BytesIn(items[..|items| - 1], key) + if Has(items[|items| - 1], key) then Size(items[|items| - 1].obj) else 0
  }

  function ValueAt(m: map<PhaseAndType, int>, key: PhaseAndType): int {
    if key in m then m[key] else 0
  }

  /** Each phase and type that occurs has a line, with its count and its bytes, and no
      other has. */
  ghost predicate Tallied(before: Picture, items: seq<Item>, after: Picture) {
    forall key :: TalliedAt(before, items, after, key)
  }

  ghost predicate TalliedAt(before: Picture, items: seq<Item>, after: Picture, key: PhaseAndType) {
    && (key in after.countBy <==> key in before.countBy || CountOf(items, key) > 0)
    && (key in after.bytesBy <==> key in before.bytesBy || CountOf(items, key) > 0)
    && ValueAt(after.countBy, key) == ValueAt(before.countBy, key) + CountOf(items, key)
    && ValueAt(after.bytesBy, key) == ValueAt(before.bytesBy, key) + BytesIn(items, key)
  }

  lemma RecordedIsTallied(referenced: map<string, PvReference>, start: Picture, before: Picture, items: seq<Item>, after: Picture)
    requires items != [] && Tallied(start, items[..|items| - 1], before)
    requires Records(referenced, before, items[|items| - 1], after)
    ensures Tallied(start, items, after)
  {
    forall key ensures TalliedAt(start, items, after, key) {
      assert TalliedAt(start, items[..|items| - 1], before, key);
    }
  }

  lemma {:induction false} VolumesAreTallied(env: Environment, cfg: Config, referenced: map<string, PvReference>,
                                             snapshotted: set<string>, s: Pass, items: seq<Item>)
    ensures Tallied(s.picture, items, SweepVolumes(env, cfg, referenced, snapshotted, s, items).picture)
  {
    if items != [] {
      var init, last := items[..|items| - 1], items[|items| - 1];
      VolumesAreTallied(env, cfg, referenced, snapshotted, s, init);
      var before := SweepVolumes(env, cfg, referenced, snapshotted, s, init);
      StepRecords(env, cfg, referenced, snapshotted, before, last);
      RecordedIsTallied(referenced, s.picture, before.picture, items, VolumeStep(env, cfg, referenced, snapshotted, before, last).picture);
    }
  }

  /** The published counts and bytes are, for each phase and type, those of the cached
      volumes of that phase and type, with no line for any other. */
  lemma CountsAreExact(env: Environment, cfg: Config, w: World, lastSweep: Option<int>, cache: Cache, key: PhaseAndType)
    ensures var r := SweepOnce(env, cfg, w, lastSweep, cache);
            r.outcome.Published? ==>
              var picture, volumes := r.outcome.picture, cache.volumes.value;
              && (key in picture.countBy <==> CountOf(volumes, key) > 0) && (key in picture.bytesBy <==> CountOf(volumes, key) > 0)
              && ValueAt(picture.countBy, key) == CountOf(volumes, key) && ValueAt(picture.bytesBy, key) == BytesIn(volumes, key)
  {
    if SweepOnce(env, cfg, w, lastSweep, cache).outcome.Published? {
      SnapshotsAreAccounted(env, cfg, Start(cfg, w), cache.snapshots.value);
      var snapshots := SnapshotHalf(env, cfg, w, cache).(next := 0);
      VolumesAreTallied(env, cfg, References(cache.pvs.value), Sources(cache.snapshots.value), snapshots, cache.volumes.value);
      assert TalliedAt(snapshots.picture, cache.volumes.value, VolumeHalf(env, cfg, w, cache).picture, key);
    }
  }

  /** Counts and bytes sum to the totals over all cached volumes; the orphans are exactly
      the owned, unreferenced volumes, in order; the snapshots reported are exactly the
      ones whose deletion is held up; a reason is given exactly when something is blocked. */
  lemma PictureIsComplete(env: Environment, cfg: Config, w: World, lastSweep: Option<int>, cache: Cache)
    ensures var r := SweepOnce(env, cfg, w, lastSweep, cache);
            r.outcome.Published? ==>
              var picture, volumes, snapshots := r.outcome.picture, cache.volumes.value, cache.snapshots.value;
              var orphans := Members(References(cache.pvs.value), Orphaned, volumes);
              && Total(picture.countBy) == |volumes| && Total(picture.bytesBy) == SumBytes(volumes)
              && |picture.orphans| == |orphans| && (forall i :: 0 <= i < |orphans| ==> Reports(orphans[i], picture.orphans[i]))
              && |picture.orphanedSnapshots| == |HeldUp(snapshots)|
              && (forall i :: 0 <= i < |HeldUp(snapshots)| ==> ReportsSnapshot(HeldUp(snapshots)[i], picture.orphanedSnapshots[i]))
              && At(picture.awaiting, Volume) == CountKind(volumes) && At(picture.awaiting, Snapshot) == CountKind(snapshots)
  {
    if SweepOnce(env, cfg, w, lastSweep, cache).outcome.Published? {
      SnapshotsAreAccounted(env, cfg, Start(cfg, w), cache.snapshots.value);
      VolumesAreAccounted(env, cfg, References(cache.pvs.value), Sources(cache.snapshots.value),
                          SnapshotHalf(env, cfg, w, cache).(next := 0), cache.volumes.value);
    }
  }

  /** Every volume is exactly one of: not the driver's (unowned), the driver's and referred
      to by a PersistentVolume, or the driver's and referred to by none (an orphan). */
  lemma {:induction false} ClassesPartition(pvs: seq<PersistentVolume>, items: seq<Item>)
    ensures var r := References(pvs);
            && |Members(r, Unowned, items)| + |Members(r, Referenced, items)| + |Members(r, Orphaned, items)| == |items|
            && (forall i :: i in Members(r, Unowned, items) <==> i in items && Csi !in i.obj.finalizers)
            && (forall i :: i in Members(r, Referenced, items) <==> i in items && Csi in i.obj.finalizers && ReferredTo(pvs, i.name))
            && (forall i :: i in Members(r, Orphaned, items) <==> i in items && Csi in i.obj.finalizers && !ReferredTo(pvs, i.name))
  {
    if items != [] {
      var init, last := items[..|items| - 1], items[|items| - 1];
      ClassesPartition(pvs, init);
      ReferencesAreExact(pvs, last.name);
      assert forall i :: i in items <==> i in init || i == last by {
        assert items == init + [last];
      }
    }
  }

  ghost predicate ReferredTo(pvs: seq<PersistentVolume>, name: string) {
    exists pv :: pv in pvs && Refers(pv, name)
  }
}
