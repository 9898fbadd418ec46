/**
  What a pass says about an orphan and when it asks to come back: which verdict means what,
  that a published reason is true, and that no grace period is slept through.
  */
module SweepVerdicts {
  import opened Wrappers
  import opened ApiServer
  import opened FinalizerRemoval
  import opened RemovalOutcome
  import opened Sweep
  import opened SweepSafety

  // ------------------------------------------------------------------- one attempt

  /** The picture is young enough, or the next three calls, which are the lists, succeed. */
  predicate Confirmable(env: Environment, p: Progress) {
    || Fresh(p.live, p.w.now)
    || (env(p.w.calls).fault.Healthy? && env(p.w.calls + 1).fault.Healthy? && env(p.w.calls + 2).fault.Healthy?)
  }

  /** Something in the picture needs the object. */
  predicate NeededBy(live: Live, key: Key) {
    match key.kind
    case Volume => key.name in live.referenced || key.name in live.snapshotted
    case Snapshot => key.name in live.snapshotContents
  }

  function Announcement(w: World, key: Key): World {
    Note(w, Releasing(key, w.now))
  }

  lemma LoadsExactlyIfConfirmable(env: Environment, p: Progress)
    ensures Load(env, p.w, p.live).ok <==> Confirmable(env, p)
  {
  }

  /** Without budget an object is put off by the backlog delay and nothing is called. */
  lemma PutOffWithoutBudget(env: Environment, p: Progress, key: Key, uid: nat)
    requires p.budget.remaining <= 0
    ensures var a := Attempt(env, p, key, uid);
            && a.verdict == Verdict(Terminating, NoReason, SECOND) && a.p.w == p.w && a.p.live == p.live
            && a.p.budget == Budget(p.budget.remaining, p.budget.deferred + 1, true)
  {
  }

  /** With budget: which reason is given exactly when, and nothing is announced or removed
      unless no reason speaks against it. */
  lemma AttemptExplains(env: Environment, p: Progress, key: Key, uid: nat)
    requires p.budget.remaining > 0
    ensures var a, loaded := Attempt(env, p, key, uid), Load(env, p.w, p.live);
            var v, clear, at := a.verdict, Confirmable(env, p) && !NeededBy(loaded.live, key), Announcement(loaded.w, key);
            && a.p.live == loaded.live && a.p.budget == p.budget.(remaining := p.budget.remaining - 1)
            && v.requeueAfter == 0 && v.state == (if v.reason == NoReason then Terminating else Blocked)
            && (v.reason == ApiError <==> !Confirmable(env, p))
            && (v.reason == PersistentVolumeExists <==> Confirmable(env, p) && key.kind == Volume && key.name in loaded.live.referenced)
            && (v.reason == SnapshotsPresent <==>
                  Confirmable(env, p) && key.kind == Volume && key.name !in loaded.live.referenced && key.name in loaded.live.snapshotted)
            && (v.reason == VolumeSnapshotContentExists <==>
                  Confirmable(env, p) && key.kind == Snapshot && key.name in loaded.live.snapshotContents)
            && (v.reason == AgentFinalizerAbsent <==> clear && Comes(env, at, key, uid, ATTEMPTS, AgentAbsent))
            && (v.reason == SuccessorInPlace <==> clear && Comes(env, at, key, uid, ATTEMPTS, Successor))
            && (v.reason == RemovalFailed <==> clear && Comes(env, at, key, uid, ATTEMPTS, Failed) && !env(a.p.w.calls).expired)
            && (!clear ==> a.p.w == loaded.w)
  {
    var loaded := Load(env, p.w, p.live);
    LoadsExactlyIfConfirmable(env, p);
    var at := Announcement(loaded.w, key);
    OutcomeIsExact(env, at, key, uid, ATTEMPTS, AgentAbsent);
    OutcomeIsExact(env, at, key, uid, ATTEMPTS, Successor);
    OutcomeIsExact(env, at, key, uid, ATTEMPTS, Failed);
  }

  // --------------------------------------------------------------- without an attempt

  /** Asked to go, with the agent's finalizer on it, and still inside its grace period. */
  predicate Waiting(cfg: Config, o: Object, now: int) {
    o.deletedAt.Some? && Agent in o.finalizers && now - o.deletedAt.value < cfg.gracePeriod
  }

  /** Waiting out the grace period: back when it ends. */
  predicate Waits(cfg: Config, now: int, o: Object, v: Verdict) {
    o.deletedAt.Some? && v.state == Terminating && v.reason == NoReason && now + v.requeueAfter == o.deletedAt.value + cfg.gracePeriod
  }

  /** What costs nothing, volume by volume: nobody asked for the deletion, snapshots are in
      the way, the agent is gone, or the grace period runs. All else is attempted. */
  lemma ReclaimExplains(env: Environment, cfg: Config, snapshotted: set<string>, p: Progress, item: Item)
    ensures var a, o := Reclaim(env, cfg, snapshotted, p, item), item.obj;
            var v, asked := a.verdict, item.obj.deletedAt.Some?;
            && (v.state == Retained <==> !asked && o.spec.retain == Some("true"))
            && (v.state == Active <==> !asked && o.spec.retain != Some("true"))
            && (!asked ==> v.reason == NoReason && v.requeueAfter == 0)
            && (asked && item.name in snapshotted ==> v == Verdict(Blocked, SnapshotsPresent, 0))
            && (asked && item.name !in snapshotted && Agent !in o.finalizers ==> v == Verdict(Blocked, AgentFinalizerAbsent, 0))
            && (item.name !in snapshotted && Waiting(cfg, o, p.w.now) ==> Waits(cfg, p.w.now, o, v))
            && (if asked && item.name !in snapshotted && Agent in o.finalizers && !Waiting(cfg, o, p.w.now)
                then a == Attempt(env, p, Key(Volume, item.name), o.uid) else a.p == p)
  {
  }

  /** The same for snapshots being deleted. */
  lemma ReclaimSnapshotExplains(env: Environment, cfg: Config, p: Progress, item: Item)
    requires item.obj.deletedAt.Some?
    ensures var a, o := ReclaimSnapshot(env, cfg, p, item), item.obj;
            && (Agent !in o.finalizers ==> a.verdict == Verdict(Blocked, AgentFinalizerAbsent, 0))
            && (Waiting(cfg, o, p.w.now) ==> Waits(cfg, p.w.now, o, a.verdict))
            && (if Agent in o.finalizers && !Waiting(cfg, o, p.w.now)
                then a == Attempt(env, p, Key(Snapshot, item.name), o.uid) else a.p == p)
  {
  }

  // ------------------------------------------------------- the published reasons are true

  ghost predicate PvInTheWay(j: seq<Event>, start: nat, name: string, r: nat) {
    start <= r < |j| && j[r].PvsRead? && exists pv :: pv in j[r].pvs && Refers(pv, name)
  }

  ghost predicate SnapshotInTheWay(j: seq<Event>, start: nat, name: string, r: nat) {
    start <= r < |j| && j[r].SnapshotsRead? && name in j[r].sources
  }

  ghost predicate ContentInTheWay(j: seq<Event>, start: nat, name: string, r: nat) {
    start <= r < |j| && j[r].ContentsRead? && j[r].contents.Some? && exists c :: c in j[r].contents.value && Holds(c, name)
  }

  /** What is said to be in the way was seen: in the cached snapshots, or in an uncached list
      read since `start`. */
  ghost predicate Seen(snapshotted: set<string>, j: seq<Event>, start: nat, key: Key, reason: Reason) {
    && (reason == PersistentVolumeExists ==> key.kind == Volume && exists r: nat :: PvInTheWay(j, start, key.name, r))
    && (reason == SnapshotsPresent ==>
          key.kind == Volume && (key.name in snapshotted || exists r: nat :: SnapshotInTheWay(j, start, key.name, r)))
    && (reason == VolumeSnapshotContentExists ==> key.kind == Snapshot && exists r: nat :: ContentInTheWay(j, start, key.name, r))
  }

  lemma SeenStays(snapshotted: set<string>, j: seq<Event>, j': seq<Event>, start: nat, key: Key, reason: Reason)
    requires Seen(snapshotted, j, start, key, reason) && j <= j'
    ensures Seen(snapshotted, j', start, key, reason)
  {
    if reason == PersistentVolumeExists {
      var r: nat :| PvInTheWay(j, start, key.name, r);
      assert PvInTheWay(j', start, key.name, r);
    }
    if reason == SnapshotsPresent && key.name !in snapshotted {
      var r: nat :| SnapshotInTheWay(j, start, key.name, r);
      assert SnapshotInTheWay(j', start, key.name, r);
    }
    if reason == VolumeSnapshotContentExists {
      var r: nat :| ContentInTheWay(j, start, key.name, r);
      assert ContentInTheWay(j', start, key.name, r);
    }
  }

  lemma AttemptSaw(env: Environment, p: Progress, key: Key, uid: nat, start: nat, snapshotted: set<string>)
    requires WellFormed(p.w) && start <= |p.w.journal| && Backed(p.w.journal, start, p.live)
    ensures var a := Attempt(env, p, key, uid);
            p.w.journal <= a.p.w.journal && Seen(snapshotted, a.p.w.journal, start, key, a.verdict.reason)
  {
    var a := Attempt(env, p, key, uid);
    if p.budget.remaining > 0 {
      AttemptExplains(env, p, key, uid);
      var loaded := Load(env, p.w, p.live);
      LoadOnlyReads(env, p.w, p.live);
      LoadIsBacked(env, p.w, p.live, start);
      if Confirmable(env, p) && !NeededBy(loaded.live, key) {
        RemoveIsSafe(env, Announcement(loaded.w, key), key, uid, ATTEMPTS);
      } else if Confirmable(env, p) {
        LoadsExactlyIfConfirmable(env, p);
        PictureShows(loaded.w.journal, start, loaded.live, key, snapshotted, a.verdict.reason);
      }
    }
  }

  /** What a backed picture holds against the object stands in the lists it was built from. */
  lemma PictureShows(j: seq<Event>, start: nat, live: Live, key: Key, snapshotted: set<string>, reason: Reason)
    requires Backed(j, start, live) && live.readAt.Some? && LiveRefusal(live, key) == reason
    ensures Seen(snapshotted, j, start, key, reason)
  {
    var r: nat :| PictureAt(j, start, r, live);
    ReferencesAreExact(j[r].pvs, key.name);
    if reason == PersistentVolumeExists {
      assert PvInTheWay(j, start, key.name, r);
    }
    if reason == SnapshotsPresent {
      assert SnapshotInTheWay(j, start, key.name, r + 1);
    }
    if reason == VolumeSnapshotContentExists {
      HandlesAreExact(j[r + 2].contents.value, key.name);
      assert ContentInTheWay(j, start, key.name, r + 2);
    }
  }

  /** Every listed orphan and orphaned snapshot. */
  ghost predicate AllSeen(cache: Cache, start: nat, s: Pass)
    requires cache.snapshots.Some?
  {
    var snapshotted, j := Sources(cache.snapshots.value), s.p.w.journal;
    && (forall o :: o in s.picture.orphans ==> Seen(snapshotted, j, start, Key(Volume, o.name), o.reason))
    && (forall o :: o in s.picture.orphanedSnapshots ==> Seen(snapshotted, j, start, Key(Snapshot, o.name), o.reason))
  }

  lemma AllSeenStays(cache: Cache, start: nat, s: Pass, s': Pass)
    requires cache.snapshots.Some? && AllSeen(cache, start, s) && s.p.w.journal <= s'.p.w.journal
    requires forall o :: o in s'.picture.orphans && o !in s.picture.orphans ==>
               Seen(Sources(cache.snapshots.value), s'.p.w.journal, start, Key(Volume, o.name), o.reason)
    requires forall o :: o in s'.picture.orphanedSnapshots && o !in s.picture.orphanedSnapshots ==>
               Seen(Sources(cache.snapshots.value), s'.p.w.journal, start, Key(Snapshot, o.name), o.reason)
    ensures AllSeen(cache, start, s')
  {
    var snapshotted := Sources(cache.snapshots.value);
    forall o | o in s'.picture.orphans ensures Seen(snapshotted, s'.p.w.journal, start, Key(Volume, o.name), o.reason) {
      if o in s.picture.orphans {
        SeenStays(snapshotted, s.p.w.journal, s'.p.w.journal, start, Key(Volume, o.name), o.reason);
      }
    }
    forall o | o in s'.picture.orphanedSnapshots ensures Seen(snapshotted, s'.p.w.journal, start, Key(Snapshot, o.name), o.reason) {
      if o in s.picture.orphanedSnapshots {
        SeenStays(snapshotted, s.p.w.journal, s'.p.w.journal, start, Key(Snapshot, o.name), o.reason);
      }
    }
  }

  lemma SnapshotStepSaw(env: Environment, cfg: Config, cache: Cache, start: nat, s: Pass, item: Item)
    requires cache.snapshots.Some? && AllSeen(cache, start, s)
    requires WellFormed(s.p.w) && start <= |s.p.w.journal| && Backed(s.p.w.journal, start, s.p.live)
    ensures AllSeen(cache, start, SnapshotStep(env, cfg, s, item))
  {
    var s', o := SnapshotStep(env, cfg, s, item), item.obj;
    if Csi in o.finalizers && o.deletedAt.Some? {
      AttemptSaw(env, s.p, Key(Snapshot, item.name), o.uid, start, Sources(cache.snapshots.value));
      ReclaimSnapshotExplains(env, cfg, s.p, item);
    }
    AllSeenStays(cache, start, s, s');
  }

  lemma VolumeStepSaw(env: Environment, cfg: Config, cache: Cache, start: nat, s: Pass, item: Item)
    requires cache.snapshots.Some? && cache.pvs.Some? && AllSeen(cache, start, s)
    requires WellFormed(s.p.w) && start <= |s.p.w.journal| && Backed(s.p.w.journal, start, s.p.live)
    ensures AllSeen(cache, start, VolumeStep(env, cfg, References(cache.pvs.value), Sources(cache.snapshots.value), s, item))
  {
    var referenced, snapshotted := References(cache.pvs.value), Sources(cache.snapshots.value);
    var s', o := VolumeStep(env, cfg, referenced, snapshotted, s, item), item.obj;
    if Csi in o.finalizers && item.name !in referenced {
      AttemptSaw(env, s.p, Key(Volume, item.name), o.uid, start, snapshotted);
      ReclaimExplains(env, cfg, snapshotted, s.p, item);
    }
    AllSeenStays(cache, start, s, s');
  }

  lemma {:induction false} SnapshotsSaw(env: Environment, cfg: Config, cache: Cache, w: World, n: nat)
    requires cache.volumes.Some? && cache.snapshots.Some? && cache.pvs.Some? && WellFormed(w) && n <= |cache.snapshots.value|
    ensures AllSeen(cache, |w.journal|, SweepSnapshots(env, cfg, Start(cfg, w), cache.snapshots.value[..n]))
  {
    if n > 0 {
      var items := cache.snapshots.value[..n];
      assert items[..n - 1] == cache.snapshots.value[..n - 1];
      SnapshotsSaw(env, cfg, cache, w, n - 1);
      SnapshotsAreSafe(env, cfg, cache, w, Start(cfg, w), n - 1);
      SnapshotStepSaw(env, cfg, cache, |w.journal|, SweepSnapshots(env, cfg, Start(cfg, w), items[..n - 1]), items[n - 1]);
    }
  }

  lemma {:induction false} VolumesSaw(env: Environment, cfg: Config, cache: Cache, w: World, s: Pass, n: nat)
    requires cache.volumes.Some? && cache.snapshots.Some? && cache.pvs.Some? && WellFormed(w) && n <= |cache.volumes.value|
    requires Safe(cfg, cache, w, s.p) && AllSeen(cache, |w.journal|, s)
    ensures AllSeen(cache, |w.journal|, SweepVolumes(env, cfg, References(cache.pvs.value), Sources(cache.snapshots.value),
                                                     s, cache.volumes.value[..n]))
  {
    if n > 0 {
      var referenced, snapshotted := References(cache.pvs.value), Sources(cache.snapshots.value);
      var items := cache.volumes.value[..n];
      assert items[..n - 1] == cache.volumes.value[..n - 1];
      VolumesSaw(env, cfg, cache, w, s, n - 1);
      VolumesAreSafe(env, cfg, cache, w, s, n - 1);
      VolumeStepSaw(env, cfg, cache, |w.journal|, SweepVolumes(env, cfg, referenced, snapshotted, s, items[..n - 1]), items[n - 1]);
    }
  }

  /** Under any cache and in every environment: where the published picture says that a
      PersistentVolume, a snapshot or a VolumeSnapshotContent is in the way, the pass has seen
      one - in an uncached list it read itself, or among the cached snapshots. */
  lemma ReasonsAreTrue(env: Environment, cfg: Config, w: World, lastSweep: Option<int>, cache: Cache)
    requires WellFormed(w) && SweepOnce(env, cfg, w, lastSweep, cache).outcome.Published?
    ensures var r := SweepOnce(env, cfg, w, lastSweep, cache);
            && cache.snapshots.Some?
            && var snapshotted, picture := Sources(cache.snapshots.value), r.outcome.picture;
               && (forall o :: o in picture.orphans ==> Seen(snapshotted, r.w.journal, |w.journal|, Key(Volume, o.name), o.reason))
               && (forall o :: o in picture.orphanedSnapshots ==>
                     Seen(snapshotted, r.w.journal, |w.journal|, Key(Snapshot, o.name), o.reason))
  {
    var n, m := |cache.snapshots.value|, |cache.volumes.value|;
    assert cache.snapshots.value[..n] == cache.snapshots.value && cache.volumes.value[..m] == cache.volumes.value;
    SnapshotsSaw(env, cfg, cache, w, n);
    SnapshotsAreSafe(env, cfg, cache, w, Start(cfg, w), n);
    VolumesSaw(env, cfg, cache, w, SnapshotHalf(env, cfg, w, cache).(next := 0), m);
  }
  // ------------------------------------------------------------------- coming back

  /** A delay has been asked for, of at most `bound`. */
  predicate Covers(next: int, bound: int) {
    0 < next <= bound
  }

  lemma SoonestCovers(a: int, b: int, bound: int)
    ensures Covers(a, bound) || Covers(b, bound) ==> Covers(Soonest(a, b), bound)
    ensures Soonest(a, b) > 0 ==> a > 0 || b > 0
  {
  }

  lemma ReclaimTakesTime(env: Environment, p: Progress, key: Key, uid: nat)
    requires WellFormed(p.w)
    ensures p.w.now <= Attempt(env, p, key, uid).p.w.now
  {
    var loaded := Load(env, p.w, p.live);
    LoadOnlyReads(env, p.w, p.live);
    RemoveIsSafe(env, Announcement(loaded.w, key), key, uid, ATTEMPTS);
  }

  lemma VolumeStepTakesTime(env: Environment, cfg: Config, referenced: map<string, PvReference>, snapshotted: set<string>, s: Pass, item: Item)
    requires WellFormed(s.p.w)
    ensures s.p.w.now <= VolumeStep(env, cfg, referenced, snapshotted, s, item).p.w.now
  {
    ReclaimExplains(env, cfg, snapshotted, s.p, item);
    ReclaimTakesTime(env, s.p, Key(Volume, item.name), item.obj.uid);
  }

  lemma SnapshotStepTakesTime(env: Environment, cfg: Config, s: Pass, item: Item)
    requires WellFormed(s.p.w)
    ensures s.p.w.now <= SnapshotStep(env, cfg, s, item).p.w.now
  {
    ReclaimTakesTime(env, s.p, Key(Snapshot, item.name), item.obj.uid);
  }

  /** A cached volume the pass leaves alone only because of its grace period, still at `now`. */
  predicate VolumeWaits(cfg: Config, cache: Cache, item: Item, now: int)
    requires cache.snapshots.Some? && cache.pvs.Some?
  {
    && Csi in item.obj.finalizers && Waiting(cfg, item.obj, now)
    && item.name !in References(cache.pvs.value) && item.name !in Sources(cache.snapshots.value)
  }

  predicate SnapshotWaits(cfg: Config, item: Item, now: int) {
    Csi in item.obj.finalizers && Waiting(cfg, item.obj, now)
  }

  /** How long the wait is, seen from `now`. */
  function Left(cfg: Config, item: Item, now: int): int
    requires item.obj.deletedAt.Some?
  {
    item.obj.deletedAt.value + cfg.gracePeriod - now
  }

  /** What the steps before the n-th have made of the world, as far as time goes. */
  lemma VolumesStarted(env: Environment, cfg: Config, cache: Cache, w: World, s: Pass, n: nat)
    requires cache.volumes.Some? && cache.snapshots.Some? && cache.pvs.Some? && WellFormed(w) && Safe(cfg, cache, w, s.p)
    requires n <= |cache.volumes.value|
    ensures var before := SweepVolumes(env, cfg, References(cache.pvs.value), Sources(cache.snapshots.value), s, cache.volumes.value[..n]);
            WellFormed(before.p.w) && w.now <= before.p.w.now
  {
    VolumesAreSafe(env, cfg, cache, w, s, n);
  }

  lemma SnapshotsStarted(env: Environment, cfg: Config, cache: Cache, w: World, n: nat)
    requires cache.volumes.Some? && cache.snapshots.Some? && cache.pvs.Some? && WellFormed(w)
    requires n <= |cache.snapshots.value|
    ensures var before := SweepSnapshots(env, cfg, Start(cfg, w), cache.snapshots.value[..n]);
            WellFormed(before.p.w) && w.now <= before.p.w.now
  {
    SnapshotsAreSafe(env, cfg, cache, w, Start(cfg, w), n);
  }

  /** A step keeps what has been asked for, and asks for itself if its object waits. */
  lemma VolumeStepCovers(env: Environment, cfg: Config, cache: Cache, s: Pass, item: Item, bound: int)
    requires cache.snapshots.Some? && cache.pvs.Some?
    ensures var s' := VolumeStep(env, cfg, References(cache.pvs.value), Sources(cache.snapshots.value), s, item);
            && (Covers(s.next, bound) ==> Covers(s'.next, bound))
            && (VolumeWaits(cfg, cache, item, s.p.w.now) && Left(cfg, item, s.p.w.now) <= bound ==> Covers(s'.next, bound))
  {
    ReclaimExplains(env, cfg, Sources(cache.snapshots.value), s.p, item);
    SoonestCovers(s.next, Reclaim(env, cfg, Sources(cache.snapshots.value), s.p, item).verdict.requeueAfter, bound);
  }

  lemma SnapshotStepCovers(env: Environment, cfg: Config, s: Pass, item: Item, bound: int)
    ensures var s' := SnapshotStep(env, cfg, s, item);
            && (Covers(s.next, bound) ==> Covers(s'.next, bound))
            && (SnapshotWaits(cfg, item, s.p.w.now) && Left(cfg, item, s.p.w.now) <= bound ==> Covers(s'.next, bound))
  {
    if item.obj.deletedAt.Some? {
      ReclaimSnapshotExplains(env, cfg, s.p, item);
      SoonestCovers(s.next, ReclaimSnapshot(env, cfg, s.p, item).verdict.requeueAfter, bound);
    }
  }

  lemma {:induction false} VolumesCover(env: Environment, cfg: Config, cache: Cache, w: World, s: Pass, n: nat, i: nat)
    requires cache.volumes.Some? && cache.snapshots.Some? && cache.pvs.Some? && WellFormed(w) && Safe(cfg, cache, w, s.p)
    requires i < n <= |cache.volumes.value|
    requires var after := SweepVolumes(env, cfg, References(cache.pvs.value), Sources(cache.snapshots.value), s, cache.volumes.value[..n]);
             VolumeWaits(cfg, cache, cache.volumes.value[i], after.p.w.now)
    ensures Covers(SweepVolumes(env, cfg, References(cache.pvs.value), Sources(cache.snapshots.value), s, cache.volumes.value[..n]).next,
                   Left(cfg, cache.volumes.value[i], w.now))
  {
    var referenced, snapshotted := References(cache.pvs.value), Sources(cache.snapshots.value);
    var items := cache.volumes.value[..n];
    assert items[..n - 1] == cache.volumes.value[..n - 1];
    var before := SweepVolumes(env, cfg, referenced, snapshotted, s, items[..n - 1]);
    VolumesStarted(env, cfg, cache, w, s, n - 1);
    VolumeStepTakesTime(env, cfg, referenced, snapshotted, before, items[n - 1]);
    VolumeStepCovers(env, cfg, cache, before, items[n - 1], Left(cfg, cache.volumes.value[i], w.now));
    if i < n - 1 {
      VolumesCover(env, cfg, cache, w, s, n - 1, i);
    }
  }

  lemma {:induction false} SnapshotsCover(env: Environment, cfg: Config, cache: Cache, w: World, n: nat, i: nat)
    requires cache.volumes.Some? && cache.snapshots.Some? && cache.pvs.Some? && WellFormed(w)
    requires i < n <= |cache.snapshots.value|
    requires SnapshotWaits(cfg, cache.snapshots.value[i], SweepSnapshots(env, cfg, Start(cfg, w), cache.snapshots.value[..n]).p.w.now)
    ensures Covers(SweepSnapshots(env, cfg, Start(cfg, w), cache.snapshots.value[..n]).next, Left(cfg, cache.snapshots.value[i], w.now))
  {
    var items := cache.snapshots.value[..n];
    assert items[..n - 1] == cache.snapshots.value[..n - 1];
    var before := SweepSnapshots(env, cfg, Start(cfg, w), items[..n - 1]);
    SnapshotsStarted(env, cfg, cache, w, n - 1);
    SnapshotStepTakesTime(env, cfg, before, items[n - 1]);
    SnapshotStepCovers(env, cfg, before, items[n - 1], Left(cfg, cache.snapshots.value[i], w.now));
    if i < n - 1 {
      SnapshotsCover(env, cfg, cache, w, n - 1, i);
    }
  }

  lemma {:induction false} VolumesTakeTime(env: Environment, cfg: Config, cache: Cache, w: World, s: Pass, n: nat)
    requires cache.volumes.Some? && cache.snapshots.Some? && cache.pvs.Some? && WellFormed(w) && Safe(cfg, cache, w, s.p)
    requires n <= |cache.volumes.value|
    ensures s.p.w.now <= SweepVolumes(env, cfg, References(cache.pvs.value), Sources(cache.snapshots.value), s, cache.volumes.value[..n]).p.w.now
  {
    if n > 0 {
      var referenced, snapshotted := References(cache.pvs.value), Sources(cache.snapshots.value);
      var items := cache.volumes.value[..n];
      assert items[..n - 1] == cache.volumes.value[..n - 1];
      VolumesTakeTime(env, cfg, cache, w, s, n - 1);
      VolumesStarted(env, cfg, cache, w, s, n - 1);
      VolumeStepTakesTime(env, cfg, referenced, snapshotted, SweepVolumes(env, cfg, referenced, snapshotted, s, items[..n - 1]), items[n - 1]);
    }
  }

  /** Under any cache and in every environment: whatever is still inside its grace period
      when the pass ends, the pass asks to come back, and no later than that period ends as
      seen from the pass's start. */
  lemma ComesBackForGrace(env: Environment, cfg: Config, w: World, lastSweep: Option<int>, cache: Cache, item: Item)
    requires WellFormed(w) && SweepOnce(env, cfg, w, lastSweep, cache).outcome.Published?
    requires var now := SweepOnce(env, cfg, w, lastSweep, cache).w.now;
             && cache.volumes.Some? && cache.snapshots.Some? && cache.pvs.Some?
             && ((item in cache.volumes.value && VolumeWaits(cfg, cache, item, now))
                 || (item in cache.snapshots.value && SnapshotWaits(cfg, item, now)))
    ensures Covers(SweepOnce(env, cfg, w, lastSweep, cache).outcome.next, Left(cfg, item, w.now))
  {
    var n, m := |cache.snapshots.value|, |cache.volumes.value|;
    assert cache.snapshots.value[..n] == cache.snapshots.value && cache.volumes.value[..m] == cache.volumes.value;
    var snapshots, volumes := SnapshotHalf(env, cfg, w, cache), VolumeHalf(env, cfg, w, cache);
    SnapshotsAreSafe(env, cfg, cache, w, Start(cfg, w), n);
    VolumesTakeTime(env, cfg, cache, w, snapshots.(next := 0), m);
    if item in cache.volumes.value && VolumeWaits(cfg, cache, item, volumes.p.w.now) {
      var i :| 0 <= i < m && cache.volumes.value[i] == item;
      VolumesCover(env, cfg, cache, w, snapshots.(next := 0), m, i);
    } else {
      var i :| 0 <= i < n && cache.snapshots.value[i] == item;
      SnapshotsCover(env, cfg, cache, w, n, i);
    }
    var bound := Left(cfg, item, w.now);
    SoonestCovers(volumes.next, snapshots.next, bound);
    SoonestCovers(Soonest(volumes.next, snapshots.next), RECLAIM_BACKLOG_REQUEUE, bound);
  }

  ghost predicate NoneWaiting(cfg: Config, items: seq<Item>, now: int) {
    forall i :: 0 <= i < |items| ==> !Waiting(cfg, items[i].obj, now)
  }

  /** ... and it asks for nothing of the kind without a reason: no grace period running in
      the cache and nothing put off, no delay. */
  lemma NothingPendingNoDelay(env: Environment, cfg: Config, w: World, lastSweep: Option<int>, cache: Cache)
    requires WellFormed(w) && SweepOnce(env, cfg, w, lastSweep, cache).outcome.Published?
    requires !SweepOnce(env, cfg, w, lastSweep, cache).outcome.budget.exhausted
    requires NoneWaiting(cfg, cache.volumes.value, w.now) && NoneWaiting(cfg, cache.snapshots.value, w.now)
    ensures SweepOnce(env, cfg, w, lastSweep, cache).outcome.next <= 0
  {
    var n, m := |cache.snapshots.value|, |cache.volumes.value|;
    assert cache.snapshots.value[..n] == cache.snapshots.value && cache.volumes.value[..m] == cache.volumes.value;
    SnapshotsAreSafe(env, cfg, cache, w, Start(cfg, w), n);
    SnapshotsAskNothing(env, cfg, cache, w, n);
    VolumesAskNothing(env, cfg, cache, w, SnapshotHalf(env, cfg, w, cache).(next := 0), m);
  }

  lemma {:induction false} SnapshotsAskNothing(env: Environment, cfg: Config, cache: Cache, w: World, n: nat)
    requires cache.volumes.Some? && cache.snapshots.Some? && cache.pvs.Some? && WellFormed(w) && n <= |cache.snapshots.value|
    requires NoneWaiting(cfg, cache.snapshots.value, w.now)
    ensures var s := SweepSnapshots(env, cfg, Start(cfg, w), cache.snapshots.value[..n]); s.next <= 0 || s.p.budget.exhausted
  {
    if n > 0 {
      var items := cache.snapshots.value[..n];
      assert items[..n - 1] == cache.snapshots.value[..n - 1];
      SnapshotsAskNothing(env, cfg, cache, w, n - 1);
      SnapshotsStarted(env, cfg, cache, w, n - 1);
      var before := SweepSnapshots(env, cfg, Start(cfg, w), items[..n - 1]);
      if items[n - 1].obj.deletedAt.Some? {
        AsksOnlyWhenPutOff(env, before.p, Key(Snapshot, items[n - 1].name), items[n - 1].obj.uid);
      }
    }
  }

  lemma AsksOnlyWhenPutOff(env: Environment, p: Progress, key: Key, uid: nat)
    ensures var a := Attempt(env, p, key, uid);
            (a.verdict.requeueAfter == 0 || a.p.budget.exhausted) && (p.budget.exhausted ==> a.p.budget.exhausted)
  {
    if p.budget.remaining > 0 {
      AttemptExplains(env, p, key, uid);
    }
  }

  lemma VolumeStepAsksNothing(env: Environment, cfg: Config, referenced: map<string, PvReference>, snapshotted: set<string>, s: Pass, item: Item)
    requires !Waiting(cfg, item.obj, s.p.w.now) && (s.next <= 0 || s.p.budget.exhausted)
    ensures var r := VolumeStep(env, cfg, referenced, snapshotted, s, item);
            (r.next <= 0 || r.p.budget.exhausted) && (s.p.budget.exhausted ==> r.p.budget.exhausted)
  {
    ReclaimExplains(env, cfg, snapshotted, s.p, item);
    AsksOnlyWhenPutOff(env, s.p, Key(Volume, item.name), item.obj.uid);
  }

  lemma {:induction false} VolumesAskNothing(env: Environment, cfg: Config, cache: Cache, w: World, s: Pass, n: nat)
    requires cache.volumes.Some? && cache.snapshots.Some? && cache.pvs.Some? && WellFormed(w) && n <= |cache.volumes.value|
    requires Safe(cfg, cache, w, s.p) && (s.next <= 0 || s.p.budget.exhausted)
    requires NoneWaiting(cfg, cache.volumes.value, w.now)
    ensures var r := SweepVolumes(env, cfg, References(cache.pvs.value), Sources(cache.snapshots.value), s, cache.volumes.value[..n]);
            (r.next <= 0 || r.p.budget.exhausted) && (s.p.budget.exhausted ==> r.p.budget.exhausted)
  {
    if n > 0 {
      var referenced, snapshotted := References(cache.pvs.value), Sources(cache.snapshots.value);
      var items := cache.volumes.value[..n];
      assert items[..n - 1] == cache.volumes.value[..n - 1];
      VolumesAskNothing(env, cfg, cache, w, s, n - 1);
      VolumesStarted(env, cfg, cache, w, s, n - 1);
      var before := SweepVolumes(env, cfg, referenced, snapshotted, s, items[..n - 1]);
      VolumeStepAsksNothing(env, cfg, referenced, snapshotted, before, items[n - 1]);
    }
  }
  // ------------------------------------------------------------ throttle and budget

  /** A pass is turned away exactly while the last one that published ended less than the
      minimum interval ago; it touches nothing and asks for just what is left of it. */
  lemma ThrottledExactly(env: Environment, cfg: Config, w: World, lastSweep: Option<int>, cache: Cache)
    ensures var r := SweepOnce(env, cfg, w, lastSweep, cache);
            && (r.outcome.Throttled? <==> lastSweep.Some? && w.now < lastSweep.value + cfg.minInterval)
            && (r.outcome.Throttled? ==> r.w == w && r.lastSweep == lastSweep && r.outcome.wait > 0
                                         && w.now + r.outcome.wait == lastSweep.value + cfg.minInterval)
  {
  }

  /** A pass that publishes after another one did begins at least the minimum interval after
      that one's end. */
  lemma PublishedPassesAreApart(env: Environment, cfg: Config, w: World, lastSweep: Option<int>, cache: Cache,
                                w': World, cache': Cache)
    requires SweepOnce(env, cfg, w, lastSweep, cache).outcome.Published?
    requires SweepOnce(env, cfg, w', SweepOnce(env, cfg, w, lastSweep, cache).lastSweep, cache').outcome.Published?
    ensures w'.now >= SweepOnce(env, cfg, w, lastSweep, cache).w.now + cfg.minInterval
  {
  }

  /** Something was put off exactly if the budget is gone and counted as such. */
  ghost predicate Kept(cfg: Config, b: Budget) {
    && (b.exhausted <==> b.deferred > 0) && (b.exhausted ==> b.remaining <= 0)
    && b.remaining <= cfg.maxReclaims && (cfg.maxReclaims >= 0 ==> b.remaining >= 0)
  }

  lemma AttemptKeepsBudget(env: Environment, cfg: Config, p: Progress, key: Key, uid: nat)
    requires Kept(cfg, p.budget)
    ensures Kept(cfg, Attempt(env, p, key, uid).p.budget)
    ensures Attempt(env, p, key, uid).p.budget.deferred == p.budget.deferred + if p.budget.remaining <= 0 then 1 else 0
  {
  }

  lemma {:induction false} SnapshotsKeepBudget(env: Environment, cfg: Config, s: Pass, items: seq<Item>)
    requires Kept(cfg, s.p.budget)
    ensures Kept(cfg, SweepSnapshots(env, cfg, s, items).p.budget)
  {
    if items != [] {
      var init, last := items[..|items| - 1], items[|items| - 1];
      SnapshotsKeepBudget(env, cfg, s, init);
      AttemptKeepsBudget(env, cfg, SweepSnapshots(env, cfg, s, init).p, Key(Snapshot, last.name), last.obj.uid);
    }
  }

  lemma {:induction false} VolumesKeepBudget(env: Environment, cfg: Config, referenced: map<string, PvReference>, snapshotted: set<string>,
                                             s: Pass, items: seq<Item>)
    requires Kept(cfg, s.p.budget)
    ensures Kept(cfg, SweepVolumes(env, cfg, referenced, snapshotted, s, items).p.budget)
  {
    if items != [] {
      var init, last := items[..|items| - 1], items[|items| - 1];
      VolumesKeepBudget(env, cfg, referenced, snapshotted, s, init);
      AttemptKeepsBudget(env, cfg, SweepVolumes(env, cfg, referenced, snapshotted, s, init).p, Key(Volume, last.name), last.obj.uid);
    }
  }

  /** A pass that reports to have put something off has counted it and spent its budget. */
  lemma BudgetIsKept(env: Environment, cfg: Config, w: World, lastSweep: Option<int>, cache: Cache)
    requires SweepOnce(env, cfg, w, lastSweep, cache).outcome.Published?
    ensures Kept(cfg, SweepOnce(env, cfg, w, lastSweep, cache).outcome.budget)
  {
    SnapshotsKeepBudget(env, cfg, Start(cfg, w), cache.snapshots.value);
    VolumesKeepBudget(env, cfg, References(cache.pvs.value), Sources(cache.snapshots.value),
                      SnapshotHalf(env, cfg, w, cache).(next := 0), cache.volumes.value);
  }

  // -------------------------------------------------------------- the first referrer

  ghost predicate FirstReferrer(pvs: seq<PersistentVolume>, name: string, i: nat) {
    i < |pvs| && Refers(pvs[i], name) && forall j :: 0 <= j < i ==> !Refers(pvs[j], name)
  }

  lemma OneMoreReferrer(m: map<string, PvReference>, pv: PersistentVolume, name: string)
    ensures var m' := AddReferences(m, pv);
            && (name in m' <==> name in m || Refers(pv, name))
            && (name in m ==> m'[name] == m[name])
            && (name !in m && name in m' ==>
                  m'[name].name == pv.name && m'[name].driver == match pv.csi case Some(csi) => csi.driver case None => "")
  {
  }

  lemma FirstReferrerStays(pvs: seq<PersistentVolume>, name: string, i: nat, n: nat)
    requires i < n <= |pvs|
    ensures FirstReferrer(pvs[..n], name, i) <==> FirstReferrer(pvs, name, i)
  {
    assert forall j :: 0 <= j <= i ==> pvs[..n][j] == pvs[j];
  }

  /** What a volume is said to be referenced by is the first PersistentVolume that does, with
      its driver, empty for one without. */
  lemma {:induction false} FirstReferrerIsKept(pvs: seq<PersistentVolume>, name: string, i: nat)
    requires FirstReferrer(pvs, name, i)
    ensures name in References(pvs) && References(pvs)[name].name == pvs[i].name
            && References(pvs)[name].driver == match pvs[i].csi case Some(csi) => csi.driver case None => ""
  {
    var n := |pvs| - 1;
    OneMoreReferrer(References(pvs[..n]), pvs[n], name);
    if i < n {
      FirstReferrerStays(pvs, name, i, n);
      FirstReferrerIsKept(pvs[..n], name, i);
    } else {
      ReferencesAreExact(pvs[..n], name);
      assert forall pv :: pv in pvs[..n] ==> exists j :: 0 <= j < n && pvs[j] == pv;
    }
  }
}
