/**
  What one pass may do to the cluster, whatever the cache held and whatever everybody
  else did meanwhile.
  */
module SweepSafety {
  import opened Wrappers
  import opened ApiServer
  import opened FinalizerRemoval
  import opened Sweep

  // -------------------------------------------------- what a removal must rest on

  /** Journal entries r, r+1, r+2 are the three uncached lists a picture was built from. */
  ghost predicate PictureAt(j: seq<Event>, start: nat, r: nat, live: Live) {
    && start <= r && r + 2 < |j|
    && j[r].PvsRead? && j[r + 1].SnapshotsRead? && j[r + 2].ContentsRead?
    && live == Live(Some(j[r + 2].at), References(j[r].pvs), j[r + 1].sources, ContentHandles(j[r + 2].contents))
  }

  /** The picture in hand was read during this pass. */
  ghost predicate Backed(j: seq<Event>, start: nat, live: Live) {
    live.readAt.Some? ==> exists r: nat :: PictureAt(j, start, r, live)
  }

  /** The uncached lists at r..r+2, young enough when the removal was announced, mention
      nothing that still needs the object. */
  ghost predicate ConfirmedAt(j: seq<Event>, start: nat, r: nat, i: nat, key: Key) {
    && start <= r && r + 2 < i - 1 && i < |j|
    && j[r].PvsRead? && j[r + 1].SnapshotsRead? && j[r + 2].ContentsRead?
    && j[i - 1].Releasing? && j[i - 1].key == key
    && j[i - 1].at - j[r + 2].at < LIVE_CONFIRMATION_MAX_AGE
    && (key.kind.Volume? ==>
          && key.name !in j[r + 1].sources
          && forall pv :: pv in j[r].pvs ==> !Refers(pv, key.name))
    && (key.kind.Snapshot? && j[r + 2].contents.Some? ==>
          forall c :: c in j[r + 2].contents.value ==> !Holds(c, key.name))
  }

  /** The cached object a removal was decided on: somebody asked for the deletion, the
      grace period had passed when the removal was announced, both finalizers were
      there, and - for a volume - the cache knew of no snapshot and no PersistentVolume. */
  ghost predicate Classified(cfg: Config, cache: Cache, item: Item, key: Key, announcedAt: int) {
    && cache.volumes.Some? && cache.snapshots.Some? && cache.pvs.Some?
    && item.name == key.name
    && item in (if key.kind.Volume? then cache.volumes.value else cache.snapshots.value)
    && item.obj.deletedAt.Some? && Csi in item.obj.finalizers && Agent in item.obj.finalizers
    && announcedAt - item.obj.deletedAt.value >= cfg.gracePeriod
    && (key.kind.Volume? ==> key.name !in Sources(cache.snapshots.value) && key.name !in References(cache.pvs.value))
  }

  /** The cached object is an earlier state of whatever lives under its UID. */
  ghost predicate OlderView(w: World, key: Key, item: Item) {
    && item.obj.uid < w.nextUid
    && (key in w.objects && w.objects[key].uid == item.obj.uid && item.obj.deletedAt.Some? ==>
          w.objects[key].deletedAt == item.obj.deletedAt)
  }

  /** The deletion the cache saw is the deletion of the very object that was patched. */
  ghost predicate SameDeletion(w0: World, key: Key, item: Item, before: Object) {
    OlderView(w0, key, item) ==> before.deletedAt == item.obj.deletedAt
  }

  ghost predicate DecidedOn(cfg: Config, cache: Cache, w0: World, item: Item, j: seq<Event>, i: nat) {
    && 0 < i < |j| && j[i].Patched? && j[i - 1].Releasing?
    && Classified(cfg, cache, item, j[i].key, j[i - 1].at)
    && Authorised(j[i], j[i].key, item.obj.uid)
    && SameDeletion(w0, j[i].key, item, j[i].before)
  }

  /** Why the patch at i was allowed, in terms of the pass that began in w0. */
  ghost predicate Justified(cfg: Config, cache: Cache, w0: World, j: seq<Event>, i: nat) {
    && |w0.journal| < i < |j| && j[i].Patched?
    && (exists item :: DecidedOn(cfg, cache, w0, item, j, i))
    && (exists r: nat :: ConfirmedAt(j, |w0.journal|, r, i, j[i].key))
  }

  ghost predicate AllJustified(cfg: Config, cache: Cache, w0: World, j: seq<Event>) {
    forall i :: |w0.journal| <= i < |j| && j[i].Patched? ==> Justified(cfg, cache, w0, j, i)
  }

  lemma JustifiedExtends(cfg: Config, cache: Cache, w0: World, j: seq<Event>, j': seq<Event>, i: nat)
    requires Justified(cfg, cache, w0, j, i) && j <= j'
    ensures Justified(cfg, cache, w0, j', i)
  {
    var item :| DecidedOn(cfg, cache, w0, item, j, i);
    assert DecidedOn(cfg, cache, w0, item, j', i);
    var r: nat :| ConfirmedAt(j, |w0.journal|, r, i, j[i].key);
    assert ConfirmedAt(j', |w0.journal|, r, i, j'[i].key);
  }

  lemma BackedExtends(j: seq<Event>, j': seq<Event>, start: nat, live: Live)
    requires Backed(j, start, live) && j <= j'
    ensures Backed(j', start, live)
  {
    if live.readAt.Some? {
      var r: nat :| PictureAt(j, start, r, live);
      assert PictureAt(j', start, r, live);
    }
  }

  // --------------------------------------------------------------------- counting

  function Patches(j: seq<Event>): nat {
    if j == [] then 0 else Patches(j[..|j| - 1]) + (if j[|j| - 1].Patched? then 1 else 0)
  }

  function Announced(j: seq<Event>): nat {
    if j == [] then 0 else Announced(j[..|j| - 1]) + (if j[|j| - 1].Releasing? then 1 else 0)
  }

  lemma CountsGrow(j: seq<Event>, j': seq<Event>)
    requires j <= j' && |j'| <= |j| + 1
    ensures Patches(j') == Patches(j) + (if |j'| > |j| && j'[|j|].Patched? then 1 else 0)
    ensures Announced(j') == Announced(j) + (if |j'| > |j| && j'[|j|].Releasing? then 1 else 0)
  {
    if |j'| > |j| {
      assert j'[..|j'| - 1] == j;
    } else {
      assert j' == j;
    }
  }

  // ------------------------------------------------------------- one confirmation

  /** From w to w' the collector only listed. */
  ghost predicate OnlyRead(w: World, w': World) {
    && WellFormed(w') && Evolves(w, w') && w.journal <= w'.journal
    && Patches(w'.journal) == Patches(w.journal) && Announced(w'.journal) == Announced(w.journal)
    && (forall i :: |w.journal| <= i < |w'.journal| ==> !w'.journal[i].Patched? && !w'.journal[i].Releasing?)
  }

  lemma OnlyReadTransitive(w0: World, w1: World, w2: World)
    requires WellFormed(w0) && OnlyRead(w0, w1) && OnlyRead(w1, w2)
    ensures OnlyRead(w0, w2)
  {
    EvolvesTransitive(w0, w1, w2);
  }

  lemma ListingOnlyReads(env: Environment, w: World)
    requires WellFormed(w)
    ensures OnlyRead(w, ListPvs(env, w).w) && OnlyRead(w, ListSnapshots(env, w).w) && OnlyRead(w, ListContents(env, w).w)
  {
    TurnEvolves(env, w);
    CountsGrow(w.journal, ListPvs(env, w).w.journal);
    CountsGrow(w.journal, ListSnapshots(env, w).w.journal);
    CountsGrow(w.journal, ListContents(env, w).w.journal);
  }

  /** Loading only reads, and a failed load changes no field of the picture. */
  lemma LoadOnlyReads(env: Environment, w: World, live: Live)
    requires WellFormed(w)
    ensures var l := Load(env, w, live);
            && OnlyRead(w, l.w)
            && (!l.ok ==> l.live == live)
            && (l.ok ==> Fresh(l.live, l.w.now))
  {
    if !Fresh(live, w.now) {
      var pvs := ListPvs(env, w);
      ListingOnlyReads(env, w);
      if pvs.ok {
        var snapshots := ListSnapshots(env, pvs.w);
        ListingOnlyReads(env, pvs.w);
        OnlyReadTransitive(w, pvs.w, snapshots.w);
        if snapshots.ok {
          ListingOnlyReads(env, snapshots.w);
          OnlyReadTransitive(w, snapshots.w, ListContents(env, snapshots.w).w);
        }
      }
    }
  }

  lemma LoadIsBacked(env: Environment, w: World, live: Live, start: nat)
    requires start <= |w.journal| && Backed(w.journal, start, live)
    ensures var l := Load(env, w, live); Backed(l.w.journal, start, l.live)
  {
    var l := Load(env, w, live);
    var pvs := ListPvs(env, w).w;
    TurnKeepsJournal(env, w);
    var snapshots := ListSnapshots(env, pvs).w;
    TurnKeepsJournal(env, pvs);
    TurnKeepsJournal(env, snapshots);
    if l.live == live {
      assert w.journal <= l.w.journal;
      BackedExtends(w.journal, l.w.journal, start, live);
    } else {
      var j := l.w.journal;
      assert j == w.journal + [PvsRead(pvs.pvs, pvs.now), SnapshotsRead(SnapshotSources(snapshots.objects), snapshots.now),
                               ContentsRead(l.w.contents, l.w.now)];
      assert PictureAt(j, start, |w.journal|, l.live);
    }
  }

  lemma FreshPictureConfirms(j: seq<Event>, start: nat, live: Live, key: Key, at: int, j': seq<Event>)
    requires Backed(j, start, live) && Fresh(live, at) && LiveRefusal(live, key) == NoReason
    requires j + [Releasing(key, at)] <= j' && |j'| == |j| + 2
    ensures exists r: nat {:trigger j'[r]} :: ConfirmedAt(j', start, r, |j| + 1, key)
  {
    var r: nat :| PictureAt(j, start, r, live);
    match key.kind {
      case Volume =>
        ReferencesAreExact(j[r].pvs, key.name);
      case Snapshot =>
        if j[r + 2].contents.Some? {
          HandlesAreExact(j[r + 2].contents.value, key.name);
        }
    }
    assert ConfirmedAt(j', start, r, |j| + 1, key);
  }

  // ------------------------------------------------------------------ one attempt

  /** What the pass keeps from one object to the next. */
  ghost predicate Safe(cfg: Config, cache: Cache, w0: World, p: Progress) {
    var j := p.w.journal;
    && WellFormed(p.w) && Evolves(w0, p.w) && w0.journal <= j
    && Backed(j, |w0.journal|, p.live)
    && AllJustified(cfg, cache, w0, j)
    && Patches(j) - Patches(w0.journal) <= Announced(j) - Announced(w0.journal)
    && Announced(j) - Announced(w0.journal) <= NonNegative(cfg.maxReclaims) - NonNegative(p.budget.remaining)
  }

  function NonNegative(n: int): nat {
    if n < 0 then 0 else n
  }

  lemma ReadingIsSafe(cfg: Config, cache: Cache, w0: World, p: Progress, p': Progress)
    requires WellFormed(w0) && Safe(cfg, cache, w0, p) && OnlyRead(p.w, p'.w)
    requires Backed(p'.w.journal, |w0.journal|, p'.live)
    requires NonNegative(p'.budget.remaining) <= NonNegative(p.budget.remaining)
    ensures Safe(cfg, cache, w0, p')
  {
    EvolvesTransitive(w0, p.w, p'.w);
    AllJustifiedExtends(cfg, cache, w0, p.w.journal, p'.w.journal);
  }

  /** Announcing and removing, on a picture that refuses nothing. */
  lemma RemovingIsSafe(cfg: Config, cache: Cache, w0: World, p: Progress, item: Item, key: Key, r: Removal)
    requires WellFormed(w0) && Safe(cfg, cache, w0, p)
    requires Announced(p.w.journal) - Announced(w0.journal) < NonNegative(cfg.maxReclaims) - NonNegative(p.budget.remaining)
    requires Classified(cfg, cache, item, key, p.w.now)
    requires Fresh(p.live, p.w.now) && LiveRefusal(p.live, key) == NoReason
    requires SafeRemoval(Note(p.w, Releasing(key, p.w.now)), r, key, item.obj.uid)
    ensures Safe(cfg, cache, w0, p.(w := r.w))
  {
    var announced := Note(p.w, Releasing(key, p.w.now));
    CountsGrow(p.w.journal, announced.journal);
    CountsGrow(announced.journal, r.w.journal);
    EvolvesTransitive(w0, announced, r.w);
    if |r.w.journal| > |announced.journal| {
      TracesBack(w0, announced, key, r.w.journal[|announced.journal|].before);
    }
    RemovalIsJustified(cfg, cache, w0, p, item, key, r.w.journal);
    BackedExtends(p.w.journal, r.w.journal, |w0.journal|, p.live);
  }

  lemma RemovalIsJustified(cfg: Config, cache: Cache, w0: World, p: Progress, item: Item, key: Key, j: seq<Event>)
    requires w0.journal <= p.w.journal && AllJustified(cfg, cache, w0, p.w.journal)
    requires Backed(p.w.journal, |w0.journal|, p.live)
    requires Classified(cfg, cache, item, key, p.w.now)
    requires Fresh(p.live, p.w.now) && LiveRefusal(p.live, key) == NoReason
    requires p.w.journal + [Releasing(key, p.w.now)] <= j && |j| <= |p.w.journal| + 2
    requires |j| == |p.w.journal| + 2 ==>
               Authorised(j[|j| - 1], key, item.obj.uid) && SameDeletion(w0, key, item, j[|j| - 1].before)
    ensures AllJustified(cfg, cache, w0, j)
  {
    assert j[|p.w.journal|] == Releasing(key, p.w.now);
    if |j| == |p.w.journal| + 2 {
      FreshPictureConfirms(p.w.journal, |w0.journal|, p.live, key, p.w.now, j);
      assert DecidedOn(cfg, cache, w0, item, j, |j| - 1);
      assert Justified(cfg, cache, w0, j, |j| - 1);
    }
    AllJustifiedExtends(cfg, cache, w0, p.w.journal, j);
  }

  lemma AttemptIsSafe(env: Environment, cfg: Config, cache: Cache, w0: World, p: Progress, item: Item, key: Key)
    requires WellFormed(w0) && Safe(cfg, cache, w0, p)
    requires Classified(cfg, cache, item, key, p.w.now)
    ensures Safe(cfg, cache, w0, Attempt(env, p, key, item.obj.uid).p)
  {
    if p.budget.remaining > 0 {
      var loaded := Load(env, p.w, p.live);
      var confirmed := Progress(loaded.w, loaded.live, p.budget.(remaining := p.budget.remaining - 1));
      LoadOnlyReads(env, p.w, p.live);
      LoadIsBacked(env, p.w, p.live, |w0.journal|);
      ReadingIsSafe(cfg, cache, w0, p, confirmed);
      if loaded.ok && LiveRefusal(loaded.live, key) == NoReason {
        var announced := Note(loaded.w, Releasing(key, loaded.w.now));
        RemoveIsSafe(env, announced, key, item.obj.uid, ATTEMPTS);
        RemovingIsSafe(cfg, cache, w0, confirmed, item, key, Remove(env, announced, key, item.obj.uid, ATTEMPTS));
      }
    }
  }

  lemma AllJustifiedExtends(cfg: Config, cache: Cache, w0: World, j: seq<Event>, j': seq<Event>)
    requires AllJustified(cfg, cache, w0, j) && j <= j'
    requires forall i :: |j| <= i < |j'| && j'[i].Patched? && |w0.journal| <= i ==> Justified(cfg, cache, w0, j', i)
    ensures AllJustified(cfg, cache, w0, j')
  {
    forall i | |w0.journal| <= i < |j'| && j'[i].Patched? ensures Justified(cfg, cache, w0, j', i) {
      if i < |j| {
        JustifiedExtends(cfg, cache, w0, j, j', i);
      }
    }
  }

  // ------------------------------------------------------------------- the halves

  lemma {:induction false} SnapshotsAreSafe(env: Environment, cfg: Config, cache: Cache, w0: World, s: Pass, n: nat)
    requires cache.volumes.Some? && cache.snapshots.Some? && cache.pvs.Some?
    requires n <= |cache.snapshots.value|
    requires WellFormed(w0) && Safe(cfg, cache, w0, s.p)
    ensures Safe(cfg, cache, w0, SweepSnapshots(env, cfg, s, cache.snapshots.value[..n]).p)
  {
    if n > 0 {
      var items := cache.snapshots.value[..n];
      var item := items[n - 1];
      assert items[..n - 1] == cache.snapshots.value[..n - 1];
      SnapshotsAreSafe(env, cfg, cache, w0, s, n - 1);
      var before := SweepSnapshots(env, cfg, s, items[..n - 1]);
      if Csi in item.obj.finalizers && item.obj.deletedAt.Some? && ScreenDeleted(cfg, before.p.w.now, item.obj).None? {
        AttemptIsSafe(env, cfg, cache, w0, before.p, item, Key(Snapshot, item.name));
      }
    }
  }

  lemma {:induction false} VolumesAreSafe(env: Environment, cfg: Config, cache: Cache, w0: World, s: Pass, n: nat)
    requires cache.volumes.Some? && cache.snapshots.Some? && cache.pvs.Some?
    requires n <= |cache.volumes.value|
    requires WellFormed(w0) && Safe(cfg, cache, w0, s.p)
    ensures Safe(cfg, cache, w0, SweepVolumes(env, cfg, References(cache.pvs.value), Sources(cache.snapshots.value),
                                              s, cache.volumes.value[..n]).p)
  {
    if n > 0 {
      var referenced, snapshotted := References(cache.pvs.value), Sources(cache.snapshots.value);
      var items := cache.volumes.value[..n];
      var item := items[n - 1];
      assert items[..n - 1] == cache.volumes.value[..n - 1];
      VolumesAreSafe(env, cfg, cache, w0, s, n - 1);
      var before := SweepVolumes(env, cfg, referenced, snapshotted, s, items[..n - 1]);
      if Csi in item.obj.finalizers && item.name !in referenced
         && ScreenVolume(cfg, before.p.w.now, snapshotted, item).None? {
        AttemptIsSafe(env, cfg, cache, w0, before.p, item, Key(Volume, item.name));
      }
    }
  }

  lemma PassIsSafe(env: Environment, cfg: Config, w: World, cache: Cache)
    requires WellFormed(w) && cache.volumes.Some? && cache.snapshots.Some? && cache.pvs.Some?
    ensures Safe(cfg, cache, w, VolumeHalf(env, cfg, w, cache).p)
  {
    SnapshotsAreSafe(env, cfg, cache, w, Start(cfg, w), |cache.snapshots.value|);
    assert cache.snapshots.value[..|cache.snapshots.value|] == cache.snapshots.value;
    VolumesAreSafe(env, cfg, cache, w, SnapshotHalf(env, cfg, w, cache).(next := 0), |cache.volumes.value|);
    assert cache.volumes.value[..|cache.volumes.value|] == cache.volumes.value;
  }

  // ----------------------------------------------------------------- the theorems

  /** Whole-pass safety, for every cache and every environment. */
  lemma SweepWritesOnlyJustified(env: Environment, cfg: Config, w: World, lastSweep: Option<int>, cache: Cache)
    requires WellFormed(w)
    ensures var r := SweepOnce(env, cfg, w, lastSweep, cache);
            && WellFormed(r.w) && Evolves(w, r.w) && w.journal <= r.w.journal
            && AllJustified(cfg, cache, w, r.w.journal)
            && (!r.outcome.Published? ==> r.w == w && r.lastSweep == lastSweep)
  {
    if SweepOnce(env, cfg, w, lastSweep, cache).outcome.Published? {
      PassIsSafe(env, cfg, w, cache);
    }
  }

  /** A pass announces, and hence lands, at most maxReclaims removals; a pass that had to
      leave some for later asks to be run again after a positive delay of at most the
      backlog requeue. */
  lemma SweepIsBounded(env: Environment, cfg: Config, w: World, lastSweep: Option<int>, cache: Cache)
    requires WellFormed(w)
    ensures var r := SweepOnce(env, cfg, w, lastSweep, cache);
            && Patches(r.w.journal) - Patches(w.journal) <= Announced(r.w.journal) - Announced(w.journal)
            && Announced(r.w.journal) - Announced(w.journal) <= NonNegative(cfg.maxReclaims)
            && (r.outcome.Published? && r.outcome.budget.exhausted ==> 0 < r.outcome.next <= RECLAIM_BACKLOG_REQUEUE)
  {
    if SweepOnce(env, cfg, w, lastSweep, cache).outcome.Published? {
      PassIsSafe(env, cfg, w, cache);
    }
  }

  /** When the confirmation could not be read, nothing is written and the picture, stamp
      included, stays as it was - so the next reclaim has to read again. */
  lemma FailedConfirmationWritesNothing(env: Environment, p: Progress, key: Key, uid: nat)
    requires WellFormed(p.w) && Attempt(env, p, key, uid).verdict.reason == ApiError
    ensures var p' := Attempt(env, p, key, uid).p;
            OnlyRead(p.w, p'.w) && p'.live == p.live && !Fresh(p.live, p.w.now)
  {
    LoadOnlyReads(env, p.w, p.live);
  }

  /** If the cache holds earlier states of the server's objects, every object that loses its
      finalizer had really been waiting for the whole grace period. */
  lemma RemovedOnlyAfterGrace(env: Environment, cfg: Config, w: World, lastSweep: Option<int>, cache: Cache, i: nat)
    requires WellFormed(w)
    requires cache.volumes.Some? ==> forall item :: item in cache.volumes.value ==> OlderView(w, Key(Volume, item.name), item)
    requires cache.snapshots.Some? ==> forall item :: item in cache.snapshots.value ==> OlderView(w, Key(Snapshot, item.name), item)
    requires var j := SweepOnce(env, cfg, w, lastSweep, cache).w.journal; |w.journal| <= i < |j| && j[i].Patched?
    ensures var j := SweepOnce(env, cfg, w, lastSweep, cache).w.journal;
            && i > 0 && j[i - 1].Releasing? && j[i].before.deletedAt.Some?
            && j[i - 1].at - j[i].before.deletedAt.value >= cfg.gracePeriod
  {
    SweepWritesOnlyJustified(env, cfg, w, lastSweep, cache);
    var j := SweepOnce(env, cfg, w, lastSweep, cache).w.journal;
    assert Justified(cfg, cache, w, j, i);
    var item :| DecidedOn(cfg, cache, w, item, j, i);
    assert j[i].key == Key(j[i].key.kind, item.name);
  }

  /** The two halves of one pass never meet on a chain: if a snapshot lost its finalizer, a
      cached item of its name and UID made the pass look at it, and no cached item of that
      name and UID was taken from a volume that lost its own in the same pass. */
  lemma NeverBothInOnePass(env: Environment, cfg: Config, w: World, lastSweep: Option<int>, cache: Cache, i: nat, k: nat)
    requires WellFormed(w)
    requires var j := SweepOnce(env, cfg, w, lastSweep, cache).w.journal;
             && |w.journal| <= i < |j| && |w.journal| <= k < |j|
             && j[i].Patched? && j[i].key.kind.Snapshot?
             && j[k].Patched? && j[k].key.kind.Volume?
    ensures var j := SweepOnce(env, cfg, w, lastSweep, cache).w.journal;
            && cache.snapshots.Some?
            && (exists item :: item in cache.snapshots.value && item.name == j[i].key.name && item.obj.uid == j[i].before.uid)
            && (forall item :: item in cache.snapshots.value && item.name == j[i].key.name && item.obj.uid == j[i].before.uid ==>
                  item.obj.spec.source == "" || item.obj.spec.source != j[k].key.name)
  {
    SweepWritesOnlyJustified(env, cfg, w, lastSweep, cache);
    var j := SweepOnce(env, cfg, w, lastSweep, cache).w.journal;
    assert Justified(cfg, cache, w, j, i) && Justified(cfg, cache, w, j, k);
    var item :| DecidedOn(cfg, cache, w, item, j, i);
    SourcesAreExact(cache.snapshots.value, j[k].key.name);
  }
}
