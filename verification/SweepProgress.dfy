/**
  What passes achieve when nobody interferes: the cache is current, calls succeed, and
  nobody else writes - except, in the second half, the node agent between passes.
  */
module SweepProgress {
  import opened Wrappers
  import opened ApiServer
  import opened FinalizerRemoval
  import opened Sweep
  import opened SweepSafety

  ghost predicate Calm(env: Environment) {
    forall t: nat :: env(t).writes == [] && env(t).fault == Healthy
  }

  /** `items` lists exactly the objects of one kind, each once. */
  ghost predicate Mirrors(items: seq<Item>, kind: Kind, objects: map<Key, Object>) {
    && (forall i, j :: 0 <= i < j < |items| ==> items[i].name != items[j].name)
    && (forall i :: 0 <= i < |items| ==>
          Key(kind, items[i].name) in objects && objects[Key(kind, items[i].name)] == items[i].obj)
    && (forall k :: k in objects && k.kind == kind ==> exists i :: 0 <= i < |items| && items[i].name == k.name)
  }

  ghost predicate Current(cache: Cache, w: World) {
    && cache.volumes.Some? && cache.snapshots.Some? && cache.pvs == Some(w.pvs)
    && Mirrors(cache.volumes.value, Volume, w.objects)
    && Mirrors(cache.snapshots.value, Snapshot, w.objects)
  }

  // ---------------------------------------------------------- what can be reclaimed

  /** Asked to go, past its grace period at `now`, and held by both finalizers. */
  predicate Due(cfg: Config, o: Object, now: int) {
    o.deletedAt.Some? && now - o.deletedAt.value >= cfg.gracePeriod && Csi in o.finalizers && Agent in o.finalizers
  }

  /** Something outside the object still needs it. */
  predicate Needed(w: World, key: Key) {
    match key.kind
    case Volume => key.name in References(w.pvs) || key.name in SnapshotSources(w.objects)
    case Snapshot => key.name in ContentHandles(w.contents)
  }

  function Eligible(cfg: Config, w: World): set<Key> {
    set k | k in w.objects && Due(cfg, w.objects[k], w.now) && !Needed(w, k)
  }

  /** The snapshots that cost budget without being reclaimable. */
  function Held(cfg: Config, w: World, now: int): set<Key> {
    set k | k in w.objects && k.kind.Snapshot? && Due(cfg, w.objects[k], now) && Needed(w, k)
  }

  /** o' is o relieved of the CSI finalizer. */
  predicate Relieved(o: Object, o': Object) {
    Csi in o.finalizers && Agent in o.finalizers && o' == o.(finalizers := Without(o.finalizers, Csi), rv := o'.rv)
  }

  function Freed(w0: World, w: World): set<Key> {
    set k | k in w0.objects && k in w.objects && w.objects[k] != w0.objects[k]
  }

  /** w differs from w0 only in that some due objects nobody needs lost the CSI finalizer. */
  ghost predicate OnlyFreed(cfg: Config, w0: World, w: World) {
    && WellFormed(w) && w.pvs == w0.pvs && w.contents == w0.contents && w0.now <= w.now
    && w.objects.Keys == w0.objects.Keys
    && forall k :: k in w0.objects ==>
         || w.objects[k] == w0.objects[k]
         || (Relieved(w0.objects[k], w.objects[k]) && Due(cfg, w0.objects[k], w.now) && !Needed(w0, k))
  }

  lemma SameSources(cfg: Config, w0: World, w: World)
    requires OnlyFreed(cfg, w0, w)
    ensures SnapshotSources(w.objects) == SnapshotSources(w0.objects)
    ensures forall k :: Needed(w, k) == Needed(w0, k)
  {
    var a, b := SnapshotSources(w.objects), SnapshotSources(w0.objects);
    forall s | s in b ensures s in a {
      var k :| k in w0.objects && k.kind.Snapshot? && w0.objects[k].spec.source == s;
      assert w.objects[k].spec.source == s;
    }
    forall s | s in a ensures s in b {
      var k :| k in w.objects && k.kind.Snapshot? && w.objects[k].spec.source == s;
      assert w0.objects[k].spec.source == s;
    }
    assert a == b;
  }

  lemma MirroredSources(items: seq<Item>, objects: map<Key, Object>)
    requires Mirrors(items, Snapshot, objects)
    ensures Sources(items) == SnapshotSources(objects)
  {
    forall name ensures name in Sources(items) <==> name in SnapshotSources(objects) {
      SourcesAreExact(items, name);
      if name in Sources(items) {
        var s :| s in items && s.obj.spec.source == name;
        assert objects[Key(Snapshot, s.name)] == s.obj;
      }
      if name in SnapshotSources(objects) {
        var k :| k in objects && k.kind.Snapshot? && objects[k].spec.source == name;
        var i :| 0 <= i < |items| && items[i].name == k.name;
        assert objects[Key(Snapshot, items[i].name)] == items[i].obj && k == Key(Snapshot, k.name);
        assert items[i] in items;
      }
    }
  }

  // ---------------------------------------------------------- one call in calm weather

  lemma CalmTurn(env: Environment, w: World)
    requires Calm(env)
    ensures Turn(env, w) == w.(now := w.now + env(w.calls).elapsed, calls := w.calls + 1)
    ensures env(w.calls).fault == Healthy
  {
  }

  ghost predicate TruePicture(w: World, live: Live) {
    live.readAt.Some? ==>
      && live.referenced == References(w.pvs)
      && live.snapshotted == SnapshotSources(w.objects)
      && live.snapshotContents == ContentHandles(w.contents)
  }

  lemma CalmLoad(env: Environment, w: World, live: Live)
    requires Calm(env) && TruePicture(w, live)
    ensures var l := Load(env, w, live);
            && l.ok && l.live.readAt.Some? && TruePicture(w, l.live)
            && w.now <= l.w.now
            && l.w == w.(now := l.w.now, calls := l.w.calls, journal := l.w.journal)
  {
    if !Fresh(live, w.now) {
      CalmTurn(env, w);
      CalmTurn(env, ListPvs(env, w).w);
      CalmTurn(env, ListSnapshots(env, ListPvs(env, w).w).w);
    }
  }

  lemma CalmRemove(env: Environment, w: World, key: Key, attempts: nat)
    requires Calm(env) && attempts > 0 && WellFormed(w)
    requires key in w.objects && w.objects[key].deletedAt.Some?
    requires Csi in w.objects[key].finalizers && Agent in w.objects[key].finalizers
    ensures var o := w.objects[key];
            var r := Remove(env, w, key, o.uid, attempts);
            && r.outcome == Removed && w.now <= r.w.now && WellFormed(r.w)
            && r.w.objects == w.objects[key := o.(finalizers := Without(o.finalizers, Csi), rv := w.nextRv)]
            && r.w.pvs == w.pvs && r.w.contents == w.contents
  {
    CalmTurn(env, w);
    var got := Get(env, w, key);
    CalmTurn(env, got.w);
    assert Agent in Without(w.objects[key].finalizers, Csi);
  }

  // ------------------------------------------------------------- one pass, in calm

  /** After the keys in `done` have been looked at. */
  ghost predicate Progressing(cfg: Config, w0: World, done: set<Key>, p: Progress) {
    && OnlyFreed(cfg, w0, p.w)
    && Freed(w0, p.w) <= done
    && TruePicture(p.w, p.live)
    && 0 <= p.budget.remaining
    && p.budget.remaining + |Freed(w0, p.w)| + |done * Held(cfg, w0, p.w.now)| >= cfg.maxReclaims
    && (p.budget.exhausted ==> p.budget.remaining == 0)
    && (!p.budget.exhausted ==> done * Eligible(cfg, w0) <= Freed(w0, p.w))
  }

  /** The world with one object relieved of the CSI finalizer. */
  ghost predicate RelievedAt(w: World, key: Key, w': World)
    requires key in w.objects
  {
    var o := w.objects[key];
    w'.objects == w.objects[key := o.(finalizers := Without(o.finalizers, Csi), rv := w.nextRv)]
  }

  lemma CalmAttemptEffect(env: Environment, p: Progress, key: Key)
    requires Calm(env) && WellFormed(p.w) && TruePicture(p.w, p.live) && p.budget.remaining > 0
    requires key in p.w.objects && p.w.objects[key].deletedAt.Some?
    requires Csi in p.w.objects[key].finalizers && Agent in p.w.objects[key].finalizers
    ensures var p' := Attempt(env, p, key, p.w.objects[key].uid).p;
            && p'.budget == p.budget.(remaining := p.budget.remaining - 1)
            && WellFormed(p'.w) && p'.w.pvs == p.w.pvs && p'.w.contents == p.w.contents && p.w.now <= p'.w.now
            && TruePicture(p.w, p'.live)
            && (if Needed(p.w, key) then p'.w.objects == p.w.objects else RelievedAt(p.w, key, p'.w))
  {
    CalmLoad(env, p.w, p.live);
    var loaded := Load(env, p.w, p.live);
    assert LiveRefusal(loaded.live, key) == NoReason <==> !Needed(p.w, key);
    if !Needed(p.w, key) {
      CalmRemove(env, Note(loaded.w, Releasing(key, loaded.w.now)), key, ATTEMPTS);
    }
  }

  lemma OneMoreFreed(cfg: Config, w0: World, w: World, w': World, key: Key)
    requires OnlyFreed(cfg, w0, w) && key in w0.objects && key !in Freed(w0, w)
    requires Due(cfg, w0.objects[key], w.now) && !Needed(w0, key)
    requires WellFormed(w') && w'.pvs == w.pvs && w'.contents == w.contents && w.now <= w'.now && RelievedAt(w, key, w')
    ensures OnlyFreed(cfg, w0, w') && Freed(w0, w') == Freed(w0, w) + {key}
  {
    assert w.objects[key] == w0.objects[key];
    assert w'.objects.Keys == w.objects.Keys;
    assert w'.objects[key].finalizers != w0.objects[key].finalizers;
  }

  lemma CalmAttempt(env: Environment, cfg: Config, w0: World, done: set<Key>, p: Progress, key: Key)
    requires Calm(env) && Progressing(cfg, w0, done, p)
    requires key in w0.objects && key !in done && Due(cfg, w0.objects[key], p.w.now)
    requires key.kind.Volume? ==> !Needed(w0, key)
    ensures Progressing(cfg, w0, done + {key}, Attempt(env, p, key, w0.objects[key].uid).p)
  {
    var p' := Attempt(env, p, key, w0.objects[key].uid).p;
    assert p.w.objects[key] == w0.objects[key] by {
      assert key !in Freed(w0, p.w);
    }
    if p.budget.remaining <= 0 {
      HeldGrows(cfg, w0, done, done + {key}, p.w.now, p.w.now);
    } else {
      CalmAttemptEffect(env, p, key);
      SameSources(cfg, w0, p.w);
      if Needed(w0, key) {
        HeldJoins(cfg, w0, done, key, p.w.now, p'.w.now);
        assert Freed(w0, p'.w) == Freed(w0, p.w);
      } else {
        OneMoreFreed(cfg, w0, p.w, p'.w, key);
        SameSources(cfg, w0, p'.w);
        HeldGrows(cfg, w0, done, done + {key}, p.w.now, p'.w.now);
      }
    }
  }

  lemma HeldGrows(cfg: Config, w: World, done: set<Key>, done': set<Key>, now: int, now': int)
    requires done <= done' && now <= now'
    ensures |done * Held(cfg, w, now)| <= |done' * Held(cfg, w, now')|
  {
    SubsetSize(done * Held(cfg, w, now), done' * Held(cfg, w, now'));
  }

  lemma HeldJoins(cfg: Config, w: World, done: set<Key>, key: Key, now: int, now': int)
    requires key !in done && now <= now' && key in w.objects && key.kind.Snapshot?
    requires Due(cfg, w.objects[key], now) && Needed(w, key)
    ensures |done * Held(cfg, w, now)| + 1 <= |(done + {key}) * Held(cfg, w, now')|
  {
    var before := done * Held(cfg, w, now);
    assert |before + {key}| == |before| + 1;
    SubsetSize(before + {key}, (done + {key}) * Held(cfg, w, now'));
  }

  lemma SubsetSize<T>(a: set<T>, b: set<T>)
    requires a <= b
    ensures |a| <= |b|
  {
    assert b == a + (b - a);
  }

  lemma Skipped(cfg: Config, w0: World, done: set<Key>, p: Progress, key: Key)
    requires Progressing(cfg, w0, done, p) && key !in Eligible(cfg, w0)
    ensures Progressing(cfg, w0, done + {key}, p)
  {
    HeldGrows(cfg, w0, done, done + {key}, p.w.now, p.w.now);
  }

  function Keys(kind: Kind, items: seq<Item>): set<Key> {
    set i | 0 <= i < |items| :: Key(kind, items[i].name)
  }

  lemma KeysStep(kind: Kind, items: seq<Item>, n: nat)
    requires 0 < n <= |items|
    ensures Keys(kind, items[..n]) == Keys(kind, items[..n - 1]) + {Key(kind, items[n - 1].name)}
  {
    assert items[..n][..n - 1] == items[..n - 1];
    forall k | k in Keys(kind, items[..n])
      ensures k in Keys(kind, items[..n - 1]) + {Key(kind, items[n - 1].name)}
    {
      var i :| 0 <= i < n && k == Key(kind, items[..n][i].name);
      if i < n - 1 {
        assert items[..n - 1][i] == items[i];
      }
    }
    forall k | k in Keys(kind, items[..n - 1]) ensures k in Keys(kind, items[..n]) {
      var i :| 0 <= i < n - 1 && k == Key(kind, items[..n - 1][i].name);
      assert items[..n][i] == items[..n - 1][i];
    }
    assert items[..n][n - 1] == items[n - 1];
  }

  lemma CalmSnapshotStep(env: Environment, cfg: Config, w0: World, done: set<Key>, s: Pass, item: Item)
    requires Calm(env) && Progressing(cfg, w0, done, s.p)
    requires var key := Key(Snapshot, item.name); key !in done && key in w0.objects && w0.objects[key] == item.obj
    ensures Progressing(cfg, w0, done + {Key(Snapshot, item.name)}, SnapshotStep(env, cfg, s, item).p)
  {
    if Due(cfg, item.obj, s.p.w.now) {
      CalmAttempt(env, cfg, w0, done, s.p, Key(Snapshot, item.name));
    } else {
      Skipped(cfg, w0, done, s.p, Key(Snapshot, item.name));
    }
  }

  lemma CalmVolumeStep(env: Environment, cfg: Config, w0: World, done: set<Key>, s: Pass, item: Item)
    requires Calm(env) && Progressing(cfg, w0, done, s.p)
    requires var key := Key(Volume, item.name); key !in done && key in w0.objects && w0.objects[key] == item.obj
    ensures Progressing(cfg, w0, done + {Key(Volume, item.name)},
                        VolumeStep(env, cfg, References(w0.pvs), SnapshotSources(w0.objects), s, item).p)
  {
    VolumeStepAttempts(env, cfg, References(w0.pvs), SnapshotSources(w0.objects), s, item);
    var key := Key(Volume, item.name);
    if Due(cfg, item.obj, s.p.w.now) && !Needed(w0, key) {
      CalmAttempt(env, cfg, w0, done, s.p, key);
    } else {
      Skipped(cfg, w0, done, s.p, key);
    }
  }

  /** A volume's step attempts a removal exactly if the volume is due and nothing the cache
      shows needs it. */
  lemma VolumeStepAttempts(env: Environment, cfg: Config, referenced: map<string, PvReference>, snapshotted: set<string>,
                           s: Pass, item: Item)
    ensures VolumeStep(env, cfg, referenced, snapshotted, s, item).p
         == if Due(cfg, item.obj, s.p.w.now) && item.name !in referenced && item.name !in snapshotted
            then Attempt(env, s.p, Key(Volume, item.name), item.obj.uid).p else s.p
  {
  }

  lemma NewKey(kind: Kind, items: seq<Item>, n: nat, objects: map<Key, Object>)
    requires Mirrors(items, kind, objects) && 0 < n <= |items|
    ensures var key := Key(kind, items[n - 1].name);
            key !in Keys(kind, items[..n - 1]) && key in objects && objects[key] == items[n - 1].obj
  {
  }

  lemma {:induction false} CalmSnapshots(env: Environment, cfg: Config, w0: World, s: Pass, items: seq<Item>, n: nat)
    requires Calm(env) && Mirrors(items, Snapshot, w0.objects) && n <= |items|
    requires Progressing(cfg, w0, {}, s.p)
    ensures Progressing(cfg, w0, Keys(Snapshot, items[..n]), SweepSnapshots(env, cfg, s, items[..n]).p)
  {
    if n > 0 {
      assert items[..n][..n - 1] == items[..n - 1];
      CalmSnapshots(env, cfg, w0, s, items, n - 1);
      KeysStep(Snapshot, items, n);
      NewKey(Snapshot, items, n, w0.objects);
      CalmSnapshotStep(env, cfg, w0, Keys(Snapshot, items[..n - 1]), SweepSnapshots(env, cfg, s, items[..n - 1]), items[n - 1]);
    } else {
      assert Keys(Snapshot, items[..0]) == {};
    }
  }

  lemma {:induction false} CalmVolumes(env: Environment, cfg: Config, w0: World, s: Pass, items: seq<Item>, n: nat, snapshots: set<Key>)
    requires Calm(env) && Mirrors(items, Volume, w0.objects) && n <= |items|
    requires forall k :: k in snapshots ==> k.kind.Snapshot?
    requires Progressing(cfg, w0, snapshots, s.p)
    ensures Progressing(cfg, w0, snapshots + Keys(Volume, items[..n]),
                        SweepVolumes(env, cfg, References(w0.pvs), SnapshotSources(w0.objects), s, items[..n]).p)
  {
    if n > 0 {
      CalmVolumes(env, cfg, w0, s, items, n - 1, snapshots);
      SweepVolumesStep(env, cfg, References(w0.pvs), SnapshotSources(w0.objects), s, items, n);
      CalmNextVolume(env, cfg, w0, SweepVolumes(env, cfg, References(w0.pvs), SnapshotSources(w0.objects), s, items[..n - 1]),
                     SweepVolumes(env, cfg, References(w0.pvs), SnapshotSources(w0.objects), s, items[..n]), items, n, snapshots);
    } else {
      NoKeys(Volume, items);
      assert snapshots + {} == snapshots;
    }
  }

  lemma NoKeys(kind: Kind, items: seq<Item>)
    ensures Keys(kind, items[..0]) == {}
  {
  }

  lemma SweepVolumesStep(env: Environment, cfg: Config, referenced: map<string, PvReference>, snapshotted: set<string>,
                         s: Pass, items: seq<Item>, n: nat)
    requires 0 < n <= |items|
    ensures SweepVolumes(env, cfg, referenced, snapshotted, s, items[..n])
         == VolumeStep(env, cfg, referenced, snapshotted, SweepVolumes(env, cfg, referenced, snapshotted, s, items[..n - 1]), items[n - 1])
  {
    assert items[..n][..n - 1] == items[..n - 1];
  }

  lemma CalmNextVolume(env: Environment, cfg: Config, w0: World, before: Pass, after: Pass, items: seq<Item>, n: nat, snapshots: set<Key>)
    requires Calm(env) && Mirrors(items, Volume, w0.objects) && 0 < n <= |items|
    requires forall k :: k in snapshots ==> k.kind.Snapshot?
    requires Progressing(cfg, w0, snapshots + Keys(Volume, items[..n - 1]), before.p)
    requires after == VolumeStep(env, cfg, References(w0.pvs), SnapshotSources(w0.objects), before, items[n - 1])
    ensures Progressing(cfg, w0, snapshots + Keys(Volume, items[..n]), after.p)
  {
    NextVolume(w0, items, n, snapshots);
    CalmVolumeStep(env, cfg, w0, snapshots + Keys(Volume, items[..n - 1]), before, items[n - 1]);
  }

  lemma NextVolume(w0: World, items: seq<Item>, n: nat, snapshots: set<Key>)
    requires Mirrors(items, Volume, w0.objects) && 0 < n <= |items|
    requires forall k :: k in snapshots ==> k.kind.Snapshot?
    ensures var done, key := snapshots + Keys(Volume, items[..n - 1]), Key(Volume, items[n - 1].name);
            && snapshots + Keys(Volume, items[..n]) == done + {key}
            && key !in done && key in w0.objects && w0.objects[key] == items[n - 1].obj
  {
    KeysStep(Volume, items, n);
    NewKey(Volume, items, n, w0.objects);
    var done, key := snapshots + Keys(Volume, items[..n - 1]), Key(Volume, items[n - 1].name);
    assert snapshots + Keys(Volume, items[..n]) == done + {key};
  }

  lemma AllKeys(cache: Cache, w: World)
    requires Current(cache, w)
    ensures w.objects.Keys <= Keys(Snapshot, cache.snapshots.value) + Keys(Volume, cache.volumes.value)
  {
    var snapshots, volumes := cache.snapshots.value, cache.volumes.value;
    forall k | k in w.objects ensures k in Keys(Snapshot, snapshots) + Keys(Volume, volumes) {
      match k.kind {
        case Snapshot =>
          var i :| 0 <= i < |snapshots| && snapshots[i].name == k.name;
          assert k == Key(Snapshot, snapshots[i].name);
        case Volume =>
          var i :| 0 <= i < |volumes| && volumes[i].name == k.name;
          assert k == Key(Volume, volumes[i].name);
      }
    }
  }

  lemma CalmHalves(env: Environment, cfg: Config, w: World, cache: Cache)
    requires Calm(env) && WellFormed(w) && Current(cache, w) && cfg.maxReclaims >= 0
    ensures Progressing(cfg, w, Keys(Snapshot, cache.snapshots.value) + Keys(Volume, cache.volumes.value),
                        VolumeHalf(env, cfg, w, cache).p)
  {
    var snapshots, volumes := cache.snapshots.value, cache.volumes.value;
    assert Freed(w, w) == {};
    assert Progressing(cfg, w, {}, Start(cfg, w).p);
    CalmSnapshots(env, cfg, w, Start(cfg, w), snapshots, |snapshots|);
    assert snapshots[..|snapshots|] == snapshots && volumes[..|volumes|] == volumes;
    MirroredSources(snapshots, w.objects);
    CalmVolumes(env, cfg, w, SnapshotHalf(env, cfg, w, cache).(next := 0), volumes, |volumes|, Keys(Snapshot, snapshots));
  }

  /** In calm weather a pass frees, out of E eligible objects, at least
      min(E, maxReclaims - K), where K counts the due snapshots a VolumeSnapshotContent
      still holds; it frees nothing else and changes nothing else. */
  lemma CalmPass(env: Environment, cfg: Config, w: World, lastSweep: Option<int>, cache: Cache)
    requires Calm(env) && WellFormed(w) && Current(cache, w) && !TooSoon(cfg, lastSweep, w.now) && cfg.maxReclaims >= 0
    ensures var r := SweepOnce(env, cfg, w, lastSweep, cache);
            && r.outcome.Published? && OnlyFreed(cfg, w, r.w)
            && |Freed(w, r.w)| >= Min(|Eligible(cfg, w)|, cfg.maxReclaims - |Held(cfg, w, r.w.now)|)
  {
    PassEndsWithVolumes(env, cfg, w, lastSweep, cache);
    CalmHalvesFree(env, cfg, w, cache);
  }

  lemma PassEndsWithVolumes(env: Environment, cfg: Config, w: World, lastSweep: Option<int>, cache: Cache)
    requires !TooSoon(cfg, lastSweep, w.now) && cache.volumes.Some? && cache.snapshots.Some? && cache.pvs.Some?
    ensures var r := SweepOnce(env, cfg, w, lastSweep, cache);
            r.outcome.Published? && r.w == VolumeHalf(env, cfg, w, cache).p.w
  {
  }

  lemma CalmHalvesFree(env: Environment, cfg: Config, w: World, cache: Cache)
    requires Calm(env) && WellFormed(w) && Current(cache, w) && cfg.maxReclaims >= 0
    ensures var w' := VolumeHalf(env, cfg, w, cache).p.w;
            OnlyFreed(cfg, w, w') && |Freed(w, w')| >= Min(|Eligible(cfg, w)|, cfg.maxReclaims - |Held(cfg, w, w'.now)|)
  {
    CalmHalves(env, cfg, w, cache);
    AllKeys(cache, w);
    FreedEnough(cfg, w, Keys(Snapshot, cache.snapshots.value) + Keys(Volume, cache.volumes.value), VolumeHalf(env, cfg, w, cache).p);
  }

  lemma EligibleExist(cfg: Config, w: World)
    ensures Eligible(cfg, w) <= w.objects.Keys
  {
  }

  lemma FreedEnough(cfg: Config, w: World, done: set<Key>, p: Progress)
    requires Progressing(cfg, w, done, p) && w.objects.Keys <= done
    ensures |Freed(w, p.w)| >= Min(|Eligible(cfg, w)|, cfg.maxReclaims - |Held(cfg, w, p.w.now)|)
  {
    if p.budget.exhausted {
      SubsetSize(done * Held(cfg, w, p.w.now), Held(cfg, w, p.w.now));
    } else {
      EligibleExist(cfg, w);
      SubsetSize(Eligible(cfg, w), Freed(w, p.w));
    }
  }
}
