/**
  Whatever users, other provisioners, failures and crashes do between its calls, the
  controller never leaves a StorageClass without a held LocalStorageClass behind it and
  never touches another provisioner's.
  */
module ReconcilerSafety {
  import opened Wrappers
  import opened Names
  import opened LocalStorage
  import opened LvgResolution
  import opened StorageClasses
  import opened ScComparison
  import opened Validation
  import opened Admission
  import opened ClassServer
  import opened ClassReconciler

  // ---------------------------------------------------------------- what must hold

  ghost predicate OnlyControllers(finalizers: seq<Holder>) {
    forall f :: f in finalizers ==> IsControllers(f)
  }

  ghost predicate ClassOk(name: string, c: LocalStorageClass) {
    c.name == name && OnlyControllers(c.finalizers) && (c.terminating ==> c.finalizers != [])
  }

  /** Nobody is deleting the controller's StorageClass, and nobody else holds it. */
  ghost predicate ScTame(name: string, sc: StorageClass) {
    sc.name == name && (Ours(sc) ==> !sc.terminating && OnlyControllers(sc.finalizers))
  }

  ghost predicate ScOk(name: string, sc: StorageClass) {
    ScTame(name, sc) && (Ours(sc) ==> sc.lvgs.Some? && DistinctNames(sc.lvgs.value))
  }

  /** A StorageClass of this provisioner exists. */
  predicate Managed(v: View) {
    v.sc.Some? && Ours(v.sc.value)
  }

  /** The LocalStorageClass exists and a finalizer of the controller's keeps it. */
  predicate Held(v: View) {
    v.lsc.Some? && v.lsc.value.finalizers != []
  }

  ghost predicate Sound(name: string, v: View) {
    && (v.lsc.Some? ==> ClassOk(name, v.lsc.value))
    && (v.sc.Some? ==> ScOk(name, v.sc.value))
    && (Managed(v) ==> Held(v))
  }

  /** The controller does not change another provisioner's StorageClass. */
  ghost predicate Respectful(before: View, after: View) {
    after.actor == Us && before.sc.Some? && !Ours(before.sc.value) ==> after.sc == before.sc
  }

  ghost predicate KnownClass(w: Cluster, c: LocalStorageClass) {
    c.rv < w.nextRv && (w.now.lsc.Some? && w.now.lsc.value.rv == c.rv ==> w.now.lsc.value == c)
  }

  ghost predicate KnownSc(w: Cluster, sc: StorageClass) {
    sc.rv < w.nextRv && (w.now.sc.Some? && w.now.sc.value.rv == sc.rv ==> w.now.sc.value == sc)
  }

  /** A resourceVersion identifies what carries it. */
  ghost predicate Known(w: Cluster, v: View) {
    (v.lsc.Some? ==> KnownClass(w, v.lsc.value)) && (v.sc.Some? ==> KnownSc(w, v.sc.value))
  }

  ghost predicate Good(w: Cluster) {
    && w.since <= |w.past|
    && (forall i :: 0 <= i <= |w.past| ==> Sound(w.name, At(w, i)) && Known(w, At(w, i)))
    && (forall i, j :: 0 <= i && j == i + 1 <= |w.past| ==> Respectful(At(w, i), At(w, j)))
  }

  // ------------------------------------------------------- what stale reads still tell

  /** Nothing seen held since the pass began has been let go. */
  ghost predicate HeldStays(w: Cluster) {
    forall i :: w.since <= i <= |w.past| && Held(At(w, i)) ==> Held(w.now)
  }

  predicate Free(v: View) {
    Managed(v) ==> v.sc.value.finalizers == []
  }

  ghost predicate FreeStays(w: Cluster) {
    forall i :: w.since <= i <= |w.past| && Free(At(w, i)) ==> Free(w.now)
  }

  /** From w to w' nothing was let go and everything known stays known. */
  ghost predicate Keeps(w: Cluster, w': Cluster) {
    && Good(w') && w'.name == w.name && w'.since == w.since
    && (HeldStays(w) ==> HeldStays(w')) && (Held(w.now) ==> Held(w'.now))
    && (forall c :: KnownClass(w, c) ==> KnownClass(w', c))
    && (forall sc :: KnownSc(w, sc) ==> KnownSc(w', sc))
  }

  /** ... and the controller's StorageClass is neither gone nor new. */
  ghost predicate Quiet(w: Cluster, w': Cluster) {
    && Keeps(w, w')
    && (FreeStays(w) ==> FreeStays(w')) && (Free(w.now) ==> Free(w'.now))
    && (Managed(w.now) <==> Managed(w'.now))
  }

  lemma PushKeeps(w: Cluster, actor: Actor, lsc: Option<LocalStorageClass>, sc: Option<StorageClass>)
    requires Good(w) && Sound(w.name, View(actor, lsc, sc)) && Respectful(w.now, View(actor, lsc, sc))
    requires lsc == w.now.lsc || lsc.None? || lsc.value.rv == w.nextRv
    requires sc == w.now.sc || sc.None? || sc.value.rv == w.nextRv
    requires Held(w.now) ==> Held(View(actor, lsc, sc))
    ensures var w' := Push(w, actor, lsc, sc);
            && Keeps(w, w')
            && (FreeStays(w) && (Free(w.now) ==> Free(w'.now)) ==> FreeStays(w'))
  {
    PushGood(w, actor, lsc, sc);
    var w' := Push(w, actor, lsc, sc);
    forall i | 0 <= i <= |w.past| ensures At(w', i) == At(w, i) {
    }
    assert At(w', |w'.past|) == w'.now;
  }

  lemma PushGood(w: Cluster, actor: Actor, lsc: Option<LocalStorageClass>, sc: Option<StorageClass>)
    requires Good(w) && Sound(w.name, View(actor, lsc, sc)) && Respectful(w.now, View(actor, lsc, sc))
    requires lsc == w.now.lsc || lsc.None? || lsc.value.rv == w.nextRv
    requires sc == w.now.sc || sc.None? || sc.value.rv == w.nextRv
    ensures Good(Push(w, actor, lsc, sc))
  {
    var w' := Push(w, actor, lsc, sc);
    assert At(w, |w.past|) == w.now;
    forall i | 0 <= i <= |w'.past| ensures Sound(w'.name, At(w', i)) && Known(w', At(w', i)) {
      if i <= |w.past| {
        assert At(w', i) == At(w, i);
      }
    }
    forall i, j | 0 <= i && j == i + 1 <= |w'.past| ensures Respectful(At(w', i), At(w', j)) {
      assert At(w', i) == At(w, i);
      if j <= |w.past| {
        assert At(w', j) == At(w, j);
      }
    }
  }

  /** The flags of a cluster say nothing about its states. */
  lemma SameStates(w: Cluster, w': Cluster)
    requires Good(w) && w'.name == w.name && w'.past == w.past && w'.now == w.now && w'.since == w.since && w'.nextRv == w.nextRv
    ensures Quiet(w, w')
  {
    assert forall i :: 0 <= i <= |w.past| ==> At(w', i) == At(w, i);
  }

  lemma NowIsSound(w: Cluster)
    requires Good(w)
    ensures Sound(w.name, w.now) && Known(w, w.now)
  {
    assert At(w, |w.past|) == w.now;
  }

  lemma AnswerQuiet(f: Fault, served: Written)
    requires Good(served.w)
    ensures Quiet(served.w, Answer(f, served).w)
    ensures Answer(f, served).Accepted? ==> served.Accepted?
  {
    SameStates(served.w, Answer(f, served).w);
  }

  // ------------------------------------------------------------------- other parties

  lemma ApplyQuiet(w: Cluster, x: Write)
    requires Good(w)
    ensures Quiet(w, Apply(w, x))
  {
    NowIsSound(w);
    var w' := Apply(w, x);
    if w'.past == w.past {
      SameStates(w, w');
    } else {
      PushKeeps(w, Others, w'.now.lsc, w'.now.sc);
    }
  }

  lemma {:induction false} ApplyAllQuiet(w: Cluster, xs: seq<Write>)
    requires Good(w)
    ensures Quiet(w, ApplyAll(w, xs))
    decreases |xs|
  {
    if xs == [] {
      SameStates(w, w);
    } else {
      ApplyQuiet(w, xs[0]);
      ApplyAllQuiet(Apply(w, xs[0]), xs[1..]);
    }
  }

  lemma TurnQuiet(env: Environment, w: Cluster)
    requires Good(w)
    ensures Quiet(w, Turn(env, w))
  {
    ApplyAllQuiet(w, env(w.calls).writes);
    SameStates(ApplyAll(w, env(w.calls).writes), Turn(env, w));
  }

  lemma ServeQuiet(env: Environment, w: Cluster)
    requires Good(w)
    ensures Quiet(w, Serve(env, w))
  {
    if w.down {
      SameStates(w, w);
    } else {
      TurnQuiet(env, w);
      SameStates(Turn(env, w), Serve(env, w));
    }
  }

  lemma {:induction false} ApplyAllKeepsUp(w: Cluster, xs: seq<Write>)
    ensures ApplyAll(w, xs).down == w.down && ApplyAll(w, xs).name == w.name
    decreases |xs|
  {
    if xs != [] {
      ApplyAllKeepsUp(Apply(w, xs[0]), xs[1..]);
    }
  }

  lemma TurnKeepsUp(env: Environment, w: Cluster)
    ensures Turn(env, w).down == w.down && Turn(env, w).calls == w.calls + 1
  {
    ApplyAllKeepsUp(w, env(w.calls).writes);
  }

  // ------------------------------------------------------------------ the controller

  lemma GetClassEffect(env: Environment, w: Cluster)
    requires Good(w)
    ensures var got := GetClass(env, w);
            && Quiet(w, got.w)
            && (got.reply.Found? ==>
                  && KnownClass(got.w, got.reply.value) && ClassOk(w.name, got.reply.value)
                  && (HeldStays(w) && got.reply.value.finalizers != [] ==> Held(got.w.now)))
  {
    ServeQuiet(env, w);
    var w' := Serve(env, w);
    var v := Cached(env, w, w');
    assert exists i :: w'.since <= i <= |w'.past| && v == At(w', i);
  }

  predicate SeenFree(reply: Reply<StorageClass>) {
    reply.NotFound? || (reply.Found? && (Ours(reply.value) ==> reply.value.finalizers == []))
  }

  lemma GetScEffect(env: Environment, w: Cluster)
    requires Good(w)
    ensures var got := GetSc(env, w);
            && Quiet(w, got.w)
            && (got.reply.Found? ==>
                  && KnownSc(got.w, got.reply.value)
                  && (Ours(got.reply.value) ==> OnlyControllers(got.reply.value.finalizers)))
            && (FreeStays(w) && SeenFree(got.reply) ==> Free(got.w.now))
  {
    ServeQuiet(env, w);
    var w' := Serve(env, w);
    var v := Cached(env, w, w');
    assert exists i :: w'.since <= i <= |w'.past| && v == At(w', i);
  }

  lemma StoreClassAdds(w: Cluster, base: LocalStorageClass)
    requires Good(w) && KnownClass(w, base) && ClassOk(w.name, base) && !base.terminating
    ensures var r := StoreClass(w, base, base.finalizers + [Controller]);
            Quiet(w, r.w) && (r.Accepted? ==> Held(r.w.now))
  {
    NowIsSound(w);
    SameStates(w, w);
    var r := StoreClass(w, base, base.finalizers + [Controller]);
    if r.Accepted? {
      assert OnlyControllers(base.finalizers + [Controller]);
      PushKeeps(w, Us, r.w.now.lsc, r.w.now.sc);
    }
  }

  lemma UpdateClassAdds(env: Environment, w: Cluster, base: LocalStorageClass)
    requires Good(w) && KnownClass(w, base) && ClassOk(w.name, base) && !base.terminating
    ensures var r := UpdateClass(env, w, base, base.finalizers + [Controller]);
            Quiet(w, r.w) && (r.Accepted? ==> Held(r.w.now))
  {
    SameStates(w, w);
    TurnQuiet(env, w);
    var t, f := Turn(env, w), env(w.calls).fault;
    StoreClassAdds(t, base);
    AnswerQuiet(f, if Lands(f) then StoreClass(t, base, base.finalizers + [Controller]) else Refused(t, false));
  }

  lemma StoreStatusQuiet(w: Cluster, phase: Option<Phase>, ready: Condition)
    requires Good(w)
    ensures Quiet(w, StoreStatus(w, phase, ready).w)
  {
    NowIsSound(w);
    SameStates(w, w);
    var r := StoreStatus(w, phase, ready);
    if r.w.past != w.past {
      PushKeeps(w, Us, r.w.now.lsc, r.w.now.sc);
    }
  }

  lemma WriteStatusQuiet(env: Environment, w: Cluster, phase: Option<Phase>, ready: Condition)
    requires Good(w)
    ensures Quiet(w, WriteStatus(env, w, phase, ready).w)
  {
    SameStates(w, w);
    TurnQuiet(env, w);
    var t, f := Turn(env, w), env(w.calls).fault;
    StoreStatusQuiet(t, phase, ready);
    AnswerQuiet(f, if Lands(f) then StoreStatus(t, phase, ready) else Refused(t, false));
  }

  lemma {:induction false} AddFinalizerEffect(env: Environment, w: Cluster, lsc: LocalStorageClass, attempts: nat)
    requires Good(w) && attempts > 0
    ensures var r := AddFinalizer(env, w, lsc, attempts);
            Quiet(w, r.w) && (r.ok && HeldStays(w) ==> Held(r.w.now))
    decreases attempts
  {
    GetClassEffect(env, w);
    var got := GetClass(env, w);
    if got.reply.Found? {
      var live := got.reply.value;
      if !live.terminating && Controller !in live.finalizers {
        UpdateClassAdds(env, got.w, live);
        var updated := UpdateClass(env, got.w, live, live.finalizers + [Controller]);
        if updated.Refused? && updated.conflict && attempts > 1 {
          AddFinalizerEffect(env, updated.w, lsc, attempts - 1);
        }
      }
    }
  }

  /** The copy of the LocalStorageClass the pass works on has not overtaken the server. */
  ghost predicate Mine(w: Cluster, lsc: LocalStorageClass) {
    lsc.name == w.name && (lsc.finalizers != [] ==> Held(w.now))
  }

  lemma EnsureFinalizerEffect(env: Environment, w: Cluster, lsc: LocalStorageClass)
    requires Good(w)
    ensures var r := EnsureFinalizer(env, w, lsc);
            && Quiet(w, r.w)
            && r.lsc == lsc.(finalizers := r.lsc.finalizers)
            && (r.ok && HeldStays(w) && Mine(w, lsc) && !lsc.terminating ==> Held(r.w.now))
  {
    SameStates(w, w);
    if !lsc.terminating && Controller !in lsc.finalizers {
      AddFinalizerEffect(env, w, lsc, ATTEMPTS);
      OnlyFinalizersChange(env, w, lsc, ATTEMPTS);
    }
  }

  lemma {:induction false} OnlyFinalizersChange(env: Environment, w: Cluster, lsc: LocalStorageClass, attempts: nat)
    requires attempts > 0
    ensures var r := AddFinalizer(env, w, lsc, attempts); r.lsc == lsc.(finalizers := r.lsc.finalizers)
    decreases attempts
  {
    var got := GetClass(env, w);
    if got.reply.Found? && attempts > 1 {
      var live := got.reply.value;
      OnlyFinalizersChange(env, UpdateClass(env, got.w, live, live.finalizers + [Controller]).w, lsc, attempts - 1);
    }
  }

  lemma UpdatePhaseQuiet(env: Environment, w: Cluster, lsc: LocalStorageClass, phase: Phase)
    requires Good(w)
    ensures Quiet(w, UpdatePhase(env, w, lsc, phase).w)
  {
    EnsureFinalizerEffect(env, w, lsc);
    var e := EnsureFinalizer(env, w, lsc);
    WriteStatusQuiet(env, e.w, Some(phase), Condition(phase == Created, lsc.generation));
  }

  lemma {:induction false} KeptIsWithout(finalizers: seq<Holder>)
    ensures OnlyControllers(finalizers) ==> Kept(finalizers) == []
    ensures forall f :: f in Kept(finalizers) <==> f in finalizers && !IsControllers(f)
  {
    if finalizers != [] {
      var init := finalizers[..|finalizers| - 1];
      KeptIsWithout(init);
      assert finalizers == init + [finalizers[|finalizers| - 1]];
    }
  }

  /** Neither spelling of the controller's finalizer is kept, everybody else's is. */
  lemma KeptAreOthers(finalizers: seq<Holder>)
    ensures forall f :: f in Kept(finalizers) <==> f in finalizers && f.Other?
  {
    KeptIsWithout(finalizers);
  }

  /** ... in order: two lists one after the other keep theirs one after the other. */
  lemma {:induction false} KeptInOrder(a: seq<Holder>, b: seq<Holder>)
    ensures Kept(a + b) == Kept(a) + Kept(b)
  {
    if b == [] {
      assert a + b == a;
    } else {
      var init, last := b[..|b| - 1], b[|b| - 1];
      KeptInOrder(a, init);
      var whole := a + b;
      assert whole[..|whole| - 1] == a + init && whole[|whole| - 1] == last;
      var end := if IsControllers(last) then [] else [last];
      assert Kept(whole) == Kept(a + init) + end && Kept(b) == Kept(init) + end;
      assert (Kept(a) + Kept(init)) + end == Kept(a) + (Kept(init) + end);
    }
  }

  lemma {:induction false} OthersAreKept(finalizers: seq<Holder>)
    ensures (forall f :: f in finalizers ==> f.Other?) ==> Kept(finalizers) == finalizers
  {
    if finalizers != [] {
      var init := finalizers[..|finalizers| - 1];
      OthersAreKept(init);
      assert finalizers == init + [finalizers[|finalizers| - 1]];
    }
  }

  lemma StoreScReleases(w: Cluster, base: StorageClass)
    requires Good(w) && Managed(w.now) && KnownSc(w, base) && (Ours(base) ==> OnlyControllers(base.finalizers))
    ensures var r := StoreSc(w, base, Kept(base.finalizers));
            Quiet(w, r.w) && (r.Accepted? ==> Free(r.w.now))
  {
    NowIsSound(w);
    SameStates(w, w);
    KeptIsWithout(base.finalizers);
    var r := StoreSc(w, base, Kept(base.finalizers));
    if r.Accepted? {
      PushKeeps(w, Us, r.w.now.lsc, r.w.now.sc);
    }
  }

  lemma UpdateScReleases(env: Environment, w: Cluster, base: StorageClass)
    requires Good(w) && Managed(w.now) && KnownSc(w, base) && (Ours(base) ==> OnlyControllers(base.finalizers))
    ensures var r := UpdateSc(env, w, base, Kept(base.finalizers));
            Quiet(w, r.w) && (r.Accepted? ==> Free(r.w.now))
  {
    SameStates(w, w);
    TurnQuiet(env, w);
    var t, f := Turn(env, w), env(w.calls).fault;
    StoreScReleases(t, base);
    AnswerQuiet(f, if Lands(f) then StoreSc(t, base, Kept(base.finalizers)) else Refused(t, false));
  }

  lemma {:induction false} ReleaseScEffect(env: Environment, w: Cluster, attempts: nat)
    requires Good(w) && FreeStays(w) && Managed(w.now) && attempts > 0
    ensures var r := ReleaseSc(env, w, attempts);
            Quiet(w, r.w) && (r.Accepted? ==> Free(r.w.now))
    decreases attempts
  {
    GetScEffect(env, w);
    var got := GetSc(env, w);
    if got.reply.Found? {
      var live := got.reply.value;
      KeptIsWithout(live.finalizers);
      if Kept(live.finalizers) != live.finalizers {
        UpdateScReleases(env, got.w, live);
        var updated := UpdateSc(env, got.w, live, Kept(live.finalizers));
        if updated.Refused? && updated.conflict && attempts > 1 {
          ReleaseScEffect(env, updated.w, attempts - 1);
        }
      }
    }
  }

  lemma DeleteScEffect(env: Environment, w: Cluster)
    requires Good(w) && Managed(w.now) && Free(w.now)
    ensures var r := DeleteSc(env, w);
            Keeps(w, r.w) && (r.Accepted? ==> !Managed(r.w.now))
  {
    SameStates(w, w);
    TurnQuiet(env, w);
    var t, f := Turn(env, w), env(w.calls).fault;
    NowIsSound(t);
    PushKeeps(t, Us, t.now.lsc, None);
    SameStates(t, t);
    AnswerQuiet(f, if Lands(f) then RemoveSc(t) else Refused(t, false));
  }

  lemma DeleteManagedEffect(env: Environment, w: Cluster, sc: StorageClass)
    requires Good(w) && FreeStays(w) && Managed(w.now)
    ensures var r := DeleteManaged(env, w, sc);
            Keeps(w, r.w) && (r.Accepted? ==> !Managed(r.w.now))
  {
    SameStates(w, w);
    if Ours(sc) {
      ReleaseScEffect(env, w, ATTEMPTS);
      var released := ReleaseSc(env, w, ATTEMPTS);
      if released.Accepted? {
        DeleteScEffect(env, released.w);
      }
    }
  }

  lemma AddScKeeps(w: Cluster, sc: StorageClass)
    requires Good(w) && Held(w.now) && Ours(sc) && ScOk(sc.name, sc)
    ensures Keeps(w, AddSc(w, sc).w)
  {
    NowIsSound(w);
    SameStates(w, w);
    var r := AddSc(w, sc);
    if r.Accepted? {
      PushKeeps(w, Us, r.w.now.lsc, r.w.now.sc);
    }
  }

  lemma CreateScEffect(env: Environment, w: Cluster, sc: StorageClass)
    requires Good(w) && Held(w.now) && Ours(sc) && ScOk(sc.name, sc)
    ensures Keeps(w, CreateSc(env, w, sc).w)
  {
    SameStates(w, w);
    TurnQuiet(env, w);
    var t, f := Turn(env, w), env(w.calls).fault;
    AddScKeeps(t, sc);
    AnswerQuiet(f, if Lands(f) then AddSc(t, sc) else Refused(t, false));
  }

  /** Dropping the LocalStorageClass's finalizers, once no StorageClass depends on them. */
  ghost predicate Unmanaged(w: Cluster) {
    Good(w) && !Managed(w.now)
  }

  lemma StoreClassReleases(w: Cluster, base: LocalStorageClass)
    requires Unmanaged(w) && KnownClass(w, base) && ClassOk(w.name, base)
    ensures Unmanaged(StoreClass(w, base, Kept(base.finalizers)).w)
  {
    NowIsSound(w);
    KeptIsWithout(base.finalizers);
    var r := StoreClass(w, base, Kept(base.finalizers));
    if r.Accepted? {
      PushGood(w, Us, r.w.now.lsc, r.w.now.sc);
    }
  }

  lemma UpdateClassReleases(env: Environment, w: Cluster, base: LocalStorageClass)
    requires Unmanaged(w) && KnownClass(w, base) && ClassOk(w.name, base)
    ensures Unmanaged(UpdateClass(env, w, base, Kept(base.finalizers)).w)
  {
    TurnQuiet(env, w);
    var t, f := Turn(env, w), env(w.calls).fault;
    StoreClassReleases(t, base);
    AnswerQuiet(f, if Lands(f) then StoreClass(t, base, Kept(base.finalizers)) else Refused(t, false));
  }

  lemma {:induction false} ReleaseClassEffect(env: Environment, w: Cluster, attempts: nat)
    requires Unmanaged(w) && attempts > 0
    ensures Unmanaged(ReleaseClass(env, w, attempts).w)
    decreases attempts
  {
    GetClassEffect(env, w);
    var got := GetClass(env, w);
    if got.reply.Found? {
      var live := got.reply.value;
      if Kept(live.finalizers) != live.finalizers {
        UpdateClassReleases(env, got.w, live);
        var updated := UpdateClass(env, got.w, live, Kept(live.finalizers));
        if updated.Refused? && updated.conflict && attempts > 1 {
          ReleaseClassEffect(env, updated.w, attempts - 1);
        }
      }
    }
  }

  // ---------------------------------------------------------------------- the passes

  /** What a pass knows when it starts to act. */
  ghost predicate Ready(w: Cluster, scs: seq<StorageClass>, lsc: LocalStorageClass) {
    && Good(w) && HeldStays(w) && FreeStays(w) && Mine(w, lsc)
    && (Managed(w.now) <==> FindSc(scs, lsc.name).Some? && Ours(FindSc(scs, lsc.name).value))
  }

  lemma DeletePassGood(env: Environment, w: Cluster, scs: seq<StorageClass>, lsc: LocalStorageClass)
    requires Ready(w, scs, lsc)
    ensures Good(DeletePass(env, w, scs, lsc).w)
  {
    var sc := FindSc(scs, lsc.name);
    if sc.Some? && Ours(sc.value) {
      DeleteManagedEffect(env, w, sc.value);
    }
    var deleted := if sc.Some? && Ours(sc.value) then DeleteManaged(env, w, sc.value) else Accepted(w);
    UpdatePhaseQuiet(env, deleted.w, lsc, Failed);
    if deleted.Accepted? {
      ReleaseClassEffect(env, deleted.w, ATTEMPTS);
      var released := ReleaseClass(env, deleted.w, ATTEMPTS);
      UpdatePhaseQuiet(env, released.w, lsc, Failed);
      WriteStatusQuiet(env, released.w, None, Condition(false, lsc.generation));
    }
  }

  /** Every list the controller resolves and validates names each LVMVolumeGroup once. */
  lemma ValidTargetsAreDistinct(scs: seq<StorageClass>, lsc: LocalStorageClass, lvgs: seq<VolumeGroup>)
    requires EffectiveLvgs(lsc, lvgs).Ok? && IsValid(scs, lsc, lvgs, EffectiveLvgs(lsc, lvgs).value)
    ensures DistinctNames(EffectiveLvgs(lsc, lvgs).value)
  {
    var entries := lsc.lvm.value.entries;
    OneKind(entries);
    if AllNames(entries) {
      NamedListResolves(entries, lvgs);
    } else {
      SelectorListResolves(entries, lvgs);
    }
    var targets := EffectiveLvgs(lsc, lvgs).value;
    forall i, j | 0 <= i < j < |targets| ensures targets[i].name != targets[j].name {
      LessIsIrreflexive(targets[i].name);
    }
  }

  /** Some entry of the class names this LVMVolumeGroup, or selects it, with this pool. */
  ghost predicate Asks(lsc: LocalStorageClass, lvgs: seq<VolumeGroup>, t: Target) {
    lsc.lvm.Some?
    && ((exists e :: e in lsc.lvm.value.entries && e.selector.None? && t == Target(e.name, e.thin))
        || Wanted(lsc.lvm.value.entries, lvgs, t))
  }

  /** The list a valid class is rendered with is exactly what its entries ask for. */
  lemma EffectiveIsAsked(scs: seq<StorageClass>, lsc: LocalStorageClass, lvgs: seq<VolumeGroup>)
    requires EffectiveLvgs(lsc, lvgs).Ok? && IsValid(scs, lsc, lvgs, EffectiveLvgs(lsc, lvgs).value)
    ensures var targets := EffectiveLvgs(lsc, lvgs).value;
            StrictlySorted(targets) && forall t :: t in targets <==> Asks(lsc, lvgs, t)
  {
    var entries := lsc.lvm.value.entries;
    OneKind(entries);
    if AllNames(entries) {
      NamedListResolves(entries, lvgs);
      assert forall t :: !Wanted(entries, lvgs, t);
    } else {
      SelectorListResolves(entries, lvgs);
    }
  }

  lemma CreatePassGood(env: Environment, w: Cluster, scs: seq<StorageClass>, lsc: LocalStorageClass,
                       lvgs: seq<VolumeGroup>, prefixes: seq<string>)
    requires Ready(w, scs, lsc) && !lsc.terminating && EffectiveLvgs(lsc, lvgs).Ok?
    ensures Good(CreatePass(env, w, scs, lsc, lvgs, EffectiveLvgs(lsc, lvgs).value, prefixes).w)
  {
    var targets := EffectiveLvgs(lsc, lvgs).value;
    EnsureFinalizerEffect(env, w, lsc);
    var e := EnsureFinalizer(env, w, lsc);
    UpdatePhaseQuiet(env, e.w, e.lsc, Failed);
    if e.ok && IsValid(scs, e.lsc, lvgs, targets) {
      ValidTargetsAreDistinct(scs, e.lsc, lvgs);
      var sc := Configure(e.lsc, targets, prefixes).value;
      CreateScEffect(env, e.w, sc);
      var created := CreateSc(env, e.w, sc);
      UpdatePhaseQuiet(env, created.w, e.lsc, Failed);
      UpdatePhaseQuiet(env, created.w, e.lsc, Created);
    }
  }

  lemma RecreateGood(env: Environment, w: Cluster, existing: StorageClass, replacement: StorageClass)
    requires Good(w) && FreeStays(w) && Managed(w.now) && Ours(replacement) && ScOk(replacement.name, replacement)
    ensures Good(Recreate(env, w, existing, replacement).w)
  {
    NowIsSound(w);
    DeleteManagedEffect(env, w, existing);
    var deleted := DeleteManaged(env, w, existing);
    if deleted.Accepted? {
      CreateScEffect(env, deleted.w, replacement);
    }
  }

  lemma UpdatePassGood(env: Environment, w: Cluster, scs: seq<StorageClass>, lsc: LocalStorageClass,
                       lvgs: seq<VolumeGroup>, prefixes: seq<string>)
    requires Ready(w, scs, lsc) && EffectiveLvgs(lsc, lvgs).Ok?
    ensures Good(UpdatePass(env, w, scs, lsc, lvgs, EffectiveLvgs(lsc, lvgs).value, prefixes).w)
  {
    var targets := EffectiveLvgs(lsc, lvgs).value;
    UpdatePhaseQuiet(env, w, lsc, Failed);
    UpdatePhaseQuiet(env, w, lsc, Created);
    if IsValid(scs, lsc, lvgs, targets) && FindSc(scs, lsc.name).Some? {
      var existing := FindSc(scs, lsc.name).value;
      FoundHasName(scs, lsc.name);
      assert Ours(existing);
      ValidTargetsAreDistinct(scs, lsc, lvgs);
      RecreatePassGood(env, w, existing, Reconfigure(lsc, existing, targets, prefixes).value, lsc);
    }
  }

  lemma RecreatePassGood(env: Environment, w: Cluster, existing: StorageClass, replacement: StorageClass, lsc: LocalStorageClass)
    requires Good(w) && FreeStays(w) && Managed(w.now) && Ours(replacement) && ScOk(replacement.name, replacement)
    ensures var recreated := Recreate(env, w, existing, replacement);
            Good(UpdatePhase(env, recreated.w, lsc, Failed).w) && Good(UpdatePhase(env, recreated.w, lsc, Created).w)
  {
    RecreateGood(env, w, existing, replacement);
    var recreated := Recreate(env, w, existing, replacement);
    UpdatePhaseQuiet(env, recreated.w, lsc, Failed);
    UpdatePhaseQuiet(env, recreated.w, lsc, Created);
  }

  lemma {:induction false} FoundHasName(scs: seq<StorageClass>, name: string)
    ensures var found := FindSc(scs, name); found.Some? ==> found.value in scs && found.value.name == name
  {
    if scs != [] && scs[0].name != name {
      FoundHasName(scs[1..], name);
    }
  }

  lemma ReconcileGood(env: Environment, w: Cluster, scs: seq<StorageClass>, lsc: LocalStorageClass,
                      lvgs: seq<VolumeGroup>, prefixes: seq<string>)
    requires Ready(w, scs, lsc)
    ensures Good(RunEventReconcile(env, w, scs, lsc, lvgs, prefixes).w)
  {
    if lsc.terminating {
      DeletePassGood(env, w, scs, lsc);
    } else {
      StillReady(env, w, scs, lsc);
      var w' := Serve(env, w);
      UpdatePhaseQuiet(env, w', lsc, Failed);
      if EffectiveLvgs(lsc, lvgs).Ok? && !Panics(scs, lsc) {
        match Identify(scs, lsc, EffectiveLvgs(lsc, lvgs).value, prefixes) {
          case Ok(CreateReconcile) => CreatePassGood(env, w', scs, lsc, lvgs, prefixes);
          case Ok(UpdateReconcile) => UpdatePassGood(env, w', scs, lsc, lvgs, prefixes);
          case _ =>
        }
      }
    }
  }

  lemma OpenPassEffect(env: Environment, w: Cluster)
    requires Good(w)
    ensures var r := OpenPass(env, w.(down := false));
            && Good(r.w) && HeldStays(r.w) && FreeStays(r.w) && r.w.name == w.name
            && (r.reply.Found? ==> Mine(r.w, r.reply.value))
  {
    var up := w.(down := false);
    SameStates(w, up);
    ServeQuiet(env, up);
    var served := Serve(env, up);
    var r := OpenPass(env, up);
    assert forall i :: 0 <= i <= |served.past| ==> At(r.w, i) == At(served, i);
    assert At(r.w, |r.w.past|) == r.w.now;
  }

  lemma ListsWhatIsManaged(env: Environment, w: Cluster, lsc: LocalStorageClass)
    requires Good(w) && HeldStays(w) && FreeStays(w) && Mine(w, lsc)
    ensures var scs := ListScs(env, w);
            if scs.reply.Found? then Ready(scs.w, scs.reply.value, lsc) else Good(scs.w)
  {
    ServeQuiet(env, w);
    var scs := ListScs(env, w);
    NowIsSound(scs.w);
    if scs.reply.Found? && scs.w.now.sc.Some? {
      assert scs.reply.value[0].name == w.name;
    }
  }

  lemma StillReady(env: Environment, w: Cluster, scs: seq<StorageClass>, lsc: LocalStorageClass)
    requires Ready(w, scs, lsc)
    ensures Ready(Serve(env, w), scs, lsc)
  {
    ServeQuiet(env, w);
  }

  lemma PassGood(env: Environment, w: Cluster, inputs: Inputs)
    requires Good(w)
    ensures Good(Pass(env, w, inputs).w)
  {
    OpenPassEffect(env, w);
    var start := OpenPass(env, w.(down := false));
    if start.reply.Found? {
      ListsWhatIsManaged(env, start.w, start.reply.value);
      var scs := ListScs(env, start.w);
      if scs.reply.Found? {
        StillReady(env, scs.w, scs.reply.value, start.reply.value);
        var secret := ReadOther(env, scs.w);
        if secret.reply.Found? {
          ReconcileGood(env, secret.w, scs.reply.value, start.reply.value, inputs.lvgs, inputs.prefixes);
        }
      }
    }
  }

  lemma {:induction false} RunGood(env: Environment, w: Cluster, passes: seq<Inputs>)
    requires Good(w)
    ensures Good(Run(env, w, passes))
  {
    if passes != [] {
      RunGood(env, w, passes[..|passes| - 1]);
      PassGood(env, Run(env, w, passes[..|passes| - 1]), passes[|passes| - 1]);
    }
  }

  // --------------------------------------------------------------------- the theorem

  /** The cluster before the controller's first pass: no StorageClass of this
      provisioner, and no finalizers but the controller's. */
  ghost predicate Initial(w: Cluster) {
    && w.past == [] && w.since == 0 && Sound(w.name, w.now) && !Managed(w.now)
    && (w.now.lsc.Some? ==> w.now.lsc.value.rv < w.nextRv) && (w.now.sc.Some? ==> w.now.sc.value.rv < w.nextRv)
  }

  /** Over any run - any passes on any inputs, with users editing and deleting, calls
      failing and the process dying anywhere - the StorageClass this controller manages
      exists only while its LocalStorageClass does and carries a controller finalizer,
      and no step of the controller's changes another provisioner's StorageClass. */
  lemma NeverOrphaned(env: Environment, w: Cluster, passes: seq<Inputs>)
    requires Initial(w)
    ensures var r := Run(env, w, passes);
            && (forall i :: 0 <= i <= |r.past| && Managed(At(r, i)) ==>
                  At(r, i).lsc.Some? && exists f :: f in At(r, i).lsc.value.finalizers && IsControllers(f))
            && (forall i, j :: 0 <= i && j == i + 1 <= |r.past| ==> Respectful(At(r, i), At(r, j)))
  {
    RunGood(env, w, passes);
    var r := Run(env, w, passes);
    forall i | 0 <= i <= |r.past| && Managed(At(r, i))
      ensures At(r, i).lsc.Some? && exists f :: f in At(r, i).lsc.value.finalizers && IsControllers(f)
    {
      assert Sound(r.name, At(r, i));
      assert At(r, i).lsc.value.finalizers[0] in At(r, i).lsc.value.finalizers;
    }
  }
}
