/**
  Once everybody else is quiet and calls succeed, one pass finishes whatever earlier
  passes left behind: a teardown, or - as far as the controller compares at all - the
  StorageClass a valid class calls for. It compares the LVMVolumeGroups with their thin
  pools, the propagated labels and the cleanup method; LVM type, file system type,
  contiguity, reclaim policy, binding mode and annotations follow the class only when one
  of those makes it recreate the StorageClass.
  */
module ReconcilerProgress {
  import opened Wrappers
  import opened Names
  import opened LocalStorage
  import opened LvgResolution
  import opened StorageClasses
  import opened ScComparison
  import opened Validation
  import opened ClassServer
  import opened ClassReconciler
  import opened ReconcilerSafety

  /** From call number n on nobody else writes and every call succeeds; informer reads
      may still lag behind the controller's own writes. */
  ghost predicate CalmFrom(env: Environment, n: nat) {
    forall m: nat :: m >= n ==> env(m).writes == [] && env(m).fault.Healthy?
  }

  /** The pass is running, undisturbed, and has not touched the LocalStorageClass yet. */
  ghost predicate Undisturbed(env: Environment, w: Cluster, lsc: Option<LocalStorageClass>) {
    && CalmFrom(env, w.calls) && !w.down && w.since <= |w.past|
    && forall i :: w.since <= i <= |w.past| ==> At(w, i).lsc == lsc
  }

  lemma CalmServe(env: Environment, w: Cluster)
    requires CalmFrom(env, w.calls) && !w.down
    ensures Served(env, w) && Serve(env, w) == w.(calls := w.calls + 1)
  {
    assert env(w.calls).writes == [];
  }

  lemma NextCall(env: Environment, w: Cluster, lsc: Option<LocalStorageClass>)
    requires Undisturbed(env, w, lsc)
    ensures Undisturbed(env, w.(calls := w.calls + 1), lsc)
  {
    var w' := w.(calls := w.calls + 1);
    assert forall i :: 0 <= i <= |w.past| ==> At(w', i) == At(w, i);
  }

  lemma PushSc(env: Environment, w: Cluster, lsc: Option<LocalStorageClass>, sc: Option<StorageClass>)
    requires Undisturbed(env, w, lsc)
    ensures Undisturbed(env, Push(w, Us, lsc, sc), lsc)
  {
    var w' := Push(w, Us, lsc, sc);
    assert forall i :: 0 <= i <= |w.past| ==> At(w', i) == At(w, i);
  }

  // ------------------------------------------------------------------------ teardown

  lemma CalmDeleteManaged(env: Environment, w: Cluster, lsc: Option<LocalStorageClass>, sc: StorageClass)
    requires Undisturbed(env, w, lsc) && w.since == |w.past| && w.now.sc == Some(sc) && Ours(sc) && ScTame(w.name, sc)
    ensures var r := DeleteManaged(env, w, sc);
            r.Accepted? && Undisturbed(env, r.w, lsc) && r.w.now.sc == None && r.w.name == w.name
  {
    assert At(w, |w.past|) == w.now;
    CalmServe(env, w);
    NextCall(env, w, lsc);
    KeptIsWithout(sc.finalizers);
    var w1 := w.(calls := w.calls + 1);
    assert GetSc(env, w) == Read(w1, Found(sc));
    if sc.finalizers != [] {
      CalmServe(env, w1);
      NextCall(env, w1, lsc);
      var w2 := w1.(calls := w1.calls + 1);
      PushSc(env, w2, lsc, Some(sc.(finalizers := [], rv := w2.nextRv)));
    }
    var released := ReleaseSc(env, w, ATTEMPTS);
    assert released.Accepted? && Undisturbed(env, released.w, lsc);
    assert released.w.now.sc.Some? && released.w.now.sc.value.finalizers == [];
    assert released.w.now.lsc == lsc by {
      assert At(released.w, |released.w.past|) == released.w.now;
    }
    CalmServe(env, released.w);
    NextCall(env, released.w, lsc);
    PushSc(env, released.w.(calls := released.w.calls + 1), lsc, None);
  }

  lemma CalmReleaseClass(env: Environment, w: Cluster, c: LocalStorageClass)
    requires Undisturbed(env, w, Some(c)) && ClassOk(w.name, c) && c.terminating
    ensures var r := ReleaseClass(env, w, ATTEMPTS);
            r.Accepted? && r.w.now.lsc == None && r.w.now.sc == w.now.sc && !r.w.down && CalmFrom(env, r.w.calls)
  {
    assert At(w, |w.past|) == w.now;
    CalmServe(env, w);
    NextCall(env, w, Some(c));
    KeptIsWithout(c.finalizers);
    var w1 := w.(calls := w.calls + 1);
    assert GetClass(env, w) == Read(w1, Found(c));
    CalmServe(env, w1);
  }

  /** However far earlier passes got before they failed or crashed: once undisturbed, one
      pass over a LocalStorageClass being deleted removes the managed StorageClass and
      lets the LocalStorageClass go, and leaves another provisioner's StorageClass alone. */
  lemma TeardownCompletes(env: Environment, w: Cluster, inputs: Inputs)
    requires Good(w) && CalmFrom(env, w.calls) && w.now.lsc.Some? && w.now.lsc.value.terminating
    ensures var r := Pass(env, w, inputs);
            && r.w.now.lsc == None && !r.failed && !r.requeue
            && r.w.now.sc == if Managed(w.now) then None else w.now.sc
  {
    var c := w.now.lsc.value;
    NowIsSound(w);
    CalmReads(env, w);
    CalmStart(env, w, inputs);
    var w3 := w.(down := false, calls := w.calls + 3, since := |w.past|);
    assert At(w3, |w3.past|) == w.now;
    assert Undisturbed(env, w3, Some(c));
    var scs := if w.now.sc.Some? then [w.now.sc.value] else [];
    var found := FindSc(scs, c.name);
    assert found == w.now.sc;
    var deleted := if found.Some? && Ours(found.value) then DeleteManaged(env, w3, found.value) else Accepted(w3);
    if Managed(w.now) {
      CalmDeleteManaged(env, w3, Some(c), w.now.sc.value);
    }
    CalmReleaseClass(env, deleted.w, c);
  }

  /** After any run at all, whatever crash it ended in. */
  lemma TeardownCompletesAfterAnyRun(env: Environment, w: Cluster, passes: seq<Inputs>, inputs: Inputs)
    requires Initial(w) && CalmFrom(env, Run(env, w, passes).calls)
    requires var v := Run(env, w, passes).now; v.lsc.Some? && v.lsc.value.terminating
    ensures var before, after := Run(env, w, passes).now, Pass(env, Run(env, w, passes), inputs).w.now;
            after.lsc == None && after.sc == if Managed(before) then None else before.sc
  {
    RunGood(env, w, passes);
    TeardownCompletes(env, Run(env, w, passes), inputs);
  }

  // -------------------------------------------------------------- self-stabilisation

  /** b is a with another resourceVersion, finalizers and status. */
  ghost predicate SameSpec(a: LocalStorageClass, b: LocalStorageClass) {
    b == a.(rv := b.rv, finalizers := b.finalizers, status := b.status)
  }

  lemma CalmEnsureFinalizer(env: Environment, w: Cluster, c: LocalStorageClass)
    requires Undisturbed(env, w, Some(c)) && !c.terminating
    ensures var r := EnsureFinalizer(env, w, c);
            && r.ok && SameSpec(c, r.lsc) && Controller in r.lsc.finalizers
            && r.w.now.lsc.Some? && SameSpec(c, r.w.now.lsc.value) && r.w.now.sc == w.now.sc
            && !r.w.down && CalmFrom(env, r.w.calls) && r.w.name == w.name
  {
    assert At(w, |w.past|) == w.now;
    if Controller !in c.finalizers {
      CalmServe(env, w);
      NextCall(env, w, Some(c));
      var w1 := w.(calls := w.calls + 1);
      assert GetClass(env, w) == Read(w1, Found(c));
      CalmServe(env, w1);
    }
  }

  /** What the pass holds suffices to publish without a conflict. */
  ghost predicate CanPublish(env: Environment, w: Cluster, lsc: LocalStorageClass) {
    && CalmFrom(env, w.calls) && !w.down && w.now.lsc.Some? && !lsc.terminating && SameSpec(lsc, w.now.lsc.value)
    && (Controller in lsc.finalizers || Undisturbed(env, w, Some(lsc)))
  }

  lemma CalmSucceeds(env: Environment, w: Cluster, lsc: LocalStorageClass)
    requires CanPublish(env, w, lsc)
    ensures var r := ReportSuccess(env, w, lsc);
            && !r.requeue && !r.failed && r.w.now.sc == w.now.sc
            && r.w.now.lsc.Some? && SameSpec(lsc, r.w.now.lsc.value) && ReadyIsCurrent(r.w.now.lsc.value)
            && CalmFrom(env, r.w.calls)
  {
    if Controller !in lsc.finalizers {
      CalmEnsureFinalizer(env, w, lsc);
    }
    var e := EnsureFinalizer(env, w, lsc);
    CalmServe(env, e.w);
  }

  lemma CalmCreateSc(env: Environment, w: Cluster, sc: StorageClass)
    requires CalmFrom(env, w.calls) && !w.down && w.now.sc.None?
    ensures var r := CreateSc(env, w, sc);
            && r.Accepted? && r.w.now.sc == Some(sc.(name := w.name, rv := w.nextRv)) && r.w.now.lsc == w.now.lsc
            && !r.w.down && CalmFrom(env, r.w.calls)
  {
    CalmServe(env, w);
  }

  /** No name occurs with nothing to say about its pool, and none twice. */
  lemma RenderedHasNoDiff(c: LocalStorageClass, sc: StorageClass, targets: seq<Target>, prefixes: seq<string>)
    requires c.lvm.Some? && DistinctNames(targets) && (c.lvm.value.lvmType == THIN ==> forall t :: t in targets ==> t.thin.Some?)
    requires var rendered := Configure(c, targets, prefixes).value;
             sc == rendered.(name := sc.name, rv := sc.rv, annotations := sc.annotations)
    ensures HasScDiff(sc, c, targets, prefixes) == Ok(false) && SameSettings(sc, c, prefixes)
    ensures sc.lvgs == Some(targets) && SameGroups(targets, targets, c.lvm.value.lvmType == THIN)
  {
    ConfiguredHasNoDiff(c, targets, prefixes, sc.annotations);
  }

  lemma DiffIgnoresStatus(sc: StorageClass, a: LocalStorageClass, b: LocalStorageClass, targets: seq<Target>, prefixes: seq<string>)
    requires SameSpec(a, b) && (sc.lvgs.Some? ==> a.lvm.Some?)
    ensures HasScDiff(sc, a, targets, prefixes) == HasScDiff(sc, b, targets, prefixes)
  {
  }

  /** The class is valid on these LVMVolumeGroups. */
  ghost predicate Workable(w: Cluster, inputs: Inputs) {
    && w.now.lsc.Some?
    && var c := w.now.lsc.value;
       var scs := if w.now.sc.Some? then [w.now.sc.value] else [];
       && c.name == w.name && !c.terminating
       && (w.now.sc.Some? ==> ScTame(w.name, w.now.sc.value))
       && EffectiveLvgs(c, inputs.lvgs).Ok? && IsValid(scs, c, inputs.lvgs, EffectiveLvgs(c, inputs.lvgs).value)
  }

  /** What StorageClass there is has parameters that parse, and does not hide a missing
      LVMVolumeGroup by naming another one twice. */
  ghost predicate Repairable(w: Cluster, inputs: Inputs)
    requires Workable(w, inputs)
  {
    var c := w.now.lsc.value;
    w.now.sc.Some? ==>
      && w.now.sc.value.lvgs.Some?
      && !HidesMissing(w.now.sc.value, c, EffectiveLvgs(c, inputs.lvgs).value, inputs.prefixes)
  }

  /** The StorageClass has the LVMVolumeGroups, pools, labels and cleanup method the class
      calls for, the controller sees no difference, and the Ready condition says so. */
  ghost predicate Settled(w: Cluster, inputs: Inputs) {
    && w.now.lsc.Some? && w.now.sc.Some?
    && var c, sc := w.now.lsc.value, w.now.sc.value;
       && sc.name == c.name && !c.terminating && Ours(sc) && c.lvm.Some? && sc.lvgs.Some?
       && EffectiveLvgs(c, inputs.lvgs).Ok?
       && SameSettings(sc, c, inputs.prefixes)
       && SameGroups(sc.lvgs.value, EffectiveLvgs(c, inputs.lvgs).value, c.lvm.value.lvmType == THIN)
       && HasScDiff(sc, c, EffectiveLvgs(c, inputs.lvgs).value, inputs.prefixes) == Ok(false)
       && ReadyIsCurrent(c)
  }

  /** The StorageClass is the one the class calls for in every field, with the annotations
      others had put on it before. */
  ghost predicate Rendered(w: Cluster, c: LocalStorageClass, annotations: Labels, inputs: Inputs) {
    && EffectiveLvgs(c, inputs.lvgs).Ok? && w.now.sc.Some? && w.now.sc.value.name == c.name
    && CalledFor(w.now.sc.value, c, EffectiveLvgs(c, inputs.lvgs).value, inputs.prefixes)
    && SameForeign(annotations, w.now.sc.value.annotations)
  }

  lemma CalmReads(env: Environment, w: Cluster)
    requires CalmFrom(env, w.calls) && w.now.lsc.Some?
    ensures var w1 := w.(down := false, calls := w.calls + 1, since := |w.past|);
            var w2, w3, w4 := w1.(calls := w.calls + 2), w1.(calls := w.calls + 3), w1.(calls := w.calls + 4);
            && OpenPass(env, w.(down := false)) == Read(w1, Found(w.now.lsc.value))
            && ListScs(env, w1) == Read(w2, Found(if w.now.sc.Some? then [w.now.sc.value] else []))
            && ReadOther(env, w2) == Read(w3, Found(true))
            && ReadOther(env, w3) == Read(w4, Found(true))
            && Undisturbed(env, w4, w.now.lsc)
  {
    var w0 := w.(down := false);
    CalmServe(env, w0);
    var w1 := w0.(calls := w.calls + 1, since := |w.past|);
    CalmServe(env, w1);
    CalmServe(env, w1.(calls := w.calls + 2));
    CalmServe(env, w1.(calls := w.calls + 3));
    var w4 := w1.(calls := w.calls + 4);
    assert At(w4, |w4.past|) == w.now;
  }

  /** A calm pass reads what is there and decides on it. */
  lemma CalmStart(env: Environment, w: Cluster, inputs: Inputs)
    requires CalmFrom(env, w.calls) && w.now.lsc.Some?
    ensures var scs := if w.now.sc.Some? then [w.now.sc.value] else [];
            var w3 := w.(down := false, calls := w.calls + 3, since := |w.past|);
            Pass(env, w, inputs) == RunEventReconcile(env, w3, scs, w.now.lsc.value, inputs.lvgs, inputs.prefixes)
  {
    CalmReads(env, w);
  }

  lemma CreatePassSettles(env: Environment, w: Cluster, lsc: LocalStorageClass, inputs: Inputs)
    requires Undisturbed(env, w, Some(lsc)) && w.now.sc.None? && !lsc.terminating && lsc.name == w.name
    requires EffectiveLvgs(lsc, inputs.lvgs).Ok? && IsValid([], lsc, inputs.lvgs, EffectiveLvgs(lsc, inputs.lvgs).value)
    ensures var r := CreatePass(env, w, [], lsc, inputs.lvgs, EffectiveLvgs(lsc, inputs.lvgs).value, inputs.prefixes);
            Settled(r.w, inputs) && Rendered(r.w, lsc, map[], inputs) && !r.failed && !r.requeue && CalmFrom(env, r.w.calls)
  {
    var targets := EffectiveLvgs(lsc, inputs.lvgs).value;
    CalmEnsureFinalizer(env, w, lsc);
    var e := EnsureFinalizer(env, w, lsc);
    ValidTargetsAreDistinct([], lsc, inputs.lvgs);
    assert IsValid([], e.lsc, inputs.lvgs, targets);
    var sc := Configure(e.lsc, targets, inputs.prefixes).value;
    assert sc == Configure(lsc, targets, inputs.prefixes).value;
    ConfiguredIsCalledFor(lsc, targets, inputs.prefixes);
    CalmCreateSc(env, e.w, sc);
    var created := CreateSc(env, e.w, sc);
    CalmSucceeds(env, created.w, e.lsc);
    var r := ReportSuccess(env, created.w, e.lsc);
    RenderedHasNoDiff(e.lsc, r.w.now.sc.value, targets, inputs.prefixes);
    DiffIgnoresStatus(r.w.now.sc.value, e.lsc, r.w.now.lsc.value, targets, inputs.prefixes);
  }

  lemma ValidPoolsKnown(sc: StorageClass, lsc: LocalStorageClass, lvgs: seq<VolumeGroup>, current: seq<Target>)
    requires EffectiveLvgs(lsc, lvgs).Ok? && IsValid([sc], lsc, lvgs, EffectiveLvgs(lsc, lvgs).value)
    ensures var targets, thin := EffectiveLvgs(lsc, lvgs).value, lsc.lvm.value.lvmType == THIN;
            && DistinctNames(targets) && PoolsKnown(current, ByName(targets), thin)
            && (thin ==> forall t :: t in targets ==> t.thin.Some?)
  {
    ValidTargetsAreDistinct([sc], lsc, lvgs);
    EffectivePoolsKnown(current, EffectiveLvgs(lsc, lvgs).value, lsc.lvm.value.lvmType == THIN);
  }

  /** What the update pass does is decided by the difference alone. */
  lemma UpdatePassRepairs(env: Environment, w: Cluster, lsc: LocalStorageClass, sc: StorageClass, inputs: Inputs)
    requires Undisturbed(env, w, Some(lsc)) && w.since == |w.past| && w.now.sc == Some(sc) && ScTame(w.name, sc)
    requires !lsc.terminating && lsc.name == w.name && EffectiveLvgs(lsc, inputs.lvgs).Ok?
    requires IsValid([sc], lsc, inputs.lvgs, EffectiveLvgs(lsc, inputs.lvgs).value)
    requires HasScDiff(sc, lsc, EffectiveLvgs(lsc, inputs.lvgs).value, inputs.prefixes) == Ok(true)
    ensures var r := UpdatePass(env, w, [sc], lsc, inputs.lvgs, EffectiveLvgs(lsc, inputs.lvgs).value, inputs.prefixes);
            Settled(r.w, inputs) && Rendered(r.w, lsc, sc.annotations, inputs) && !r.failed && !r.requeue && CalmFrom(env, r.w.calls)
  {
    assert sc in [sc] && Ours(sc);
    ValidPoolsKnown(sc, lsc, inputs.lvgs, []);
    CalmRecreateSettles(env, w, lsc, sc, EffectiveLvgs(lsc, inputs.lvgs).value, inputs);
  }

  lemma UpdatePassReports(env: Environment, w: Cluster, lsc: LocalStorageClass, sc: StorageClass, inputs: Inputs)
    requires Undisturbed(env, w, Some(lsc)) && w.now.sc == Some(sc) && sc.name == lsc.name && !lsc.terminating
    requires EffectiveLvgs(lsc, inputs.lvgs).Ok? && IsValid([sc], lsc, inputs.lvgs, EffectiveLvgs(lsc, inputs.lvgs).value)
    requires HasScDiff(sc, lsc, EffectiveLvgs(lsc, inputs.lvgs).value, inputs.prefixes) == Ok(false)
    ensures var r := UpdatePass(env, w, [sc], lsc, inputs.lvgs, EffectiveLvgs(lsc, inputs.lvgs).value, inputs.prefixes);
            && r.w.now.sc == Some(sc) && r.w.now.lsc.Some? && SameSpec(lsc, r.w.now.lsc.value) && ReadyIsCurrent(r.w.now.lsc.value)
            && !r.failed && !r.requeue && CalmFrom(env, r.w.calls)
  {
    assert At(w, |w.past|) == w.now;
    CalmSucceeds(env, w, lsc);
  }

  lemma CalmRecreate(env: Environment, w: Cluster, lsc: LocalStorageClass, existing: StorageClass, replacement: StorageClass)
    requires Undisturbed(env, w, Some(lsc)) && w.since == |w.past| && w.now.sc == Some(existing) && Ours(existing) && ScTame(w.name, existing)
    ensures var r := Recreate(env, w, existing, replacement);
            && r.Accepted? && Undisturbed(env, r.w, Some(lsc))
            && r.w.now.sc.Some? && r.w.now.sc.value == replacement.(name := w.name, rv := r.w.now.sc.value.rv)
  {
    CalmDeleteManaged(env, w, Some(lsc), existing);
    var deleted := DeleteManaged(env, w, existing);
    assert At(deleted.w, |deleted.w.past|) == deleted.w.now;
    CalmServe(env, deleted.w);
    NextCall(env, deleted.w, Some(lsc));
    var d1 := deleted.w.(calls := deleted.w.calls + 1);
    PushSc(env, d1, Some(lsc), Some(replacement.(name := w.name, rv := d1.nextRv)));
  }

  lemma CalmRecreateSettles(env: Environment, w: Cluster, lsc: LocalStorageClass, sc: StorageClass, targets: seq<Target>, inputs: Inputs)
    requires Undisturbed(env, w, Some(lsc)) && w.since == |w.past| && w.now.sc == Some(sc) && Ours(sc) && ScTame(w.name, sc)
    requires !lsc.terminating && lsc.name == w.name && lsc.lvm.Some? && EffectiveLvgs(lsc, inputs.lvgs) == Ok(targets)
    requires DistinctNames(targets) && (lsc.lvm.value.lvmType == THIN ==> forall t :: t in targets ==> t.thin.Some?)
    ensures var replacement := Reconfigure(lsc, sc, targets, inputs.prefixes).value;
            var recreated := Recreate(env, w, sc, replacement);
            var r := ReportSuccess(env, recreated.w, lsc);
            recreated.Accepted? && Settled(r.w, inputs) && Rendered(r.w, lsc, sc.annotations, inputs) && !r.failed && !r.requeue && CalmFrom(env, r.w.calls)
  {
    var replacement := Reconfigure(lsc, sc, targets, inputs.prefixes).value;
    ConfiguredIsCalledFor(lsc, targets, inputs.prefixes);
    AnnotationsSurvive(lsc, sc, targets, inputs.prefixes);
    CalmRecreate(env, w, lsc, sc, replacement);
    var recreated := Recreate(env, w, sc, replacement);
    assert At(recreated.w, |recreated.w.past|) == recreated.w.now;
    CalmSucceeds(env, recreated.w, lsc);
    var stored := recreated.w.now.sc.value;
    RenderedHasNoDiff(lsc, stored, targets, inputs.prefixes);
    DiffIgnoresStatus(stored, lsc, ReportSuccess(env, recreated.w, lsc).w.now.lsc.value, targets, inputs.prefixes);
  }

  /** Where the controller sees no difference, a pass leaves the StorageClass exactly as it
      is - also in the fields it does not compare - and reports it ready. */
  lemma NoDifferenceNoRepair(env: Environment, w: Cluster, inputs: Inputs)
    requires CalmFrom(env, w.calls) && Workable(w, inputs) && w.now.sc.Some?
    requires var c := w.now.lsc.value;
             HasScDiff(w.now.sc.value, c, EffectiveLvgs(c, inputs.lvgs).value, inputs.prefixes) == Ok(false)
    ensures var r := Pass(env, w, inputs);
            && r.w.now.sc == w.now.sc && r.w.now.lsc.Some? && SameSpec(w.now.lsc.value, r.w.now.lsc.value)
            && ReadyIsCurrent(r.w.now.lsc.value) && !r.failed && !r.requeue && CalmFrom(env, r.w.calls)
  {
    CalmStart(env, w, inputs);
    CalmReads(env, w);
    var c, sc := w.now.lsc.value, w.now.sc.value;
    var w3 := w.(down := false, calls := w.calls + 3, since := |w.past|);
    assert sc in [sc];
    PresentIsUpdated(env, w3, c, sc, inputs);
    UpdatePassReports(env, ReadOther(env, w3).w, c, sc, inputs);
  }

  /** Where it sees one, or there is no StorageClass, a pass puts the one there that the class
      calls for - also in the fields it does not compare - and reports it ready. */
  lemma DifferenceIsRepaired(env: Environment, w: Cluster, inputs: Inputs)
    requires CalmFrom(env, w.calls) && Workable(w, inputs)
    requires w.now.sc.Some? ==>
               var c := w.now.lsc.value;
               HasScDiff(w.now.sc.value, c, EffectiveLvgs(c, inputs.lvgs).value, inputs.prefixes) == Ok(true)
    ensures var r := Pass(env, w, inputs);
            && Settled(r.w, inputs) && !r.failed && !r.requeue && CalmFrom(env, r.w.calls)
            && Rendered(r.w, w.now.lsc.value, if w.now.sc.Some? then w.now.sc.value.annotations else map[], inputs)
  {
    CalmStart(env, w, inputs);
    CalmReads(env, w);
    var c := w.now.lsc.value;
    var w3 := w.(down := false, calls := w.calls + 3, since := |w.past|);
    if w.now.sc.None? {
      AbsentIsCreated(env, w3, c, inputs);
      CreatePassSettles(env, ReadOther(env, w3).w, c, inputs);
    } else {
      var sc := w.now.sc.value;
      assert sc in [sc];
      PresentIsUpdated(env, w3, c, sc, inputs);
      UpdatePassRepairs(env, ReadOther(env, w3).w, c, sc, inputs);
    }
  }

  /** Seeing no difference means there is none - unless a repeated name hides one. */
  lemma UnseenMeansSame(sc: StorageClass, c: LocalStorageClass, targets: seq<Target>, prefixes: seq<string>)
    requires c.lvm.Some? && sc.lvgs.Some? && DistinctNames(targets)
    requires PoolsKnown(sc.lvgs.value, ByName(targets), c.lvm.value.lvmType == THIN)
    ensures HasScDiff(sc, c, targets, prefixes).Ok?
    ensures HasScDiff(sc, c, targets, prefixes) == Ok(false) ==>
              SameSettings(sc, c, prefixes)
              && (SameGroups(sc.lvgs.value, targets, c.lvm.value.lvmType == THIN) <==> !HidesMissing(sc, c, targets, prefixes))
    ensures HidesMissing(sc, c, targets, prefixes) ==> HasScDiff(sc, c, targets, prefixes) == Ok(false)
  {
    DiffIsInclusion(sc, c, targets, prefixes);
    if |sc.lvgs.value| == |targets| {
      SameGroupsBoundary(sc.lvgs.value, targets, c.lvm.value.lvmType == THIN);
    }
  }

  /** Over a valid class one undisturbed pass reaches a settled state exactly if there is
      no StorageClass yet, or its parameters parse and hide no missing LVMVolumeGroup
      behind a repeated one. */
  lemma SelfStabilises(env: Environment, w: Cluster, inputs: Inputs)
    requires CalmFrom(env, w.calls) && Workable(w, inputs)
    ensures var r := Pass(env, w, inputs);
            && (Settled(r.w, inputs) <==> Repairable(w, inputs))
            && (Repairable(w, inputs) ==> !r.failed && !r.requeue && CalmFrom(env, r.w.calls))
            && (r.w.now.sc == w.now.sc
                || Rendered(r.w, w.now.lsc.value, if w.now.sc.Some? then w.now.sc.value.annotations else map[], inputs))
            && (w.now.sc.None? ==> Rendered(r.w, w.now.lsc.value, map[], inputs))
  {
    var c := w.now.lsc.value;
    var targets := EffectiveLvgs(c, inputs.lvgs).value;
    if w.now.sc.None? {
      DifferenceIsRepaired(env, w, inputs);
    } else {
      var sc := w.now.sc.value;
      assert sc in [sc] && Ours(sc);
      if sc.lvgs.None? {
        UnparsableNeverHeals(env, w, inputs);
      } else {
        ValidPoolsKnown(sc, c, inputs.lvgs, sc.lvgs.value);
        UnseenMeansSame(sc, c, targets, inputs.prefixes);
        if HasScDiff(sc, c, targets, inputs.prefixes).value {
          assert HasScDiff(sc, c, targets, inputs.prefixes) == Ok(true);
          DifferenceIsRepaired(env, w, inputs);
        } else {
          assert HasScDiff(sc, c, targets, inputs.prefixes) == Ok(false);
          NoDifferenceNoRepair(env, w, inputs);
          DiffIgnoresStatus(sc, c, Pass(env, w, inputs).w.now.lsc.value, targets, inputs.prefixes);
        }
      }
    }
  }

  /** The StorageClass names one LVMVolumeGroup twice and hides that another is missing. */
  ghost predicate Hiding(w: Cluster, inputs: Inputs) {
    && w.now.lsc.Some? && w.now.lsc.value.lvm.Some? && w.now.sc.Some? && w.now.sc.value.lvgs.Some?
    && EffectiveLvgs(w.now.lsc.value, inputs.lvgs).Ok?
    && HidesMissing(w.now.sc.value, w.now.lsc.value, EffectiveLvgs(w.now.lsc.value, inputs.lvgs).value, inputs.prefixes)
  }

  /** A hidden LVMVolumeGroup stays missing: every pass reports success, changes nothing
      about the StorageClass, and leaves it hidden. */
  lemma RepetitionNeverHeals(env: Environment, w: Cluster, inputs: Inputs)
    requires CalmFrom(env, w.calls) && Workable(w, inputs) && Hiding(w, inputs)
    ensures var r := Pass(env, w, inputs);
            r.w.now.sc == w.now.sc && !r.failed && !r.requeue && Hiding(r.w, inputs) && !Settled(r.w, inputs)
  {
    var c, sc := w.now.lsc.value, w.now.sc.value;
    assert sc in [sc];
    ValidPoolsKnown(sc, c, inputs.lvgs, sc.lvgs.value);
    UnseenMeansSame(sc, c, EffectiveLvgs(c, inputs.lvgs).value, inputs.prefixes);
    NoDifferenceNoRepair(env, w, inputs);
  }

  /** A Ready condition about an earlier generation is not taken for one about this: also
      where nothing differs the pass writes it anew. */
  lemma StaleReadyIsRenewed(env: Environment, w: Cluster, inputs: Inputs)
    requires CalmFrom(env, w.calls) && Workable(w, inputs) && w.now.sc.Some?
    requires var c := w.now.lsc.value;
             && HasScDiff(w.now.sc.value, c, EffectiveLvgs(c, inputs.lvgs).value, inputs.prefixes) == Ok(false)
             && (c.status.None? || c.status.value.ready.None? || !c.status.value.ready.value.ok
                 || c.status.value.ready.value.observedGeneration < c.generation)
    ensures var r, c := Pass(env, w, inputs), w.now.lsc.value;
            r.w.now.lsc.Some? && r.w.now.lsc.value.status == Some(Status(Created, Some(Condition(true, c.generation))))
  {
    CalmStart(env, w, inputs);
    CalmReads(env, w);
    var c, sc := w.now.lsc.value, w.now.sc.value;
    var w3 := w.(down := false, calls := w.calls + 3, since := |w.past|);
    assert sc in [sc];
    PresentIsUpdated(env, w3, c, sc, inputs);
    var w4 := ReadOther(env, w3).w;
    assert At(w4, |w4.past|) == w4.now;
    if Controller !in c.finalizers {
      CalmEnsureFinalizer(env, w4, c);
    }
    CalmServe(env, EnsureFinalizer(env, w4, c).w);
  }

  lemma AbsentIsCreated(env: Environment, w: Cluster, c: LocalStorageClass, inputs: Inputs)
    requires ReadOther(env, w).reply.Found? && !c.terminating && EffectiveLvgs(c, inputs.lvgs).Ok?
    ensures RunEventReconcile(env, w, [], c, inputs.lvgs, inputs.prefixes)
         == CreatePass(env, ReadOther(env, w).w, [], c, inputs.lvgs, EffectiveLvgs(c, inputs.lvgs).value, inputs.prefixes)
  {
  }

  lemma PresentIsUpdated(env: Environment, w: Cluster, c: LocalStorageClass, sc: StorageClass, inputs: Inputs)
    requires ReadOther(env, w).reply.Found? && !c.terminating && c.lvm.Some? && EffectiveLvgs(c, inputs.lvgs).Ok?
    requires Ours(sc) && sc.name == c.name
    requires HasScDiff(sc, c, EffectiveLvgs(c, inputs.lvgs).value, inputs.prefixes).Ok?
    ensures var w', targets := ReadOther(env, w).w, EffectiveLvgs(c, inputs.lvgs).value;
            var next := if HasScDiff(sc, c, targets, inputs.prefixes).value || !ReadyIsCurrent(c)
                        then UpdatePass(env, w', [sc], c, inputs.lvgs, targets, inputs.prefixes) else Outcome(w', false, false);
            RunEventReconcile(env, w, [sc], c, inputs.lvgs, inputs.prefixes) == next
  {
    assert FindSc([sc], c.name) == Some(sc);
  }

  lemma CalmFails(env: Environment, w: Cluster, lsc: LocalStorageClass)
    requires CanPublish(env, w, lsc)
    ensures var r := ReportFailure(env, w, lsc);
            && r.failed && r.requeue && r.w.now.sc == w.now.sc && r.w.now.lsc.Some? && SameSpec(lsc, r.w.now.lsc.value)
            && r.w.now.lsc.value.status == Some(Status(Failed, Some(Condition(false, lsc.generation))))
  {
    if Controller !in lsc.finalizers {
      CalmEnsureFinalizer(env, w, lsc);
    }
    CalmServe(env, EnsureFinalizer(env, w, lsc).w);
  }

  /** An invalid class without a StorageClass gets none: the pass reports the failure, for
      the generation it looked at, and asks to come back. */
  lemma InvalidIsReported(env: Environment, w: Cluster, inputs: Inputs)
    requires CalmFrom(env, w.calls) && w.now.lsc.Some? && w.now.sc.None? && !w.now.lsc.value.terminating
    requires var c := w.now.lsc.value;
             EffectiveLvgs(c, inputs.lvgs).Ok? && !IsValid([], c, inputs.lvgs, EffectiveLvgs(c, inputs.lvgs).value)
    ensures var c, r := w.now.lsc.value, Pass(env, w, inputs);
            && r.failed && r.requeue && r.w.now.sc == None && r.w.now.lsc.Some?
            && r.w.now.lsc.value.status == Some(Status(Failed, Some(Condition(false, c.generation))))
  {
    CalmStart(env, w, inputs);
    CalmReads(env, w);
    var c := w.now.lsc.value;
    var w3 := w.(down := false, calls := w.calls + 3, since := |w.past|);
    var w4 := ReadOther(env, w3).w;
    AbsentIsCreated(env, w3, c, inputs);
    CalmEnsureFinalizer(env, w4, c);
    var e := EnsureFinalizer(env, w4, c);
    SameVerdict(c, e.lsc, inputs.lvgs, EffectiveLvgs(c, inputs.lvgs).value);
    CalmFails(env, e.w, e.lsc);
  }

  lemma SameVerdict(a: LocalStorageClass, b: LocalStorageClass, lvgs: seq<VolumeGroup>, targets: seq<Target>)
    requires SameSpec(a, b)
    ensures IsValid([], a, lvgs, targets) <==> IsValid([], b, lvgs, targets)
  {
  }

  /** ... where further passes write nothing. */
  lemma SettledIsStable(env: Environment, w: Cluster, inputs: Inputs)
    requires CalmFrom(env, w.calls) && Settled(w, inputs)
    ensures var r := Pass(env, w, inputs); r.w.past == w.past && r.w.now == w.now && !r.failed && !r.requeue
  {
    CalmStart(env, w, inputs);
    CalmReads(env, w);
  }

  /** Parameters that do not parse are never repaired: every pass fails and leaves them. */
  lemma UnparsableNeverHeals(env: Environment, w: Cluster, inputs: Inputs)
    requires CalmFrom(env, w.calls) && w.now.lsc.Some? && !w.now.lsc.value.terminating && w.now.lsc.value.name == w.name
    requires w.now.sc.Some? && Ours(w.now.sc.value) && w.now.sc.value.name == w.name && w.now.sc.value.lvgs.None?
    ensures var r := Pass(env, w, inputs); r.failed && r.w.now.sc == w.now.sc
  {
    CalmStart(env, w, inputs);
    CalmReads(env, w);
    var c := w.now.lsc.value;
    var w4 := w.(down := false, calls := w.calls + 4, since := |w.past|);
    CalmEnsureFinalizer(env, w4, c);
    CalmServe(env, EnsureFinalizer(env, w4, c).w);
  }

  /** After any run at all: once undisturbed, one pass settles a valid class and the next
      writes nothing. */
  lemma SettlesAfterAnyRun(env: Environment, w: Cluster, passes: seq<Inputs>, inputs: Inputs)
    requires Initial(w) && CalmFrom(env, Run(env, w, passes).calls)
    requires var r := Run(env, w, passes);
             && r.now.lsc.Some? && !r.now.lsc.value.terminating
             && EffectiveLvgs(r.now.lsc.value, inputs.lvgs).Ok?
             && IsValid(if r.now.sc.Some? then [r.now.sc.value] else [], r.now.lsc.value, inputs.lvgs,
                        EffectiveLvgs(r.now.lsc.value, inputs.lvgs).value)
    ensures var once := Pass(env, Run(env, w, passes), inputs);
            var twice := Pass(env, once.w, inputs);
            Settled(once.w, inputs) && twice.w.past == once.w.past && twice.w.now == once.w.now
  {
    var r := Run(env, w, passes);
    RunGood(env, w, passes);
    NowIsSound(r);
    DistinctHidesNothing(r, inputs);
    SelfStabilises(env, r, inputs);
    SettledIsStable(env, Pass(env, r, inputs).w, inputs);
  }

  lemma DistinctHidesNothing(w: Cluster, inputs: Inputs)
    requires Workable(w, inputs) && (w.now.sc.Some? ==> ScOk(w.name, w.now.sc.value))
    ensures Repairable(w, inputs)
  {
    if w.now.sc.Some? {
      assert w.now.sc.value in [w.now.sc.value];
    }
  }
}
