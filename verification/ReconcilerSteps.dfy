/**
  The LocalStorageClass controller's single calls, and what each of them tells: nothing, or
  that the class is ready, or a StorageClass it puts there.
  */
module ReconcilerSteps {
  import opened Wrappers
  import opened Names
  import opened LocalStorage
  import opened LvgResolution
  import opened StorageClasses
  import opened ScComparison
  import opened Validation
  import opened ClassServer
  import opened ClassReconciler
  import opened ReconcilerSafety
  import opened ReconcilerProgress

  // ------------------------------------------------------------- what a step may tell

  predicate SaysReady(v: View) {
    v.lsc.Some? && v.lsc.value.status.Some? && v.lsc.value.status.value.ready.Some? && v.lsc.value.status.value.ready.value.ok
  }

  function StatusOf(v: View): Option<Status> {
    if v.lsc.Some? then v.lsc.value.status else None
  }

  /** The controller writes that the class is ready. */
  predicate TurnsReady(before: View, after: View) {
    after.actor == Us && SaysReady(after) && StatusOf(after) != StatusOf(before)
  }

  /** The controller puts a StorageClass there. */
  predicate Creates(before: View, after: View) {
    after.actor == Us && before.sc.None? && after.sc.Some?
  }

  /** A StorageClass of this provisioner that shows no difference to the class. */
  ghost predicate Backed(v: View, c: LocalStorageClass, inputs: Inputs) {
    && Managed(v) && EffectiveLvgs(c, inputs.lvgs).Ok? && (v.sc.value.lvgs.Some? ==> c.lvm.Some?)
    && HasScDiff(v.sc.value, c, EffectiveLvgs(c, inputs.lvgs).value, inputs.prefixes) == Ok(false)
  }

  /** The StorageClass the class calls for in every field, over exactly the LVMVolumeGroups
      its entries ask for. */
  ghost predicate Answers(sc: StorageClass, c: LocalStorageClass, inputs: Inputs) {
    && sc.lvgs.Some? && CalledFor(sc, c, sc.lvgs.value, inputs.prefixes)
    && StrictlySorted(sc.lvgs.value) && forall t :: t in sc.lvgs.value <==> Asks(c, inputs.lvgs, t)
  }

  ghost predicate CalledForBy(v: View, c: LocalStorageClass, inputs: Inputs) {
    v.sc.Some? && Answers(v.sc.value, c, inputs)
  }

  /** The step after state number i. */
  ghost predicate Truthful(w: Cluster, i: nat, c: LocalStorageClass, inputs: Inputs)
    requires i < |w.past|
  {
    && (TurnsReady(At(w, i), At(w, i + 1)) ==> Backed(At(w, i + 1), c, inputs))
    && (Creates(At(w, i), At(w, i + 1)) ==> CalledForBy(At(w, i + 1), c, inputs))
  }

  ghost predicate Tacit(w: Cluster, i: nat)
    requires i < |w.past|
  {
    !TurnsReady(At(w, i), At(w, i + 1)) && !Creates(At(w, i), At(w, i + 1))
  }

  ghost predicate Extends(w: Cluster, w': Cluster) {
    && w'.since == w.since && w'.name == w.name && |w.past| <= |w'.past|
    && forall i :: 0 <= i <= |w.past| ==> At(w', i) == At(w, i)
  }

  /** From w to w' the controller tells nothing but the truth about c. */
  ghost predicate Honest(w: Cluster, w': Cluster, c: LocalStorageClass, inputs: Inputs) {
    Extends(w, w') && forall i :: |w.past| <= i < |w'.past| ==> Truthful(w', i, c, inputs)
  }

  /** ... tells nothing. */
  ghost predicate Silent(w: Cluster, w': Cluster) {
    Extends(w, w') && forall i :: |w.past| <= i < |w'.past| ==> Tacit(w', i)
  }

  /** ... and leaves the StorageClass of this provisioner as it is. */
  ghost predicate Idle(w: Cluster, w': Cluster) {
    Silent(w, w') && (Managed(w.now) ==> w'.now.sc == w.now.sc)
  }

  lemma SilentIsHonest(w: Cluster, w': Cluster, c: LocalStorageClass, inputs: Inputs)
    requires Silent(w, w')
    ensures Honest(w, w', c, inputs)
  {
    forall i | |w.past| <= i < |w'.past| ensures Truthful(w', i, c, inputs) {
      assert Tacit(w', i);
    }
  }

  lemma ExtendsNow(w: Cluster, w': Cluster)
    requires Extends(w, w')
    ensures At(w', |w.past|) == w.now
  {
    assert At(w, |w.past|) == w.now;
  }

  lemma SilentThen(w: Cluster, w1: Cluster, w2: Cluster)
    requires Silent(w, w1) && Silent(w1, w2)
    ensures Silent(w, w2)
  {
    forall i | 0 <= i <= |w.past| ensures At(w2, i) == At(w, i) {
      assert At(w1, i) == At(w, i);
    }
    forall i | |w.past| <= i < |w2.past| ensures Tacit(w2, i) {
      if i < |w1.past| {
        assert Tacit(w1, i) && At(w2, i) == At(w1, i) && At(w2, i + 1) == At(w1, i + 1);
      }
    }
  }

  lemma HonestThen(w: Cluster, w1: Cluster, w2: Cluster, c: LocalStorageClass, inputs: Inputs)
    requires Honest(w, w1, c, inputs) && Honest(w1, w2, c, inputs)
    ensures Honest(w, w2, c, inputs)
  {
    forall i | 0 <= i <= |w.past| ensures At(w2, i) == At(w, i) {
      assert At(w1, i) == At(w, i);
    }
    forall i | |w.past| <= i < |w2.past| ensures Truthful(w2, i, c, inputs) {
      if i < |w1.past| {
        assert Truthful(w1, i, c, inputs) && At(w2, i) == At(w1, i) && At(w2, i + 1) == At(w1, i + 1);
      }
    }
  }

  /** Flags aside, nothing happened. */
  lemma SameIsIdle(w: Cluster, w': Cluster)
    requires w'.past == w.past && w'.now == w.now && w'.since == w.since && w'.name == w.name
    ensures Idle(w, w')
  {
  }

  lemma PushExtends(w: Cluster, actor: Actor, lsc: Option<LocalStorageClass>, sc: Option<StorageClass>)
    ensures var w' := Push(w, actor, lsc, sc);
            Extends(w, w') && At(w', |w.past|) == w.now && At(w', |w'.past|) == w'.now && |w'.past| == |w.past| + 1
  {
  }

  lemma PushSilent(w: Cluster, actor: Actor, lsc: Option<LocalStorageClass>, sc: Option<StorageClass>)
    requires var v := View(actor, lsc, sc); !TurnsReady(w.now, v) && !Creates(w.now, v)
    ensures Silent(w, Push(w, actor, lsc, sc))
  {
    PushExtends(w, actor, lsc, sc);
    assert Tacit(Push(w, actor, lsc, sc), |w.past|);
  }

  lemma PushHonest(w: Cluster, lsc: Option<LocalStorageClass>, sc: Option<StorageClass>, c: LocalStorageClass, inputs: Inputs)
    requires var v := View(Us, lsc, sc);
             (TurnsReady(w.now, v) ==> Backed(v, c, inputs)) && (Creates(w.now, v) ==> CalledForBy(v, c, inputs))
    ensures Honest(w, Push(w, Us, lsc, sc), c, inputs)
  {
    PushExtends(w, Us, lsc, sc);
    assert Truthful(Push(w, Us, lsc, sc), |w.past|, c, inputs);
  }

  // ------------------------------------------------------------------- other parties

  lemma ApplyIdle(w: Cluster, x: Write)
    ensures Idle(w, Apply(w, x))
  {
    var w' := Apply(w, x);
    if w'.past == w.past {
      SameIsIdle(w, w');
    } else {
      PushSilent(w, Others, w'.now.lsc, w'.now.sc);
    }
  }

  lemma {:induction false} ApplyAllIdle(w: Cluster, xs: seq<Write>)
    ensures Idle(w, ApplyAll(w, xs))
    decreases |xs|
  {
    if xs == [] {
      SameIsIdle(w, w);
    } else {
      ApplyIdle(w, xs[0]);
      ApplyAllIdle(Apply(w, xs[0]), xs[1..]);
      SilentThen(w, Apply(w, xs[0]), ApplyAll(w, xs));
    }
  }

  lemma TurnIdle(env: Environment, w: Cluster)
    ensures Idle(w, Turn(env, w))
  {
    ApplyAllIdle(w, env(w.calls).writes);
    var w1 := ApplyAll(w, env(w.calls).writes);
    SameIsIdle(w1, Turn(env, w));
    SilentThen(w, w1, Turn(env, w));
  }

  lemma ServeIdle(env: Environment, w: Cluster)
    ensures Idle(w, Serve(env, w))
  {
    SameIsIdle(w, w);
    if !w.down {
      TurnIdle(env, w);
      SameIsIdle(Turn(env, w), Serve(env, w));
      SilentThen(w, Turn(env, w), Serve(env, w));
    }
  }

  // ------------------------------------------------------------------ the controller

  /** A call that lands, fails or crashes around what the server does with it. */
  lemma AnswerSilent(w: Cluster, t: Cluster, f: Fault, served: Written)
    requires Silent(w, t) && Silent(t, served.w)
    ensures Silent(w, Answer(f, served).w)
  {
    SameIsIdle(served.w, Answer(f, served).w);
    SilentThen(w, t, served.w);
    SilentThen(w, served.w, Answer(f, served).w);
  }

  lemma UpdateClassIdle(env: Environment, w: Cluster, base: LocalStorageClass, finalizers: seq<Holder>)
    ensures Idle(w, UpdateClass(env, w, base, finalizers).w)
  {
    SameIsIdle(w, w);
    if !w.down {
      TurnIdle(env, w);
      var t, f := Turn(env, w), env(w.calls).fault;
      var r := if Lands(f) then StoreClass(t, base, finalizers) else Refused(t, false);
      SameIsIdle(t, t);
      if r.w.past != t.past {
        PushSilent(t, Us, r.w.now.lsc, r.w.now.sc);
      }
      AnswerSilent(w, t, f, r);
    }
  }

  lemma UpdateScSilent(env: Environment, w: Cluster, base: StorageClass, finalizers: seq<Holder>)
    ensures Silent(w, UpdateSc(env, w, base, finalizers).w)
  {
    SameIsIdle(w, w);
    if !w.down {
      TurnIdle(env, w);
      var t, f := Turn(env, w), env(w.calls).fault;
      var r := if Lands(f) then StoreSc(t, base, finalizers) else Refused(t, false);
      SameIsIdle(t, t);
      if r.w.past != t.past {
        PushSilent(t, Us, r.w.now.lsc, r.w.now.sc);
      }
      AnswerSilent(w, t, f, r);
    }
  }

  lemma DeleteScSilent(env: Environment, w: Cluster)
    ensures Silent(w, DeleteSc(env, w).w)
  {
    SameIsIdle(w, w);
    if !w.down {
      TurnIdle(env, w);
      var t, f := Turn(env, w), env(w.calls).fault;
      var r := if Lands(f) then RemoveSc(t) else Refused(t, false);
      SameIsIdle(t, t);
      if r.w.past != t.past {
        PushSilent(t, Us, r.w.now.lsc, r.w.now.sc);
      }
      AnswerSilent(w, t, f, r);
    }
  }

  lemma {:induction false} AddFinalizerIdle(env: Environment, w: Cluster, lsc: LocalStorageClass, attempts: nat)
    requires attempts > 0
    ensures Idle(w, AddFinalizer(env, w, lsc, attempts).w)
    decreases attempts
  {
    ServeIdle(env, w);
    var got := GetClass(env, w);
    if got.reply.Found? {
      var live := got.reply.value;
      if !live.terminating && Controller !in live.finalizers {
        UpdateClassIdle(env, got.w, live, live.finalizers + [Controller]);
        var updated := UpdateClass(env, got.w, live, live.finalizers + [Controller]);
        SilentThen(w, got.w, updated.w);
        if updated.Refused? && updated.conflict && attempts > 1 {
          AddFinalizerIdle(env, updated.w, lsc, attempts - 1);
          SilentThen(w, updated.w, AddFinalizer(env, updated.w, lsc, attempts - 1).w);
        }
      }
    }
  }

  lemma EnsureFinalizerIdle(env: Environment, w: Cluster, lsc: LocalStorageClass)
    ensures Idle(w, EnsureFinalizer(env, w, lsc).w)
  {
    SameIsIdle(w, w);
    AddFinalizerIdle(env, w, lsc, ATTEMPTS);
  }

  lemma {:induction false} ReleaseScSilent(env: Environment, w: Cluster, attempts: nat)
    requires attempts > 0
    ensures Silent(w, ReleaseSc(env, w, attempts).w)
    decreases attempts
  {
    ServeIdle(env, w);
    var got := GetSc(env, w);
    if got.reply.Found? && Kept(got.reply.value.finalizers) != got.reply.value.finalizers {
      var live := got.reply.value;
      UpdateScSilent(env, got.w, live, Kept(live.finalizers));
      var updated := UpdateSc(env, got.w, live, Kept(live.finalizers));
      SilentThen(w, got.w, updated.w);
      if updated.Refused? && updated.conflict && attempts > 1 {
        ReleaseScSilent(env, updated.w, attempts - 1);
        SilentThen(w, updated.w, ReleaseSc(env, updated.w, attempts - 1).w);
      }
    }
  }

  lemma {:induction false} ReleaseClassSilent(env: Environment, w: Cluster, attempts: nat)
    requires attempts > 0
    ensures Silent(w, ReleaseClass(env, w, attempts).w)
    decreases attempts
  {
    ServeIdle(env, w);
    var got := GetClass(env, w);
    if got.reply.Found? && Kept(got.reply.value.finalizers) != got.reply.value.finalizers {
      var live := got.reply.value;
      UpdateClassIdle(env, got.w, live, Kept(live.finalizers));
      var updated := UpdateClass(env, got.w, live, Kept(live.finalizers));
      SilentThen(w, got.w, updated.w);
      if updated.Refused? && updated.conflict && attempts > 1 {
        ReleaseClassSilent(env, updated.w, attempts - 1);
        SilentThen(w, updated.w, ReleaseClass(env, updated.w, attempts - 1).w);
      }
    }
  }

  lemma StoreStatusHonest(w: Cluster, phase: Option<Phase>, ready: Condition, c: LocalStorageClass, inputs: Inputs)
    requires ready.ok ==> Backed(w.now, c, inputs)
    ensures var r := StoreStatus(w, phase, ready);
            && Honest(w, r.w, c, inputs) && (!ready.ok ==> Silent(w, r.w)) && r.w.now.sc == w.now.sc
  {
    SameIsIdle(w, w);
    SilentIsHonest(w, w, c, inputs);
    var r := StoreStatus(w, phase, ready);
    if r.w.past != w.past {
      PushHonest(w, r.w.now.lsc, r.w.now.sc, c, inputs);
      if !ready.ok {
        PushSilent(w, Us, r.w.now.lsc, r.w.now.sc);
      }
    }
  }

  lemma WriteStatusHonest(env: Environment, w: Cluster, phase: Option<Phase>, ready: Condition, c: LocalStorageClass, inputs: Inputs)
    requires ready.ok ==> Backed(w.now, c, inputs)
    ensures var r := WriteStatus(env, w, phase, ready);
            && Honest(w, r.w, c, inputs) && (!ready.ok ==> Silent(w, r.w))
            && (Managed(w.now) ==> r.w.now.sc == w.now.sc)
            && (r.Accepted? ==> r.w.now.lsc.Some? && r.w.now.lsc.value.status.Some?
                                && r.w.now.lsc.value.status.value.ready == Some(ready)
                                && (phase.Some? ==> r.w.now.lsc.value.status.value.phase == phase.value))
  {
    SameIsIdle(w, w);
    SilentIsHonest(w, w, c, inputs);
    if !w.down {
      TurnIdle(env, w);
      var t, f := Turn(env, w), env(w.calls).fault;
      SilentIsHonest(w, t, c, inputs);
      StoreStatusHonest(t, phase, ready, c, inputs);
      SameIsIdle(t, t);
      SilentIsHonest(t, t, c, inputs);
      var r := if Lands(f) then StoreStatus(t, phase, ready) else Refused(t, false);
      SameIsIdle(r.w, Answer(f, r).w);
      SilentIsHonest(r.w, Answer(f, r).w, c, inputs);
      HonestThen(w, t, r.w, c, inputs);
      HonestThen(w, r.w, Answer(f, r).w, c, inputs);
      if !ready.ok {
        AnswerSilent(w, t, f, r);
      }
    }
  }

  lemma FailureIsSilent(env: Environment, w: Cluster, lsc: LocalStorageClass, c: LocalStorageClass, inputs: Inputs)
    ensures Silent(w, ReportFailure(env, w, lsc).w)
    ensures Honest(w, ReportFailure(env, w, lsc).w, c, inputs)
  {
    EnsureFinalizerIdle(env, w, lsc);
    var e := EnsureFinalizer(env, w, lsc);
    WriteStatusHonest(env, e.w, Some(Failed), Condition(false, lsc.generation), c, inputs);
    if e.ok {
      SilentThen(w, e.w, ReportFailure(env, w, lsc).w);
    }
    SilentIsHonest(w, ReportFailure(env, w, lsc).w, c, inputs);
  }

  /** What "ended well" means for a class that is not being deleted. */
  ghost predicate Confirmed(v: View, c: LocalStorageClass, inputs: Inputs) {
    Backed(v, c, inputs) && v.lsc.Some? && v.lsc.value.status == Some(Status(Created, Some(Condition(true, c.generation))))
  }

  lemma SuccessIsHonest(env: Environment, w: Cluster, lsc: LocalStorageClass, c: LocalStorageClass, inputs: Inputs)
    requires Backed(w.now, c, inputs) && lsc.generation == c.generation
    ensures var r := ReportSuccess(env, w, lsc);
            Honest(w, r.w, c, inputs) && (r.failed <==> r.requeue) && (!r.failed ==> Confirmed(r.w.now, c, inputs))
  {
    EnsureFinalizerIdle(env, w, lsc);
    var e := EnsureFinalizer(env, w, lsc);
    SilentIsHonest(w, e.w, c, inputs);
    WriteStatusHonest(env, e.w, Some(Created), Condition(true, lsc.generation), c, inputs);
    if e.ok {
      HonestThen(w, e.w, ReportSuccess(env, w, lsc).w, c, inputs);
    }
  }

  lemma CreateScHonest(env: Environment, w: Cluster, sc: StorageClass, c: LocalStorageClass, inputs: Inputs)
    requires Answers(sc, c, inputs)
    ensures var r := CreateSc(env, w, sc);
            && Honest(w, r.w, c, inputs)
            && (r.Accepted? ==> r.w.now.sc.Some? && r.w.now.sc.value == sc.(name := w.name, rv := r.w.now.sc.value.rv))
  {
    SameIsIdle(w, w);
    SilentIsHonest(w, w, c, inputs);
    if !w.down {
      TurnIdle(env, w);
      var t, f := Turn(env, w), env(w.calls).fault;
      SilentIsHonest(w, t, c, inputs);
      SameIsIdle(t, t);
      SilentIsHonest(t, t, c, inputs);
      var r := if Lands(f) then AddSc(t, sc) else Refused(t, false);
      if r.w.past != t.past {
        PushHonest(t, r.w.now.lsc, r.w.now.sc, c, inputs);
      }
      SameIsIdle(r.w, Answer(f, r).w);
      SilentIsHonest(r.w, Answer(f, r).w, c, inputs);
      HonestThen(w, t, r.w, c, inputs);
      HonestThen(w, r.w, Answer(f, r).w, c, inputs);
    }
  }

  lemma DeleteManagedSilent(env: Environment, w: Cluster, sc: StorageClass)
    ensures Silent(w, DeleteManaged(env, w, sc).w)
  {
    SameIsIdle(w, w);
    ReleaseScSilent(env, w, ATTEMPTS);
    var released := ReleaseSc(env, w, ATTEMPTS);
    DeleteScSilent(env, released.w);
    if Ours(sc) && released.Accepted? {
      SilentThen(w, released.w, DeleteManaged(env, w, sc).w);
    }
  }
}
