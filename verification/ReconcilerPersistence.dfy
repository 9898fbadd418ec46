/**
  The controller's three finalizer loops do not give up on a conflict: whatever stale reads
  and writes by others cost them, they succeed if the disturbance ends in time.
  */
module ReconcilerPersistence {
  import opened Wrappers
  import opened StorageClasses
  import opened ClassServer
  import opened ClassReconciler
  import opened ReconcilerSafety

  /** Others edit the class and put up their own StorageClasses. */
  predicate Edits(x: Write) {
    x.EditClass? || x.PutForeignSc? || x.DropForeignSc?
  }

  /** The loop starts at call number `first` and reads in every other call. Until call number
      `quiet` informer reads may lag behind, others edit the class and writes be refused
      with a conflict; nothing else goes wrong. */
  ghost predicate Conflicting(env: Environment, first: nat, quiet: nat) {
    && (forall n: nat, x :: n >= first && x in env(n).writes ==> Edits(x))
    && (forall n: nat :: n >= first ==> env(n).fault.Healthy? || (env(n).fault == Fails(true, false) && (n - first) % 2 == 1))
    && (forall n: nat :: n >= quiet ==> env(n).writes == [] && env(n).fault.Healthy? && env(n).lag == 0)
  }

  lemma ConflictingLater(env: Environment, first: nat, quiet: nat)
    requires Conflicting(env, first, quiet)
    ensures Conflicting(env, first + 2, quiet)
  {
    forall n: nat | n >= first + 2 ensures env(n).fault.Healthy? || (env(n).fault == Fails(true, false) && (n - (first + 2)) % 2 == 1) {
      assert (n - first) % 2 == (n - (first + 2)) % 2;
    }
  }

  /** Since the pass began the class has always been there, held back from deletion or not. */
  ghost predicate Present(w: Cluster) {
    w.since <= |w.past| && forall i :: w.since <= i <= |w.past| ==> At(w, i).lsc.Some?
  }

  ghost predicate Standing(w: Cluster) {
    w.since <= |w.past| && forall i :: w.since <= i <= |w.past| ==> At(w, i).lsc.Some? && !At(w, i).lsc.value.terminating
  }

  lemma PresentNow(w: Cluster)
    requires Present(w)
    ensures w.now.lsc.Some? && (Standing(w) ==> !w.now.lsc.value.terminating)
  {
    assert At(w, |w.past|) == w.now;
  }

  /** One more state with the class in it. */
  lemma StaysPresent(w: Cluster, w': Cluster)
    requires Present(w) && w'.since == w.since && w'.now.lsc.Some?
    requires w'.past == w.past + [w.now] || (w'.past == w.past && w'.now == w.now)
    ensures Present(w')
    ensures Standing(w) && !w'.now.lsc.value.terminating ==> Standing(w')
  {
    PresentNow(w);
    forall i | w.since <= i <= |w'.past| ensures At(w', i) == if i <= |w.past| then At(w, i) else w'.now {
    }
  }

  lemma {:induction false} EditsKeepPresent(w: Cluster, xs: seq<Write>)
    requires Present(w) && forall x :: x in xs ==> Edits(x)
    ensures Present(ApplyAll(w, xs)) && (Standing(w) ==> Standing(ApplyAll(w, xs)))
    decreases |xs|
  {
    if xs != [] {
      assert Edits(xs[0]);
      PresentNow(w);
      StaysPresent(w, Apply(w, xs[0]));
      EditsKeepPresent(Apply(w, xs[0]), xs[1..]);
    }
  }

  lemma TurnKeepsPresent(env: Environment, w: Cluster, first: nat, quiet: nat)
    requires Conflicting(env, first, quiet) && first <= w.calls && Present(w)
    ensures Present(Turn(env, w)) && (Standing(w) ==> Standing(Turn(env, w)))
    ensures w.calls >= quiet ==> Turn(env, w) == w.(calls := w.calls + 1)
  {
    EditsKeepPresent(w, env(w.calls).writes);
    PresentNow(ApplyAll(w, env(w.calls).writes));
    StaysPresent(ApplyAll(w, env(w.calls).writes), Turn(env, w));
  }

  // ---------------------------------------------------------------- the class's finalizer

  /** The read that opens an attempt finds some state with the class; from `quiet` on, the last. */
  lemma ReadFindsClass(env: Environment, w: Cluster, quiet: nat)
    requires !w.down && Good(w) && Present(w) && Conflicting(env, w.calls, quiet)
    ensures var got := GetClass(env, w);
            && got.reply.Found? && got.w.calls == w.calls + 1 && !got.w.down && Good(got.w) && Present(got.w)
            && KnownClass(got.w, got.reply.value) && ClassOk(w.name, got.reply.value) && got.w.name == w.name
            && (Standing(w) ==> Standing(got.w) && !got.reply.value.terminating)
            && (w.calls >= quiet ==> Some(got.reply.value) == got.w.now.lsc)
  {
    TurnKeepsPresent(env, w, w.calls, quiet);
    TurnKeepsUp(env, w);
    GetClassEffect(env, w);
    var got := GetClass(env, w);
    assert env(w.calls).fault.Healthy?;
    assert At(got.w, |got.w.past|) == got.w.now;
  }

  /** The write goes through, or is refused with a conflict and nothing is lost. */
  lemma UpdateMeetsConflict(env: Environment, w: Cluster, base: LocalStorageClass, finalizers: seq<Holder>, first: nat, quiet: nat)
    requires !w.down && Good(w) && Present(w) && Conflicting(env, first, quiet) && first < w.calls
    requires KnownClass(w, base) && (base.terminating ==> forall f :: f in finalizers ==> f in base.finalizers)
    ensures var r := UpdateClass(env, w, base, finalizers);
            && (r.Refused? ==> r.conflict && r.w == Turn(env, w) && Present(r.w) && (Standing(w) ==> Standing(r.w)))
            && (w.calls >= quiet && w.now.lsc == Some(base) ==> r.Accepted?)
  {
    TurnKeepsPresent(env, w, first, quiet);
    TurnQuiet(env, w);
    PresentNow(Turn(env, w));
  }

  /** In the loop, with the class there throughout. */
  ghost predicate Trying(env: Environment, w: Cluster, quiet: nat) {
    !w.down && Good(w) && Present(w) && Conflicting(env, w.calls, quiet)
  }

  /** After an attempt refused with a conflict. */
  function NextAttempt(env: Environment, w: Cluster): Cluster {
    Turn(env, GetClass(env, w).w)
  }

  lemma StillTrying(env: Environment, w: Cluster, quiet: nat)
    requires Trying(env, w, quiet)
    ensures var w' := NextAttempt(env, w);
            Trying(env, w', quiet) && w'.calls == w.calls + 2 && (Standing(w) ==> Standing(w'))
  {
    ReadFindsClass(env, w, quiet);
    var got := GetClass(env, w);
    TurnQuiet(env, got.w);
    TurnKeepsUp(env, got.w);
    TurnKeepsPresent(env, got.w, w.calls, quiet);
    ConflictingLater(env, w.calls, quiet);
  }

  lemma AddAttempt(env: Environment, w: Cluster, lsc: LocalStorageClass, attempts: nat, quiet: nat)
    requires attempts > 0 && Trying(env, w, quiet) && Standing(w)
    ensures || AddFinalizer(env, w, lsc, attempts).ok
            || (w.calls < quiet && (attempts > 1 ==>
                  AddFinalizer(env, w, lsc, attempts) == AddFinalizer(env, NextAttempt(env, w), lsc, attempts - 1)))
  {
    ReadFindsClass(env, w, quiet);
    var got := GetClass(env, w);
    var live := got.reply.value;
    if Controller !in live.finalizers {
      UpdateMeetsConflict(env, got.w, live, live.finalizers + [Controller], w.calls, quiet);
    }
  }

  /** The class gets its finalizer if the disturbance is over when the last attempt starts. */
  lemma {:induction false} AddFinalizerPersists(env: Environment, w: Cluster, lsc: LocalStorageClass, attempts: nat, quiet: nat)
    requires attempts > 0 && Trying(env, w, quiet) && Standing(w) && quiet <= w.calls + 2 * (attempts - 1)
    ensures AddFinalizer(env, w, lsc, attempts).ok
    decreases attempts
  {
    AddAttempt(env, w, lsc, attempts, quiet);
    if w.calls < quiet {
      StillTrying(env, w, quiet);
      AddFinalizerPersists(env, NextAttempt(env, w), lsc, attempts - 1, quiet);
    }
  }

  lemma ReleaseAttempt(env: Environment, w: Cluster, attempts: nat, quiet: nat)
    requires attempts > 0 && Trying(env, w, quiet)
    ensures || ReleaseClass(env, w, attempts).Accepted?
            || (w.calls < quiet && (attempts > 1 ==>
                  ReleaseClass(env, w, attempts) == ReleaseClass(env, NextAttempt(env, w), attempts - 1)))
  {
    ReadFindsClass(env, w, quiet);
    var got := GetClass(env, w);
    var live := got.reply.value;
    KeptIsWithout(live.finalizers);
    if Kept(live.finalizers) != live.finalizers {
      UpdateMeetsConflict(env, got.w, live, Kept(live.finalizers), w.calls, quiet);
    }
  }

  lemma {:induction false} ReleaseClassPersists(env: Environment, w: Cluster, attempts: nat, quiet: nat)
    requires attempts > 0 && Trying(env, w, quiet) && quiet <= w.calls + 2 * (attempts - 1)
    ensures ReleaseClass(env, w, attempts).Accepted?
    decreases attempts
  {
    ReleaseAttempt(env, w, attempts, quiet);
    if w.calls < quiet {
      StillTrying(env, w, quiet);
      ReleaseClassPersists(env, NextAttempt(env, w), attempts - 1, quiet);
    }
  }

  // --------------------------------------------------------- the StorageClass's finalizer

  /** In the loop, with the StorageClass there. */
  ghost predicate TryingSc(env: Environment, w: Cluster, quiet: nat) {
    !w.down && Good(w) && Managed(w.now) && Conflicting(env, w.calls, quiet)
  }

  function NextScAttempt(env: Environment, w: Cluster): Cluster {
    Turn(env, GetSc(env, w).w)
  }

  lemma ReadsSc(env: Environment, w: Cluster, quiet: nat)
    requires TryingSc(env, w, quiet)
    ensures var got := GetSc(env, w);
            && !got.reply.Unread? && got.w.calls == w.calls + 1 && !got.w.down && Good(got.w) && Managed(got.w.now)
            && (got.reply.Found? ==> KnownSc(got.w, got.reply.value))
            && (w.calls >= quiet && got.reply.Found? ==> Some(got.reply.value) == got.w.now.sc)
  {
    GetScEffect(env, w);
    TurnKeepsUp(env, w);
    var got := GetSc(env, w);
    assert env(w.calls).fault.Healthy?;
    if w.calls >= quiet {
      assert got.w == w.(calls := w.calls + 1);
      assert At(got.w, |got.w.past|) == got.w.now;
    }
  }

  lemma UpdateScMeetsConflict(env: Environment, w: Cluster, base: StorageClass, first: nat, quiet: nat)
    requires !w.down && Good(w) && Managed(w.now) && Conflicting(env, first, quiet) && first < w.calls && KnownSc(w, base)
    ensures var r := UpdateSc(env, w, base, Kept(base.finalizers));
            && (r.Refused? ==> r.conflict && r.w == Turn(env, w))
            && (w.calls >= quiet && w.now.sc == Some(base) ==> r.Accepted?)
  {
    KeptIsWithout(base.finalizers);
    TurnQuiet(env, w);
    assert w.calls >= quiet ==> Turn(env, w) == w.(calls := w.calls + 1);
  }

  lemma StillTryingSc(env: Environment, w: Cluster, quiet: nat)
    requires TryingSc(env, w, quiet)
    ensures TryingSc(env, NextScAttempt(env, w), quiet) && NextScAttempt(env, w).calls == w.calls + 2
  {
    ReadsSc(env, w, quiet);
    var got := GetSc(env, w);
    TurnQuiet(env, got.w);
    TurnKeepsUp(env, got.w);
    ConflictingLater(env, w.calls, quiet);
  }

  lemma ReleaseScAttempt(env: Environment, w: Cluster, attempts: nat, quiet: nat)
    requires attempts > 0 && TryingSc(env, w, quiet)
    ensures || ReleaseSc(env, w, attempts).Accepted?
            || (w.calls < quiet && (attempts > 1 ==>
                  ReleaseSc(env, w, attempts) == ReleaseSc(env, NextScAttempt(env, w), attempts - 1)))
  {
    ReadsSc(env, w, quiet);
    var got := GetSc(env, w);
    if got.reply.Found? {
      UpdateScMeetsConflict(env, got.w, got.reply.value, w.calls, quiet);
    }
  }

  lemma {:induction false} ReleaseScPersists(env: Environment, w: Cluster, attempts: nat, quiet: nat)
    requires attempts > 0 && TryingSc(env, w, quiet) && quiet <= w.calls + 2 * (attempts - 1)
    ensures ReleaseSc(env, w, attempts).Accepted?
    decreases attempts
  {
    ReleaseScAttempt(env, w, attempts, quiet);
    if w.calls < quiet {
      StillTryingSc(env, w, quiet);
      ReleaseScPersists(env, NextScAttempt(env, w), attempts - 1, quiet);
    }
  }

  // ------------------------------------------------------------------ other failures

  /** The read fails, or the write after it does without a conflict. */
  predicate FailsHard(env: Environment, n: nat) {
    !env(n).fault.Healthy? || env(n + 1).fault.Crash? || env(n + 1).fault == Fails(false, false)
  }

  lemma HardRefusal(env: Environment, w: Cluster, base: LocalStorageClass, finalizers: seq<Holder>)
    requires !w.down && (env(w.calls).fault.Crash? || env(w.calls).fault == Fails(false, false))
    ensures var r := UpdateClass(env, w, base, finalizers); r.Refused? && !r.conflict && r.w.calls == w.calls + 1
  {
  }

  lemma HardScRefusal(env: Environment, w: Cluster, base: StorageClass, finalizers: seq<Holder>)
    requires !w.down && (env(w.calls).fault.Crash? || env(w.calls).fault == Fails(false, false))
    ensures var r := UpdateSc(env, w, base, finalizers); r.Refused? && !r.conflict && r.w.calls == w.calls + 1
  {
  }

  lemma AddFinalizerEnds(env: Environment, w: Cluster, lsc: LocalStorageClass, attempts: nat)
    requires attempts > 0 && !w.down && FailsHard(env, w.calls)
    ensures var r := AddFinalizer(env, w, lsc, attempts);
            r.w.calls <= w.calls + 2 && (!env(w.calls).fault.Healthy? ==> !r.ok && r.w.calls == w.calls + 1)
  {
    TurnKeepsUp(env, w);
    var got := GetClass(env, w);
    if got.reply.Found? {
      HardRefusal(env, got.w, got.reply.value, got.reply.value.finalizers + [Controller]);
    }
  }

  lemma ReleaseClassEnds(env: Environment, w: Cluster, attempts: nat)
    requires attempts > 0 && !w.down && FailsHard(env, w.calls)
    ensures var r := ReleaseClass(env, w, attempts);
            r.w.calls <= w.calls + 2 && (!env(w.calls).fault.Healthy? ==> r.Refused? && r.w.calls == w.calls + 1)
  {
    TurnKeepsUp(env, w);
    var got := GetClass(env, w);
    if got.reply.Found? {
      HardRefusal(env, got.w, got.reply.value, Kept(got.reply.value.finalizers));
    }
  }

  lemma ReleaseScEnds(env: Environment, w: Cluster, attempts: nat)
    requires attempts > 0 && !w.down && FailsHard(env, w.calls)
    ensures var r := ReleaseSc(env, w, attempts);
            r.w.calls <= w.calls + 2 && (!env(w.calls).fault.Healthy? ==> r.Refused? && r.w.calls == w.calls + 1)
  {
    TurnKeepsUp(env, w);
    var got := GetSc(env, w);
    if got.reply.Found? {
      HardScRefusal(env, got.w, got.reply.value, Kept(got.reply.value.finalizers));
    }
  }

  /** Anything but a conflict ends each loop at once: after one call if the read fails, after
      two if the write does. */
  lemma OtherFailuresEndTheLoops(env: Environment, w: Cluster, lsc: LocalStorageClass, attempts: nat)
    requires attempts > 0 && !w.down && FailsHard(env, w.calls)
    ensures var add, release, releaseSc := AddFinalizer(env, w, lsc, attempts), ReleaseClass(env, w, attempts), ReleaseSc(env, w, attempts);
            && add.w.calls <= w.calls + 2 && release.w.calls <= w.calls + 2 && releaseSc.w.calls <= w.calls + 2
            && (!env(w.calls).fault.Healthy? ==>
                  && !add.ok && release.Refused? && releaseSc.Refused?
                  && add.w.calls == release.w.calls == releaseSc.w.calls == w.calls + 1)
  {
    AddFinalizerEnds(env, w, lsc, attempts);
    ReleaseClassEnds(env, w, attempts);
    ReleaseScEnds(env, w, attempts);
  }
  /** What is seen to be gone needs no release. */
  lemma GoneIsReleased(env: Environment, w: Cluster, attempts: nat)
    requires attempts > 0
    ensures GetClass(env, w).reply.NotFound? ==> ReleaseClass(env, w, attempts) == Accepted(GetClass(env, w).w)
    ensures GetSc(env, w).reply.NotFound? ==> ReleaseSc(env, w, attempts) == Accepted(GetSc(env, w).w)
  {
  }
}
