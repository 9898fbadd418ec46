/**
  What the LocalStorageClass controller tells: it turns the Ready condition true, and ends
  a pass content, only where the StorageClass it answers for is there and shows no
  difference - in every environment.
  */
module ReconcilerReports {
  import opened Wrappers
  import opened Names
  import opened LocalStorage
  import opened LvgResolution
  import opened StorageClasses
  import opened ScComparison
  import opened Validation
  import opened ClassServer
  import opened ClassReconciler
  import opened ReconcilerSafety
  import opened ReconcilerProgress
  import opened ReconcilerSteps

  // ---------------------------------------------------------------------- the passes

  /** The list the pass works on shows the StorageClass of this provisioner as it is. */
  ghost predicate Listed(w: Cluster, scs: seq<StorageClass>, c: LocalStorageClass) {
    FindSc(scs, c.name).Some? && Ours(FindSc(scs, c.name).value) ==> w.now.sc == FindSc(scs, c.name)
  }

  ghost predicate Fair(w: Cluster, r: Outcome, c: LocalStorageClass, inputs: Inputs) {
    Honest(w, r.w, c, inputs) && (!r.failed && !r.requeue ==> Confirmed(r.w.now, c, inputs))
  }

  lemma RenderedIsBacked(v: View, c: LocalStorageClass, rendered: StorageClass, scs: seq<StorageClass>, inputs: Inputs)
    requires EffectiveLvgs(c, inputs.lvgs).Ok? && IsValid(scs, c, inputs.lvgs, EffectiveLvgs(c, inputs.lvgs).value)
    requires var sc := Configure(c, EffectiveLvgs(c, inputs.lvgs).value, inputs.prefixes).value;
             rendered == sc.(annotations := rendered.annotations)
    requires v.sc.Some? && v.sc.value == rendered.(name := v.sc.value.name, rv := v.sc.value.rv)
    ensures Backed(v, c, inputs)
  {
    var targets := EffectiveLvgs(c, inputs.lvgs).value;
    ValidTargetsAreDistinct(scs, c, inputs.lvgs);
    RenderedHasNoDiff(c, v.sc.value, targets, inputs.prefixes);
  }

  lemma CreatePassFair(env: Environment, w: Cluster, scs: seq<StorageClass>, c: LocalStorageClass, inputs: Inputs)
    requires EffectiveLvgs(c, inputs.lvgs).Ok?
    ensures Fair(w, CreatePass(env, w, scs, c, inputs.lvgs, EffectiveLvgs(c, inputs.lvgs).value, inputs.prefixes), c, inputs)
  {
    var targets := EffectiveLvgs(c, inputs.lvgs).value;
    EnsureFinalizerIdle(env, w, c);
    EnsuredSpec(env, w, c);
    var e := EnsureFinalizer(env, w, c);
    SilentIsHonest(w, e.w, c, inputs);
    if e.ok && !IsValid(scs, e.lsc, inputs.lvgs, targets) {
      FailureIsSilent(env, e.w, e.lsc, c, inputs);
      HonestThen(w, e.w, ReportFailure(env, e.w, e.lsc).w, c, inputs);
    } else if e.ok {
      var sc := Configure(e.lsc, targets, inputs.prefixes).value;
      assert sc == Configure(c, targets, inputs.prefixes).value;
      ConfiguredIsCalledFor(c, targets, inputs.prefixes);
      EffectiveIsAsked(scs, c, inputs.lvgs);
      CreateScHonest(env, e.w, sc, c, inputs);
      var created := CreateSc(env, e.w, sc);
      HonestThen(w, e.w, created.w, c, inputs);
      if created.Refused? {
        FailureIsSilent(env, created.w, e.lsc, c, inputs);
        HonestThen(w, created.w, ReportFailure(env, created.w, e.lsc).w, c, inputs);
      } else {
        RenderedIsBacked(created.w.now, c, sc, scs, inputs);
        SuccessIsHonest(env, created.w, e.lsc, c, inputs);
        HonestThen(w, created.w, ReportSuccess(env, created.w, e.lsc).w, c, inputs);
      }
    }
  }

  lemma EnsuredSpec(env: Environment, w: Cluster, c: LocalStorageClass)
    ensures EnsureFinalizer(env, w, c).lsc == c.(finalizers := EnsureFinalizer(env, w, c).lsc.finalizers)
  {
    OnlyFinalizersChange(env, w, c, ATTEMPTS);
  }

  lemma ReconfiguredIsCalledFor(c: LocalStorageClass, existing: StorageClass, targets: seq<Target>, prefixes: seq<string>)
    requires c.lvm.Some?
    ensures var sc := Reconfigure(c, existing, targets, prefixes).value;
            CalledFor(sc, c, targets, prefixes) && sc == Configure(c, targets, prefixes).value.(annotations := sc.annotations)
  {
    ConfiguredIsCalledFor(c, targets, prefixes);
    AnnotationsSurvive(c, existing, targets, prefixes);
  }

  lemma RecreateHonest(env: Environment, w: Cluster, existing: StorageClass, replacement: StorageClass, c: LocalStorageClass, inputs: Inputs)
    requires Answers(replacement, c, inputs)
    ensures var r := Recreate(env, w, existing, replacement);
            && Honest(w, r.w, c, inputs)
            && (r.Accepted? ==> r.w.now.sc.Some? && r.w.now.sc.value == replacement.(name := w.name, rv := r.w.now.sc.value.rv))
  {
    DeleteManagedSilent(env, w, existing);
    var deleted := DeleteManaged(env, w, existing);
    SilentIsHonest(w, deleted.w, c, inputs);
    if deleted.Accepted? {
      CreateScHonest(env, deleted.w, replacement, c, inputs);
      HonestThen(w, deleted.w, Recreate(env, w, existing, replacement).w, c, inputs);
    }
  }

  lemma RecreatePassFair(env: Environment, w: Cluster, scs: seq<StorageClass>, existing: StorageClass, c: LocalStorageClass, inputs: Inputs)
    requires EffectiveLvgs(c, inputs.lvgs).Ok? && IsValid(scs, c, inputs.lvgs, EffectiveLvgs(c, inputs.lvgs).value)
    ensures var replacement := Reconfigure(c, existing, EffectiveLvgs(c, inputs.lvgs).value, inputs.prefixes).value;
            var recreated := Recreate(env, w, existing, replacement);
            Fair(w, if recreated.Refused? then ReportFailure(env, recreated.w, c) else ReportSuccess(env, recreated.w, c), c, inputs)
  {
    var targets := EffectiveLvgs(c, inputs.lvgs).value;
    var replacement := Reconfigure(c, existing, targets, inputs.prefixes).value;
    ReconfiguredIsCalledFor(c, existing, targets, inputs.prefixes);
    EffectiveIsAsked(scs, c, inputs.lvgs);
    RecreateHonest(env, w, existing, replacement, c, inputs);
    var recreated := Recreate(env, w, existing, replacement);
    if recreated.Refused? {
      FailureIsSilent(env, recreated.w, c, c, inputs);
      HonestThen(w, recreated.w, ReportFailure(env, recreated.w, c).w, c, inputs);
    } else {
      RenderedIsBacked(recreated.w.now, c, replacement, scs, inputs);
      SuccessIsHonest(env, recreated.w, c, c, inputs);
      HonestThen(w, recreated.w, ReportSuccess(env, recreated.w, c).w, c, inputs);
    }
  }

  lemma UpdatePassFair(env: Environment, w: Cluster, scs: seq<StorageClass>, c: LocalStorageClass, inputs: Inputs)
    requires EffectiveLvgs(c, inputs.lvgs).Ok? && Listed(w, scs, c)
    ensures Fair(w, UpdatePass(env, w, scs, c, inputs.lvgs, EffectiveLvgs(c, inputs.lvgs).value, inputs.prefixes), c, inputs)
  {
    var targets := EffectiveLvgs(c, inputs.lvgs).value;
    FailureIsSilent(env, w, c, c, inputs);
    if IsValid(scs, c, inputs.lvgs, targets) && FindSc(scs, c.name).Some? {
      var existing := FindSc(scs, c.name).value;
      FoundHasName(scs, c.name);
      assert Ours(existing);
      match HasScDiff(existing, c, targets, inputs.prefixes) {
        case Fail =>
        case Ok(false) => SuccessIsHonest(env, w, c, c, inputs);
        case Ok(true) => RecreatePassFair(env, w, scs, existing, c, inputs);
      }
    }
  }

  lemma DeletePassSilent(env: Environment, w: Cluster, scs: seq<StorageClass>, c: LocalStorageClass, inputs: Inputs)
    ensures Silent(w, DeletePass(env, w, scs, c).w)
  {
    SameIsIdle(w, w);
    var sc := FindSc(scs, c.name);
    if sc.Some? && Ours(sc.value) {
      DeleteManagedSilent(env, w, sc.value);
    }
    var deleted := if sc.Some? && Ours(sc.value) then DeleteManaged(env, w, sc.value) else Accepted(w);
    FailureIsSilent(env, deleted.w, c, c, inputs);
    ReleaseClassSilent(env, deleted.w, ATTEMPTS);
    var released := ReleaseClass(env, deleted.w, ATTEMPTS);
    FailureIsSilent(env, released.w, c, c, inputs);
    WriteStatusHonest(env, released.w, None, Condition(false, c.generation), c, inputs);
    if deleted.Refused? {
      SilentThen(w, deleted.w, DeletePass(env, w, scs, c).w);
    } else {
      SilentThen(w, deleted.w, released.w);
      SilentThen(w, released.w, DeletePass(env, w, scs, c).w);
    }
  }

  // ------------------------------------------------------------------ a whole pass

  /** Since the pass began only others have written. */
  ghost predicate Unacted(w: Cluster) {
    forall i :: w.since < i <= |w.past| ==> 0 <= i && At(w, i).actor == Others
  }

  lemma {:induction false} ApplyAllUnacted(w: Cluster, xs: seq<Write>)
    requires Unacted(w)
    ensures Unacted(ApplyAll(w, xs))
    decreases |xs|
  {
    if xs != [] {
      var w' := Apply(w, xs[0]);
      ApplyIdle(w, xs[0]);
      forall i | w'.since < i <= |w'.past| ensures At(w', i).actor == Others {
        if i <= |w.past| {
          assert At(w', i) == At(w, i);
        }
      }
      ApplyAllUnacted(w', xs[1..]);
    }
  }

  lemma ServeUnacted(env: Environment, w: Cluster)
    requires Unacted(w)
    ensures Unacted(Serve(env, w))
  {
    if !w.down {
      ApplyAllUnacted(w, env(w.calls).writes);
      var w1, w2 := ApplyAll(w, env(w.calls).writes), Serve(env, w);
      assert forall i :: 0 <= i <= |w2.past| ==> At(w2, i) == At(w1, i);
    }
  }

  /** What a pass over c that is not being deleted achieves if it ends content. */
  ghost predicate Fulfilled(w: Cluster, c: LocalStorageClass, inputs: Inputs) {
    || Confirmed(w.now, c, inputs)
    || (Backed(w.now, c, inputs) && ReadyIsCurrent(c) && Unacted(w))
  }

  lemma ReconcileFair(env: Environment, w: Cluster, scs: seq<StorageClass>, c: LocalStorageClass, inputs: Inputs)
    requires !c.terminating && Listed(w, scs, c) && Unacted(w)
    ensures var r := RunEventReconcile(env, w, scs, c, inputs.lvgs, inputs.prefixes);
            Honest(w, r.w, c, inputs) && (!r.failed && !r.requeue ==> Fulfilled(r.w, c, inputs))
  {
    ServeIdle(env, w);
    ServeUnacted(env, w);
    var w' := Serve(env, w);
    SilentIsHonest(w, w', c, inputs);
    FailureIsSilent(env, w', c, c, inputs);
    HonestThen(w, w', ReportFailure(env, w', c).w, c, inputs);
    if ReadOther(env, w).reply.Found? && EffectiveLvgs(c, inputs.lvgs).Ok? && !Panics(scs, c) {
      match Identify(scs, c, EffectiveLvgs(c, inputs.lvgs).value, inputs.prefixes) {
        case Ok(CreateReconcile) =>
          CreatePassFair(env, w', scs, c, inputs);
          HonestThen(w, w', RunEventReconcile(env, w, scs, c, inputs.lvgs, inputs.prefixes).w, c, inputs);
        case Ok(UpdateReconcile) =>
          UpdatePassFair(env, w', scs, c, inputs);
          HonestThen(w, w', RunEventReconcile(env, w, scs, c, inputs.lvgs, inputs.prefixes).w, c, inputs);
        case _ =>
      }
    }
  }

  /** The step after state i says nothing, or the truth about the class that the pass with
      these inputs found in state number s. */
  ghost predicate TruthfulSince(w: Cluster, i: nat, s: nat, inputs: Inputs)
    requires i < |w.past|
  {
    || Tacit(w, i)
    || (s <= i && At(w, s).lsc.Some? && !At(w, s).lsc.value.terminating && Truthful(w, i, At(w, s).lsc.value, inputs))
  }

  ghost predicate TellsTruth(w: Cluster, r: Outcome, inputs: Inputs) {
    && |w.past| <= r.w.since <= |r.w.past|
    && (forall i :: 0 <= i <= |w.past| ==> At(r.w, i) == At(w, i))
    && (forall i :: |w.past| <= i < |r.w.past| ==> TruthfulSince(r.w, i, r.w.since, inputs))
  }

  /** The pass from its opening read to r: that read found `found`. */
  lemma OpenedTellsTruth(env: Environment, w: Cluster, r: Outcome, inputs: Inputs)
    requires var start := OpenPass(env, w.(down := false));
             match start.reply
             case Found(c) => if c.terminating then Silent(start.w, r.w) else Honest(start.w, r.w, c, inputs)
             case _ => Silent(start.w, r.w)
    ensures TellsTruth(w, r, inputs)
  {
    var up := w.(down := false);
    var served, start := Serve(env, up), OpenPass(env, up);
    SameIsIdle(w, up);
    ServeIdle(env, up);
    SilentThen(w, up, served);
    assert Extends(start.w, r.w);
    forall i | 0 <= i <= |served.past| ensures At(r.w, i) == At(served, i) {
      assert At(start.w, i) == At(served, i);
      assert At(r.w, i) == At(start.w, i);
    }
    assert At(r.w, r.w.since) == served.now;
    forall i | 0 <= i <= |w.past| ensures At(r.w, i) == At(w, i) {
      assert At(served, i) == At(w, i);
    }
    forall i | |w.past| <= i < |r.w.past| ensures TruthfulSince(r.w, i, r.w.since, inputs) {
      if i < r.w.since {
        assert Tacit(served, i);
      } else if start.reply.Found? && !start.reply.value.terminating {
        assert Truthful(r.w, i, start.reply.value, inputs);
      } else {
        assert Tacit(r.w, i);
      }
    }
  }
  lemma ListsUnmanaged(env: Environment, w: Cluster, c: LocalStorageClass)
    requires Unacted(w)
    ensures var scs := ListScs(env, w);
            Idle(w, scs.w) && Unacted(scs.w) && (scs.reply.Found? ==> Listed(scs.w, scs.reply.value, c))
  {
    ServeIdle(env, w);
    ServeUnacted(env, w);
  }

  lemma StillListed(env: Environment, w: Cluster, scs: seq<StorageClass>, c: LocalStorageClass)
    requires Listed(w, scs, c) && Unacted(w)
    ensures Idle(w, Serve(env, w)) && Listed(Serve(env, w), scs, c) && Unacted(Serve(env, w))
  {
    ServeIdle(env, w);
    ServeUnacted(env, w);
  }

  /** The pass on the class it found. */
  lemma OpenedPass(env: Environment, start: Cluster, c: LocalStorageClass, inputs: Inputs, r: Outcome)
    requires start.since == |start.past| && r == Pursue(env, start, c, inputs)
    ensures if c.terminating then Silent(start, r.w) else Honest(start, r.w, c, inputs)
    ensures !c.terminating && !r.failed && !r.requeue ==> Fulfilled(r.w, c, inputs)
  {
    ListsUnmanaged(env, start, c);
    var scs := ListScs(env, start);
    SilentIsHonest(start, scs.w, c, inputs);
    if scs.reply.Found? {
      StillListed(env, scs.w, scs.reply.value, c);
      var secret := ReadOther(env, scs.w);
      SilentThen(start, scs.w, secret.w);
      SilentIsHonest(start, secret.w, c, inputs);
      if secret.reply.Found? {
        if c.terminating {
          DeletePassSilent(env, secret.w, scs.reply.value, c, inputs);
          SilentThen(start, secret.w, r.w);
        } else {
          ReconcileFair(env, secret.w, scs.reply.value, c, inputs);
          HonestThen(start, secret.w, r.w, c, inputs);
        }
      }
    }
  }

  /** The rest of a pass that found the class. */
  ghost function Pursue(env: Environment, start: Cluster, c: LocalStorageClass, inputs: Inputs): Outcome {
    var scs := ListScs(env, start);
    if scs.reply.Unread? then Outcome(scs.w, true, true)
    else
      var secret := ReadOther(env, scs.w);
      if secret.reply.Unread? then Outcome(secret.w, true, false)
      else RunEventReconcile(env, secret.w, scs.reply.value, c, inputs.lvgs, inputs.prefixes)
  }

  /** In every environment: whatever others do meanwhile, whatever fails and wherever the
      process dies, a pass says that the class is ready only in a state with a StorageClass
      of this provisioner that shows no difference to the class as the pass found it, and
      every StorageClass it creates is the one that class calls for, in every field. */
  lemma PassTellsTruth(env: Environment, w: Cluster, inputs: Inputs)
    ensures TellsTruth(w, Pass(env, w, inputs), inputs)
  {
    var start := OpenPass(env, w.(down := false));
    SameIsIdle(start.w, start.w);
    var r := Pass(env, w, inputs);
    if start.reply.Found? {
      OpenedPass(env, start.w, start.reply.value, inputs, r);
    }
    OpenedTellsTruth(env, w, r, inputs);
  }

  /** A pass ends content - it neither failed nor asks to come back - only if there is no
      class, or the class is being deleted, or the StorageClass is there without a
      difference and the class was told so: by this pass, or already before it, and then
      the pass wrote nothing. */
  lemma ContentIsFulfilled(env: Environment, w: Cluster, inputs: Inputs)
    requires var r := Pass(env, w, inputs); !r.failed && !r.requeue
    ensures var r := Pass(env, w, inputs);
            r.w.since <= |r.w.past|
            && match At(r.w, r.w.since).lsc
               case None => true
               case Some(c) => c.terminating || Fulfilled(r.w, c, inputs)
  {
    var start := OpenPass(env, w.(down := false));
    SameIsIdle(start.w, start.w);
    var r := Pass(env, w, inputs);
    if start.reply.Found? {
      OpenedPass(env, start.w, start.reply.value, inputs, r);
      assert Extends(start.w, r.w);
      ExtendsNow(start.w, r.w);
    }
  }

  /** What the pass returns: a failed one always asks to come back, and one that comes back
      without having failed could not read the configuration. */
  lemma FlagsMeanWhatTheySay(env: Environment, w: Cluster, inputs: Inputs)
    ensures var r := Pass(env, w, inputs);
            (r.failed ==> r.requeue) && (r.requeue && !r.failed ==> !env(w.calls + 2).fault.Healthy?)
  {
    var start := OpenPass(env, w.(down := false));
    TurnKeepsUp(env, w.(down := false));
    if start.reply.Found? {
      TurnKeepsUp(env, start.w);
      var scs := ListScs(env, start.w);
      if scs.reply.Found? && ReadOther(env, scs.w).reply.Found? {
        DispatchFlags(env, ReadOther(env, scs.w).w, scs.reply.value, start.reply.value, inputs);
      }
    }
  }

  lemma DispatchFlags(env: Environment, w: Cluster, scs: seq<StorageClass>, c: LocalStorageClass, inputs: Inputs)
    ensures var r := RunEventReconcile(env, w, scs, c, inputs.lvgs, inputs.prefixes); r.failed <==> r.requeue
  {
    EnsuredSpec(env, ReadOther(env, w).w, c);
  }

  /** A name that is taken is left alone: nothing is created, and the pass comes back. */
  lemma TakenNameIsLeftAlone(env: Environment, w: Cluster, scs: seq<StorageClass>, c: LocalStorageClass, inputs: Inputs)
    requires EffectiveLvgs(c, inputs.lvgs).Ok? && FindSc(scs, c.name).Some?
    ensures var r := CreatePass(env, w, scs, c, inputs.lvgs, EffectiveLvgs(c, inputs.lvgs).value, inputs.prefixes);
            && r.requeue && Silent(w, r.w)
            && (EnsureFinalizer(env, w, c).ok && IsValid(scs, c, inputs.lvgs, EffectiveLvgs(c, inputs.lvgs).value) ==>
                  !r.failed && r.w == EnsureFinalizer(env, w, c).w)
  {
    EnsureFinalizerIdle(env, w, c);
    EnsuredSpec(env, w, c);
    var e := EnsureFinalizer(env, w, c);
    FailureIsSilent(env, e.w, e.lsc, c, inputs);
    if e.ok && !IsValid(scs, e.lsc, inputs.lvgs, EffectiveLvgs(c, inputs.lvgs).value) {
      SilentThen(w, e.w, ReportFailure(env, e.w, e.lsc).w);
    }
  }

  /** Making sure of the StorageClass's finalizer: nothing is called if it carries it, and
      otherwise it is added behind the others. */
  lemma FinalizerIsEnsuredOnSc(env: Environment, w: Cluster, sc: StorageClass)
    ensures var r := AddFinalizerToSc(env, w, sc);
            && (Controller in sc.finalizers ==> r == Accepted(w))
            && (Controller !in sc.finalizers && r.Accepted? ==>
                  r.w.now.sc.Some? && r.w.now.sc.value.finalizers == sc.finalizers + [Controller])
  {
  }

  /** The step after state i says nothing, or the truth about the class as some pass of the
      run found it. */
  ghost predicate Accounted(w: Cluster, i: nat, passes: seq<Inputs>)
    requires i < |w.past|
  {
    exists s: nat, inputs :: inputs in passes && TruthfulSince(w, i, s, inputs)
  }

  lemma AccountedLater(w: Cluster, w': Cluster, i: nat, passes: seq<Inputs>, passes': seq<Inputs>)
    requires i < |w.past| <= |w'.past| && Accounted(w, i, passes) && forall x :: x in passes ==> x in passes'
    requires forall j :: 0 <= j <= |w.past| ==> At(w', j) == At(w, j)
    ensures Accounted(w', i, passes')
  {
    var s: nat, inputs :| inputs in passes && TruthfulSince(w, i, s, inputs);
    assert TruthfulSince(w', i, s, inputs);
  }

  /** Over any run. */
  lemma {:induction false} RunTellsTruth(env: Environment, w: Cluster, passes: seq<Inputs>)
    ensures var r := Run(env, w, passes);
            && |w.past| <= |r.past|
            && forall i :: |w.past| <= i < |r.past| ==> Accounted(r, i, passes)
  {
    if passes != [] {
      var init, last := passes[..|passes| - 1], passes[|passes| - 1];
      RunTellsTruth(env, w, init);
      var before, r := Run(env, w, init), Pass(env, Run(env, w, init), last);
      PassTellsTruth(env, before, last);
      forall i | |w.past| <= i < |r.w.past| ensures Accounted(r.w, i, passes) {
        if i < |before.past| {
          AccountedLater(before, r.w, i, init, passes);
        } else {
          assert TruthfulSince(r.w, i, r.w.since, last) && last in passes;
        }
      }
    }
  }

  // ------------------------------------------------------------- when it goes wrong

  ghost predicate Unready(w: Cluster, w': Cluster) {
    Extends(w, w') && forall i :: |w.past| <= i < |w'.past| ==> !TurnsReady(At(w', i), At(w', i + 1))
  }

  lemma UnreadyThen(w: Cluster, w1: Cluster, w2: Cluster)
    requires (Silent(w, w1) && Unready(w1, w2)) || (Unready(w, w1) && Silent(w1, w2))
    ensures Unready(w, w2)
  {
    forall i | 0 <= i <= |w.past| ensures At(w2, i) == At(w, i) {
      assert At(w1, i) == At(w, i);
    }
    forall i | |w.past| <= i < |w2.past| ensures !TurnsReady(At(w2, i), At(w2, i + 1)) {
      if i < |w1.past| {
        assert At(w2, i) == At(w1, i) && At(w2, i + 1) == At(w1, i + 1);
        assert Silent(w, w1) ==> Tacit(w1, i);
      } else {
        assert Silent(w1, w2) ==> Tacit(w2, i);
      }
    }
  }

  lemma CreateScUnready(env: Environment, w: Cluster, sc: StorageClass)
    ensures Unready(w, CreateSc(env, w, sc).w)
  {
    SameIsIdle(w, w);
    if !w.down {
      TurnIdle(env, w);
      var t, f := Turn(env, w), env(w.calls).fault;
      var r := if Lands(f) then AddSc(t, sc) else Refused(t, false);
      SameIsIdle(t, t);
      if r.w.past != t.past {
        PushExtends(t, Us, r.w.now.lsc, r.w.now.sc);
      }
      SameIsIdle(r.w, Answer(f, r).w);
      UnreadyThen(w, t, r.w);
      UnreadyThen(w, r.w, Answer(f, r).w);
    }
  }

  lemma RecreateUnready(env: Environment, w: Cluster, existing: StorageClass, replacement: StorageClass)
    ensures Unready(w, Recreate(env, w, existing, replacement).w)
  {
    DeleteManagedSilent(env, w, existing);
    var deleted := DeleteManaged(env, w, existing);
    SameIsIdle(deleted.w, deleted.w);
    if deleted.Refused? {
      UnreadyThen(w, deleted.w, deleted.w);
    } else {
      CreateScUnready(env, deleted.w, replacement);
      UnreadyThen(w, deleted.w, Recreate(env, w, existing, replacement).w);
    }
  }

  /** Whatever is refused while the StorageClass is recreated: the pass fails, asks to come
      back and never says that the class is ready. */
  lemma RefusedRecreationIsReported(env: Environment, w: Cluster, scs: seq<StorageClass>, c: LocalStorageClass, inputs: Inputs)
    requires EffectiveLvgs(c, inputs.lvgs).Ok? && FindSc(scs, c.name).Some?
    requires IsValid(scs, c, inputs.lvgs, EffectiveLvgs(c, inputs.lvgs).value)
    requires HasScDiff(FindSc(scs, c.name).value, c, EffectiveLvgs(c, inputs.lvgs).value, inputs.prefixes) == Ok(true)
    requires var targets, existing := EffectiveLvgs(c, inputs.lvgs).value, FindSc(scs, c.name).value;
             Recreate(env, w, existing, Reconfigure(c, existing, targets, inputs.prefixes).value).Refused?
    ensures var r := UpdatePass(env, w, scs, c, inputs.lvgs, EffectiveLvgs(c, inputs.lvgs).value, inputs.prefixes);
            r.failed && r.requeue && Unready(w, r.w)
  {
    var targets, existing := EffectiveLvgs(c, inputs.lvgs).value, FindSc(scs, c.name).value;
    var replacement := Reconfigure(c, existing, targets, inputs.prefixes).value;
    RecreateUnready(env, w, existing, replacement);
    var recreated := Recreate(env, w, existing, replacement);
    FailureIsSilent(env, recreated.w, c, c, inputs);
    UnreadyThen(w, recreated.w, ReportFailure(env, recreated.w, c).w);
  }

  /** ... and if only the refusal itself went wrong, the class is told so for its generation. */
  lemma RefusedRecreationIsRecorded(env: Environment, w: Cluster, scs: seq<StorageClass>, c: LocalStorageClass, inputs: Inputs)
    requires EffectiveLvgs(c, inputs.lvgs).Ok? && FindSc(scs, c.name).Some?
    requires IsValid(scs, c, inputs.lvgs, EffectiveLvgs(c, inputs.lvgs).value)
    requires HasScDiff(FindSc(scs, c.name).value, c, EffectiveLvgs(c, inputs.lvgs).value, inputs.prefixes) == Ok(true)
    requires var targets, existing := EffectiveLvgs(c, inputs.lvgs).value, FindSc(scs, c.name).value;
             var recreated := Recreate(env, w, existing, Reconfigure(c, existing, targets, inputs.prefixes).value);
             && recreated.Refused? && !recreated.w.down && CalmFrom(env, recreated.w.calls)
             && recreated.w.now.lsc.Some? && Controller in c.finalizers
    ensures var r := UpdatePass(env, w, scs, c, inputs.lvgs, EffectiveLvgs(c, inputs.lvgs).value, inputs.prefixes);
            r.w.now.lsc.Some? && r.w.now.lsc.value.status == Some(Status(Failed, Some(Condition(false, c.generation))))
  {
    var targets, existing := EffectiveLvgs(c, inputs.lvgs).value, FindSc(scs, c.name).value;
    CalmServe(env, Recreate(env, w, existing, Reconfigure(c, existing, targets, inputs.prefixes).value).w);
  }
}
