/**
  A teardown that ends content is complete: nothing let go since the pass began is held
  again, whatever others do and however stale the reads.
  */
module ReconcilerTeardown {
  import opened Wrappers
  import opened StorageClasses
  import opened ClassServer
  import opened ClassReconciler
  import opened ReconcilerSafety

  /** Nothing seen let go since the pass began is held now. */
  ghost predicate LetGoStays(w: Cluster) {
    forall i :: w.since <= i <= |w.past| && !Held(At(w, i)) ==> !Held(w.now)
  }

  ghost predicate Loosens(w: Cluster, w': Cluster) {
    w'.since == w.since && (!Held(w.now) ==> !Held(w'.now)) && (LetGoStays(w) ==> LetGoStays(w'))
  }

  lemma PushLoosens(w: Cluster, actor: Actor, lsc: Option<LocalStorageClass>, sc: Option<StorageClass>)
    requires !Held(w.now) ==> !Held(View(actor, lsc, sc))
    ensures Loosens(w, Push(w, actor, lsc, sc))
  {
    assert At(w, |w.past|) == w.now;
    var w' := Push(w, actor, lsc, sc);
    assert forall i :: 0 <= i <= |w.past| ==> At(w', i) == At(w, i);
  }

  lemma SameLoosens(w: Cluster, w': Cluster)
    requires w'.past == w.past && w'.now == w.now && w'.since == w.since
    ensures Loosens(w, w')
  {
    assert forall i :: 0 <= i <= |w.past| ==> At(w', i) == At(w, i);
  }

  lemma {:induction false} ApplyAllLoosens(w: Cluster, xs: seq<Write>)
    ensures Loosens(w, ApplyAll(w, xs))
    decreases |xs|
  {
    if xs == [] {
      SameLoosens(w, w);
    } else {
      var w' := Apply(w, xs[0]);
      if w'.past == w.past {
        SameLoosens(w, w');
      } else {
        PushLoosens(w, Others, w'.now.lsc, w'.now.sc);
      }
      ApplyAllLoosens(w', xs[1..]);
    }
  }

  lemma TurnLoosens(env: Environment, w: Cluster)
    ensures Loosens(w, Turn(env, w))
  {
    ApplyAllLoosens(w, env(w.calls).writes);
    SameLoosens(ApplyAll(w, env(w.calls).writes), Turn(env, w));
  }

  lemma ServeLoosens(env: Environment, w: Cluster)
    ensures Loosens(w, Serve(env, w))
  {
    SameLoosens(w, w);
    if !w.down {
      TurnLoosens(env, w);
      SameLoosens(Turn(env, w), Serve(env, w));
    }
  }

  lemma AnswerLoosens(w: Cluster, t: Cluster, f: Fault, served: Written)
    requires Loosens(w, t) && (served.w == t || Loosens(t, served.w))
    ensures Loosens(w, Answer(f, served).w)
  {
    SameLoosens(served.w, Answer(f, served).w);
  }

  lemma StoreLoosens(w: Cluster, w': Cluster)
    requires w' == w || (w' == Push(w, Us, w'.now.lsc, w'.now.sc) && (!Held(w.now) ==> !Held(w'.now)))
    ensures Loosens(w, w')
  {
    if w' == w {
      SameLoosens(w, w);
    } else {
      PushLoosens(w, Us, w'.now.lsc, w'.now.sc);
    }
  }

  lemma ScCallsLoosen(env: Environment, w: Cluster, base: StorageClass, finalizers: seq<Holder>)
    ensures Loosens(w, UpdateSc(env, w, base, finalizers).w) && Loosens(w, DeleteSc(env, w).w)
  {
    SameLoosens(w, w);
    if !w.down {
      TurnLoosens(env, w);
      var t, f := Turn(env, w), env(w.calls).fault;
      var stored := if Lands(f) then StoreSc(t, base, finalizers) else Refused(t, false);
      StoreLoosens(t, stored.w);
      AnswerLoosens(w, t, f, stored);
      var removed := if Lands(f) then RemoveSc(t) else Refused(t, false);
      StoreLoosens(t, removed.w);
      AnswerLoosens(w, t, f, removed);
    }
  }

  lemma {:induction false} ReleaseScLoosens(env: Environment, w: Cluster, attempts: nat)
    requires attempts > 0
    ensures Loosens(w, ReleaseSc(env, w, attempts).w)
    decreases attempts
  {
    ServeLoosens(env, w);
    var got := GetSc(env, w);
    if got.reply.Found? && Kept(got.reply.value.finalizers) != got.reply.value.finalizers {
      var live := got.reply.value;
      ScCallsLoosen(env, got.w, live, Kept(live.finalizers));
      var updated := UpdateSc(env, got.w, live, Kept(live.finalizers));
      if updated.Refused? && updated.conflict && attempts > 1 {
        ReleaseScLoosens(env, updated.w, attempts - 1);
      }
    }
  }

  lemma DeleteManagedLoosens(env: Environment, w: Cluster, sc: StorageClass)
    ensures Loosens(w, DeleteManaged(env, w, sc).w)
  {
    SameLoosens(w, w);
    ReleaseScLoosens(env, w, ATTEMPTS);
    ScCallsLoosen(env, ReleaseSc(env, w, ATTEMPTS).w, sc, []);
  }

  lemma UpdateClassLoosens(env: Environment, w: Cluster, base: LocalStorageClass)
    requires OnlyControllers(base.finalizers)
    ensures var r := UpdateClass(env, w, base, Kept(base.finalizers));
            Loosens(w, r.w) && (r.Accepted? ==> !Held(r.w.now))
  {
    KeptIsWithout(base.finalizers);
    SameLoosens(w, w);
    if !w.down {
      TurnLoosens(env, w);
      var t, f := Turn(env, w), env(w.calls).fault;
      var stored := if Lands(f) then StoreClass(t, base, Kept(base.finalizers)) else Refused(t, false);
      StoreLoosens(t, stored.w);
      AnswerLoosens(w, t, f, stored);
    }
  }

  lemma {:induction false} ReleaseClassLetsGo(env: Environment, w: Cluster, attempts: nat)
    requires attempts > 0 && Unmanaged(w) && LetGoStays(w)
    ensures var r := ReleaseClass(env, w, attempts); r.Accepted? ==> !Held(r.w.now)
    decreases attempts
  {
    ServeLoosens(env, w);
    GetClassEffect(env, w);
    var got := GetClass(env, w);
    var seen := Cached(env, w, Serve(env, w));
    assert exists i :: got.w.since <= i <= |got.w.past| && seen == At(got.w, i);
    if got.reply.Found? {
      var live := got.reply.value;
      KeptIsWithout(live.finalizers);
      if Kept(live.finalizers) != live.finalizers {
        UpdateClassLoosens(env, got.w, live);
        UpdateClassReleases(env, got.w, live);
        var updated := UpdateClass(env, got.w, live, Kept(live.finalizers));
        if updated.Refused? && updated.conflict && attempts > 1 {
          ReleaseClassLetsGo(env, updated.w, attempts - 1);
        }
      }
    }
  }

  lemma SetDeletingLoosens(env: Environment, w: Cluster, c: LocalStorageClass)
    ensures Loosens(w, SetDeleting(env, w, c).w)
  {
    SameLoosens(w, w);
    if !w.down {
      TurnLoosens(env, w);
      var t, f := Turn(env, w), env(w.calls).fault;
      var r := if Lands(f) then StoreStatus(t, None, Condition(false, c.generation)) else Refused(t, false);
      StoreLoosens(t, r.w);
      AnswerLoosens(w, t, f, r);
    }
  }

  lemma DeletePassLetsGo(env: Environment, w: Cluster, scs: seq<StorageClass>, c: LocalStorageClass)
    requires Ready(w, scs, c) && LetGoStays(w)
    ensures var r := DeletePass(env, w, scs, c); !r.failed && !r.requeue ==> !Managed(r.w.now) && !Held(r.w.now)
  {
    SameLoosens(w, w);
    var sc := FindSc(scs, c.name);
    if sc.Some? && Ours(sc.value) {
      DeleteManagedEffect(env, w, sc.value);
      DeleteManagedLoosens(env, w, sc.value);
    }
    var deleted := if sc.Some? && Ours(sc.value) then DeleteManaged(env, w, sc.value) else Accepted(w);
    if deleted.Accepted? {
      ReleaseClassEffect(env, deleted.w, ATTEMPTS);
      ReleaseClassLetsGo(env, deleted.w, ATTEMPTS);
      var released := ReleaseClass(env, deleted.w, ATTEMPTS);
      SetDeletingLoosens(env, released.w, c);
      WriteStatusQuiet(env, released.w, None, Condition(false, c.generation));
    }
  }

  /** In every environment: a pass over a class being deleted ends content only when no
      StorageClass of this provisioner is left and the controller holds no class. */
  lemma ContentTeardownIsComplete(env: Environment, w: Cluster, inputs: Inputs)
    requires Good(w)
    requires var start := OpenPass(env, w.(down := false)); start.reply.Found? && start.reply.value.terminating
    ensures var r := Pass(env, w, inputs); !r.failed && !r.requeue ==> !Managed(r.w.now) && !Held(r.w.now)
  {
    OpenPassEffect(env, w);
    var start := OpenPass(env, w.(down := false));
    var c := start.reply.value;
    assert LetGoStays(start.w);
    ListsWhatIsManaged(env, start.w, c);
    ServeLoosens(env, start.w);
    var scs := ListScs(env, start.w);
    if scs.reply.Found? {
      StillReady(env, scs.w, scs.reply.value, c);
      ServeLoosens(env, scs.w);
      DeletePassLetsGo(env, ReadOther(env, scs.w).w, scs.reply.value, c);
    }
  }
}
