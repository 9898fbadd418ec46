/**
  The LocalStorageClass controller itself: the retry loops, the searches and the calls in
  their order, proved to do exactly what the functions of module ClassReconciler say.
  */
module ClassController {
  import opened Wrappers
  import opened Names
  import opened LocalStorage
  import opened LvgResolution
  import opened StorageClasses
  import opened Validation
  import opened ClassServer
  import opened ClassReconciler
  import ReconcilerSafety

  method FindStorageClass(scs: seq<StorageClass>, name: string) returns (sc: Option<StorageClass>)
    ensures sc == FindSc(scs, name)
  {
    for i := 0 to |scs|
      invariant FindSc(scs, name) == FindSc(scs[i..], name)
    {
      assert scs[i..][0] == scs[i] && scs[i..][1..] == scs[i + 1..];
      if scs[i].name == name {
        return Some(scs[i]);
      }
    }
    return None;
  }

  method DropControllers(finalizers: seq<Holder>) returns (kept: seq<Holder>, removed: bool)
    ensures kept == Kept(finalizers)
    ensures removed <==> kept != finalizers
  {
    kept, removed := [], false;
    for i := 0 to |finalizers|
      invariant kept == Kept(finalizers[..i])
      invariant removed <==> exists f :: f in finalizers[..i] && IsControllers(f)
    {
      assert finalizers[..i + 1] == finalizers[..i] + [finalizers[i]];
      KeptStep(finalizers, i);
      if IsControllers(finalizers[i]) {
        removed := true;
        continue;
      }
      kept := kept + [finalizers[i]];
    }
    assert finalizers[..|finalizers|] == finalizers;
    KeptAll(finalizers);
  }

  lemma KeptStep(finalizers: seq<Holder>, i: nat)
    requires i < |finalizers|
    ensures Kept(finalizers[..i + 1]) == Kept(finalizers[..i]) + if IsControllers(finalizers[i]) then [] else [finalizers[i]]
  {
    assert finalizers[..i + 1][..i] == finalizers[..i];
  }

  lemma KeptAll(finalizers: seq<Holder>)
    ensures Kept(finalizers) != finalizers <==> exists f :: f in finalizers && IsControllers(f)
  {
    ReconcilerSafety.KeptIsWithout(finalizers);
    if forall i :: 0 <= i < |finalizers| ==> !IsControllers(finalizers[i]) {
      KeptUntouched(finalizers, |finalizers|);
      assert finalizers[..|finalizers|] == finalizers;
    }
  }

  lemma {:induction false} KeptUntouched(finalizers: seq<Holder>, n: nat)
    requires n <= |finalizers| && forall i :: 0 <= i < n ==> !IsControllers(finalizers[i])
    ensures Kept(finalizers[..n]) == finalizers[..n]
  {
    if n > 0 {
      KeptUntouched(finalizers, n - 1);
      KeptStep(finalizers, n - 1);
    }
  }

  class Reconciler {
    const env: Environment
    var w: Cluster
    /** The pass's own copy of the LocalStorageClass. */
    var lsc: LocalStorageClass

    constructor (env: Environment, w: Cluster, lsc: LocalStorageClass)
      ensures this.env == env && this.w == w && this.lsc == lsc
    {
      this.env, this.w, this.lsc := env, w, lsc;
    }

    method Update(base: LocalStorageClass, finalizers: seq<Holder>) returns (ok: bool, conflict: bool)
      modifies this`w
      ensures UpdateClass(env, old(w), base, finalizers) == if ok then Accepted(w) else Refused(w, conflict)
    {
      var written := UpdateClass(env, w, base, finalizers);
      w := written.w;
      return written.Accepted?, written.Refused? && written.conflict;
    }

    method EnsureFinalizer() returns (ok: bool)
      modifies this
      ensures Ensured(w, lsc, ok) == ClassReconciler.EnsureFinalizer(env, old(w), old(lsc))
    {
      if lsc.terminating || Controller in lsc.finalizers {
        return true;
      }
      var left := ATTEMPTS;
      while true
        invariant left > 0 && lsc == old(lsc)
        invariant AddFinalizer(env, w, lsc, left) == AddFinalizer(env, old(w), lsc, ATTEMPTS)
        decreases left
      {
        var got := GetClass(env, w);
        w := got.w;
        if !got.reply.Found? {
          return false;
        }
        var live := got.reply.value;
        if live.terminating || Controller in live.finalizers {
          return true;
        }
        var finalizers := live.finalizers + [Controller];
        var conflict;
        ok, conflict := Update(live, finalizers);
        if ok {
          lsc := lsc.(finalizers := finalizers);
          return;
        }
        if !conflict || left == 1 {
          return;
        }
        left := left - 1;
      }
    }

    method RemoveControllerFinalizers() returns (ok: bool)
      modifies this`w
      ensures ReleaseClass(env, old(w), ATTEMPTS) == if ok then Accepted(w) else Refused(w, false)
    {
      var left := ATTEMPTS;
      while true
        invariant left > 0
        invariant ReleaseClass(env, w, left) == ReleaseClass(env, old(w), ATTEMPTS)
        decreases left
      {
        var got := GetClass(env, w);
        w := got.w;
        match got.reply {
          case NotFound => return true;
          case Unread => return false;
          case Found(live) =>
            var kept, removed := DropControllers(live.finalizers);
            if !removed {
              return true;
            }
            var conflict;
            ok, conflict := Update(live, kept);
            if ok || !conflict || left == 1 {
              return;
            }
        }
        left := left - 1;
      }
    }

    method RemoveControllerFinalizersFromSc() returns (ok: bool)
      modifies this`w
      ensures ReleaseSc(env, old(w), ATTEMPTS) == if ok then Accepted(w) else Refused(w, false)
    {
      var left := ATTEMPTS;
      while true
        invariant left > 0
        invariant ReleaseSc(env, w, left) == ReleaseSc(env, old(w), ATTEMPTS)
        decreases left
      {
        var got := GetSc(env, w);
        w := got.w;
        match got.reply {
          case NotFound => return true;
          case Unread => return false;
          case Found(live) =>
            var kept, removed := DropControllers(live.finalizers);
            if !removed {
              return true;
            }
            var written := UpdateSc(env, w, live, kept);
            w := written.w;
            if written.Accepted? {
              return true;
            }
            if !written.conflict || left == 1 {
              return false;
            }
        }
        left := left - 1;
      }
    }

    method UpdateLocalStorageClassPhase(phase: Phase) returns (ok: bool)
      modifies this
      ensures var p := UpdatePhase(env, old(w), old(lsc), phase); w == p.w && ok == p.Accepted?
    {
      ok := EnsureFinalizer();
      if !ok {
        return;
      }
      assert lsc.generation == old(lsc).generation by {
        ReconcilerSafety.OnlyFinalizersChange(env, old(w), old(lsc), ATTEMPTS);
      }
      var written := WriteStatus(env, w, Some(phase), Condition(phase == Created, lsc.generation));
      w := written.w;
      ok := written.Accepted?;
    }

    method DeleteStorageClass(sc: StorageClass) returns (ok: bool)
      modifies this`w
      ensures var d := DeleteManaged(env, old(w), sc); w == d.w && ok == d.Accepted?
    {
      if !Ours(sc) {
        return false;
      }
      ok := RemoveControllerFinalizersFromSc();
      if !ok {
        return;
      }
      var deleted := DeleteSc(env, w);
      w := deleted.w;
      ok := deleted.Accepted?;
    }

    method RecreateStorageClass(outdated: StorageClass, replacement: StorageClass) returns (ok: bool)
      modifies this`w
      ensures var r := Recreate(env, old(w), outdated, replacement); w == r.w && ok == r.Accepted?
    {
      ok := DeleteStorageClass(outdated);
      if !ok {
        return;
      }
      var created := CreateSc(env, w, replacement);
      w := created.w;
      ok := created.Accepted?;
    }

    method CreateStorageClassIfNotExists(scs: seq<StorageClass>, sc: StorageClass) returns (created: bool, failed: bool)
      modifies this`w
      ensures if FindSc(scs, sc.name).Some? then w == old(w) && !created && !failed
              else w == CreateSc(env, old(w), sc).w && created == CreateSc(env, old(w), sc).Accepted? && failed == !created
    {
      var existing := FindStorageClass(scs, sc.name);
      if existing.Some? {
        return false, false;
      }
      var written := CreateSc(env, w, sc);
      w := written.w;
      return written.Accepted?, written.Refused?;
    }

    method AddFinalizerIfNotExistsForSc(sc: StorageClass) returns (ok: bool)
      modifies this`w
      ensures var r := AddFinalizerToSc(env, old(w), sc); w == r.w && ok == r.Accepted?
    {
      if Controller in sc.finalizers {
        return true;
      }
      var written := UpdateSc(env, w, sc, sc.finalizers + [Controller]);
      w := written.w;
      return written.Accepted?;
    }

    method ReconcileCreate(scs: seq<StorageClass>, lvgs: seq<VolumeGroup>, targets: seq<Target>, prefixes: seq<string>)
      returns (requeue: bool, failed: bool)
      modifies this
      ensures Outcome(w, requeue, failed) == CreatePass(env, old(w), scs, old(lsc), lvgs, targets, prefixes)
    {
      var ok := EnsureFinalizer();
      if !ok {
        return true, true;
      }
      var valid := ValidateLocalStorageClass(scs, lsc, lvgs, targets);
      if !valid {
        ok := UpdateLocalStorageClassPhase(Failed);
        return true, true;
      }
      var configured := Configure(lsc, targets, prefixes);
      assert configured.Ok?;
      var created;
      created, failed := CreateStorageClassIfNotExists(scs, configured.value);
      if failed {
        ok := UpdateLocalStorageClassPhase(Failed);
        return true, true;
      }
      if !created {
        return true, false;
      }
      ok := AddFinalizerIfNotExistsForSc(configured.value);
      if !ok {
        return true, true;
      }
      ok := UpdateLocalStorageClassPhase(Created);
      return !ok, !ok;
    }

    method ReconcileUpdate(scs: seq<StorageClass>, lvgs: seq<VolumeGroup>, targets: seq<Target>, prefixes: seq<string>)
      returns (requeue: bool, failed: bool)
      modifies this
      ensures Outcome(w, requeue, failed) == UpdatePass(env, old(w), scs, old(lsc), lvgs, targets, prefixes)
    {
      var valid := ValidateLocalStorageClass(scs, lsc, lvgs, targets);
      var found := FindStorageClass(scs, lsc.name);
      var ok;
      if !valid || found.None? {
        ok := UpdateLocalStorageClassPhase(Failed);
        return true, true;
      }
      var diff := CheckScDiff(found.value, lsc, targets, prefixes);
      if diff.Fail? {
        ok := UpdateLocalStorageClassPhase(Failed);
        return true, true;
      }
      if diff.value {
        var replacement := Reconfigure(lsc, found.value, targets, prefixes);
        assert replacement.Ok?;
        ok := RecreateStorageClass(found.value, replacement.value);
        if !ok {
          ok := UpdateLocalStorageClassPhase(Failed);
          return true, true;
        }
      }
      ok := UpdateLocalStorageClassPhase(Created);
      return !ok, !ok;
    }

    method ReconcileDelete(scs: seq<StorageClass>) returns (requeue: bool, failed: bool)
      modifies this
      ensures Outcome(w, requeue, failed) == DeletePass(env, old(w), scs, old(lsc))
    {
      var sc := FindStorageClass(scs, lsc.name);
      var ok := true;
      if sc.Some? && Ours(sc.value) {
        ok := DeleteStorageClass(sc.value);
        if !ok {
          ok := UpdateLocalStorageClassPhase(Failed);
          return true, true;
        }
      }
      ok := RemoveControllerFinalizers();
      if !ok {
        ok := UpdateLocalStorageClassPhase(Failed);
        return true, true;
      }
      w := SetDeleting(env, w, lsc).w;
      return false, false;
    }

    method RunEventReconcile(scs: seq<StorageClass>, lvgs: seq<VolumeGroup>, prefixes: seq<string>)
      returns (requeue: bool, failed: bool)
      modifies this
      ensures Outcome(w, requeue, failed) == ClassReconciler.RunEventReconcile(env, old(w), scs, old(lsc), lvgs, prefixes)
    {
      if lsc.terminating {
        requeue, failed := ReconcileDelete(scs);
        return;
      }
      var listed := ReadOther(env, w);
      w := listed.w;
      var targets := Ok([]);
      if listed.reply.Found? && lsc.lvm.Some? {
        targets := ResolveEffectiveLvgs(lsc.lvm.value.entries, lvgs);
      }
      var ok;
      if listed.reply.Unread? || targets.Fail? {
        ok := UpdateLocalStorageClassPhase(Failed);
        return true, true;
      }
      if Panics(scs, lsc) {
        return true, true;
      }
      match Identify(scs, lsc, targets.value, prefixes) {
        case Fail =>
          ok := UpdateLocalStorageClassPhase(Failed);
          return true, true;
        case Ok(NoReconcile) =>
          return false, false;
        case Ok(CreateReconcile) =>
          requeue, failed := ReconcileCreate(scs, lvgs, targets.value, prefixes);
        case Ok(UpdateReconcile) =>
          requeue, failed := ReconcileUpdate(scs, lvgs, targets.value, prefixes);
        case Ok(DeleteReconcile) =>
          requeue, failed := ReconcileDelete(scs);
      }
    }

    method Reconcile(inputs: Inputs) returns (requeue: bool, failed: bool)
      modifies this
      ensures Outcome(w, requeue, failed) == Pass(env, old(w), inputs)
    {
      var start := OpenPass(env, w.(down := false));
      w := start.w;
      if !start.reply.Found? {
        return start.reply.Unread?, start.reply.Unread?;
      }
      lsc := start.reply.value;
      var scs := ListScs(env, w);
      w := scs.w;
      if !scs.reply.Found? {
        return true, true;
      }
      var secret := ReadOther(env, w);
      w := secret.w;
      if secret.reply.Unread? {
        return true, false;
      }
      requeue, failed := RunEventReconcile(scs.reply.value, inputs.lvgs, inputs.prefixes);
    }
  }
}
