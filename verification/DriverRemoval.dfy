/**
  The CSI driver taking its own finalizer off an LVMLogicalVolume it is asked to delete:
  a bounded loop over full updates under an optimistic lock, re-reading on conflict.
  */
module DriverRemoval {
  import opened Wrappers
  import opened ApiServer

  /** KubernetesAPIRequestLimit. */
  const REQUEST_LIMIT: nat := 3

  datatype Result = Dropped | Absent | Error
  datatype Run = Run(w: World, held: Object, result: Result)

  /** The list without its first CSI finalizer. */
  function DropFirst(finalizers: seq<Finalizer>): seq<Finalizer> {
    if finalizers == [] then []
    else if finalizers[0] == Csi then finalizers[1..]
    else [finalizers[0]] + DropFirst(finalizers[1..])
  }

  /** One CSI finalizer less, everybody else's in place. */
  lemma {:induction false} DropFirstDropsOne(finalizers: seq<Finalizer>)
    ensures |DropFirst(finalizers)| == |finalizers| - if Csi in finalizers then 1 else 0
    ensures Without(DropFirst(finalizers), Csi) == Without(finalizers, Csi)
    ensures forall f :: f in DropFirst(finalizers) ==> f in finalizers
  {
    if finalizers != [] && finalizers[0] != Csi {
      DropFirstDropsOne(finalizers[1..]);
    }
  }

  lemma {:induction false} DropFirstAt(finalizers: seq<Finalizer>, i: nat)
    requires i < |finalizers| && Csi !in finalizers[..i] && finalizers[i] == Csi
    ensures DropFirst(finalizers) == finalizers[..i] + finalizers[i + 1..]
  {
    if i > 0 {
      assert finalizers[0] == finalizers[..i][0];
      assert finalizers[1..][..i - 1] == finalizers[..i][1..];
      DropFirstAt(finalizers[1..], i - 1);
      assert finalizers[1..][i..] == finalizers[i + 1..];
      assert finalizers[..i] == [finalizers[0]] + finalizers[1..][..i - 1];
    }
  }

  /** `held` is the driver's copy. */
  function Drop(env: Environment, w: World, key: Key, held: Object, attempts: nat): Run
    requires attempts > 0
    decreases attempts
  {
    if Csi !in held.finalizers then Run(w, held, Absent)
    else
      var shortened := held.(finalizers := DropFirst(held.finalizers));
      var updated := Patch(env, w, key, held, shortened.finalizers);
      match updated.reply
      case Written => Run(updated.w, shortened, Dropped)
      case PatchFailed(conflict) =>
        if !conflict || attempts == 1 || env(w.calls).expired then Run(updated.w, shortened, Error)
        else
          var got := Get(env, updated.w, key);
          if !got.reply.Found? then Run(got.w, shortened, Error) else Drop(env, got.w, key, got.reply.live, attempts - 1)
  }

  class Driver {
    const env: Environment
    var w: World
    var llv: Object

    constructor (env: Environment, w: World, llv: Object)
      ensures this.env == env && this.w == w && this.llv == llv
    {
      this.env, this.w, this.llv := env, w, llv;
    }

    method DeleteFirst() returns (removed: bool)
      modifies this`llv
      ensures removed <==> Csi in old(llv).finalizers
      ensures llv == old(llv).(finalizers := DropFirst(old(llv).finalizers))
    {
      var finalizers := llv.finalizers;
      for i := 0 to |finalizers|
        invariant Csi !in finalizers[..i] && llv == old(llv)
      {
        if finalizers[i] == Csi {
          DropFirstAt(finalizers, i);
          llv := llv.(finalizers := finalizers[..i] + finalizers[i + 1..]);
          return true;
        }
      }
      AbsentKeeps(finalizers);
      return false;
    }

    method RemoveLlvFinalizerIfExist(key: Key) returns (result: Result)
      modifies this
      ensures Run(w, llv, result) == Drop(env, old(w), key, old(llv), REQUEST_LIMIT)
    {
      var left := REQUEST_LIMIT;
      while true
        invariant left > 0
        invariant Drop(env, w, key, llv, left) == Drop(env, old(w), key, old(llv), REQUEST_LIMIT)
        decreases left
      {
        var base := llv;
        var removed := DeleteFirst();
        if !removed {
          AbsentKeeps(base.finalizers);
          return Absent;
        }
        var calls := w.calls;
        var updated := Patch(env, w, key, base, llv.finalizers);
        w := updated.w;
        if updated.reply.Written? {
          return Dropped;
        }
        if !updated.reply.retriable || left == 1 || env(calls).expired {
          return Error;
        }
        var got := Get(env, w, key);
        w := got.w;
        if !got.reply.Found? {
          return Error;
        }
        llv := got.reply.live;
        left := left - 1;
      }
    }
  }

  lemma {:induction false} AbsentKeeps(finalizers: seq<Finalizer>)
    requires Csi !in finalizers
    ensures DropFirst(finalizers) == finalizers
  {
    if finalizers != [] {
      AbsentKeeps(finalizers[1..]);
    }
  }

  /** One finalizer of the driver's own, and nothing else about the object; it goes away
      only if it was being deleted and nobody else held it. */
  ghost predicate DropsOwn(e: Event, key: Key) {
    && e.Patched? && e.key == key && Csi in e.before.finalizers
    && (match e.after
        case Some(after) => after == e.before.(finalizers := DropFirst(e.before.finalizers), rv := after.rv)
        case None => e.before.deletedAt.Some? && e.before.finalizers == [Csi])
  }

  /** An unchanged resourceVersion means an unchanged object. */
  ghost predicate Current(w: World, key: Key, held: Object) {
    held.rv < w.nextRv && (key in w.objects && w.objects[key].rv == held.rv ==> w.objects[key] == held)
  }

  ghost predicate OnlyDrops(before: seq<Event>, after: seq<Event>, key: Key) {
    before <= after && forall i :: |before| <= i < |after| ==> DropsOwn(after[i], key)
  }

  lemma LandedDropsOwn(w: World, key: Key, held: Object)
    requires key in w.objects && w.objects[key] == held && Csi in held.finalizers
    ensures var put := Put(w, key, DropFirst(held.finalizers), held.spec, held.status);
            DropsOwn(Patched(key, held, if key in put.objects then Some(put.objects[key]) else None), key)
  {
    DropFirstDropsOne(held.finalizers);
    if DropFirst(held.finalizers) == [] {
      assert held.finalizers == [held.finalizers[0]];
    }
  }

  lemma UpdateDropsOwn(env: Environment, w: World, key: Key, held: Object)
    requires WellFormed(w) && Current(w, key, held) && Csi in held.finalizers
    ensures var p := Patch(env, w, key, held, DropFirst(held.finalizers));
            WellFormed(p.w) && OnlyDrops(w.journal, p.w.journal, key) && |p.w.journal| <= |w.journal| + 1
  {
    TurnEvolves(env, w);
    var t := Turn(env, w);
    if key in t.objects && t.objects[key].rv == held.rv {
      assert Traces(w, key, t.objects[key]);
      LandedDropsOwn(t, key, held);
    }
  }

  /** In every interleaving: each update that lands takes one CSI finalizer off the very
      version that was read, and at most REQUEST_LIMIT of them do. */
  lemma {:induction false} DriverDropsOnlyItsOwn(env: Environment, w: World, key: Key, held: Object, attempts: nat)
    requires attempts > 0 && WellFormed(w) && Current(w, key, held)
    ensures var r := Drop(env, w, key, held, attempts);
            WellFormed(r.w) && OnlyDrops(w.journal, r.w.journal, key) && |r.w.journal| <= |w.journal| + attempts
    decreases attempts
  {
    if Csi in held.finalizers {
      UpdateDropsOwn(env, w, key, held);
      var p := Patch(env, w, key, held, DropFirst(held.finalizers));
      if p.reply.PatchFailed? && p.reply.retriable && attempts > 1 && !env(w.calls).expired {
        var got := Get(env, p.w, key);
        TurnEvolves(env, p.w);
        if got.reply.Found? {
          DriverDropsOnlyItsOwn(env, got.w, key, got.reply.live, attempts - 1);
          OnlyDropsTransitive(w.journal, p.w.journal, Drop(env, got.w, key, got.reply.live, attempts - 1).w.journal, key);
        }
      }
    }
  }

  lemma OnlyDropsTransitive(a: seq<Event>, b: seq<Event>, c: seq<Event>, key: Key)
    requires OnlyDrops(a, b, key) && OnlyDrops(b, c, key)
    ensures OnlyDrops(a, c, key)
  {
    forall i | |a| <= i < |c| ensures DropsOwn(c[i], key) {
      if i < |b| {
        assert c[i] == b[i];
      }
    }
  }
  // ------------------------------------------------------------------- persistence

  /** A write that leaves the CSI finalizer on the object, or is about something else; and
      nobody deletes an object nobody holds. */
  predicate Spares(x: Write, key: Key) {
    x.Update? && x.key == key ==> Csi in x.finalizers
  }

  predicate LeavesAlone(x: Write, key: Key) {
    match x
    case Create(k, _, _) => k != key
    case Update(k, _, _, _) => k != key
    case Delete(k) => k != key
    case _ => true
  }

  /** The loop updates in call number `first` and every other one after it, and re-reads in
      between. Until call number `quiet` others write the object and updates meet conflicts;
      nothing else goes wrong. */
  ghost predicate Conflicting(env: Environment, key: Key, first: nat, quiet: nat) {
    && (forall n: nat, x :: n >= first && x in env(n).writes ==> Spares(x, key))
    && (forall n: nat, x :: n >= quiet && x in env(n).writes ==> LeavesAlone(x, key))
    && (forall n: nat :: n >= first && env(n).fault.Fails? ==> env(n).fault == Fails(true, false) && n < quiet && (n - first) % 2 == 0)
    && (forall n: nat :: n >= first ==> !env(n).expired)
  }

  lemma ConflictingLater(env: Environment, key: Key, first: nat, quiet: nat)
    requires Conflicting(env, key, first, quiet)
    ensures Conflicting(env, key, first + 2, quiet)
  {
    forall n: nat | n >= first + 2 && env(n).fault.Fails?
      ensures env(n).fault == Fails(true, false) && n < quiet && (n - (first + 2)) % 2 == 0
    {
      assert (n - first) % 2 == (n - (first + 2)) % 2;
    }
  }

  ghost predicate Carries(w: World, key: Key) {
    key in w.objects && Csi in w.objects[key].finalizers
  }

  lemma {:induction false} SparedCarries(w: World, xs: seq<Write>, key: Key)
    requires Carries(w, key) && forall x :: x in xs ==> Spares(x, key)
    ensures Carries(ApplyAll(w, xs), key)
    decreases |xs|
  {
    if xs != [] {
      assert Spares(xs[0], key);
      SparedCarries(Apply(w, xs[0]), xs[1..], key);
    }
  }

  lemma {:induction false} LeftAloneStays(w: World, xs: seq<Write>, key: Key)
    requires Carries(w, key) && forall x :: x in xs ==> LeavesAlone(x, key)
    ensures Carries(ApplyAll(w, xs), key) && ApplyAll(w, xs).objects[key] == w.objects[key]
    decreases |xs|
  {
    if xs != [] {
      assert LeavesAlone(xs[0], key);
      LeftAloneStays(Apply(w, xs[0]), xs[1..], key);
    }
  }

  lemma TurnCarries(env: Environment, w: World, key: Key, first: nat, quiet: nat)
    requires Conflicting(env, key, first, quiet) && first <= w.calls && Carries(w, key)
    ensures Carries(Turn(env, w), key)
    ensures w.calls >= quiet ==> Turn(env, w).objects[key] == w.objects[key]
  {
    SparedCarries(w, env(w.calls).writes, key);
    if w.calls >= quiet {
      LeftAloneStays(w, env(w.calls).writes, key);
    }
  }

  /** The update goes through, or meets a conflict and nothing is lost. */
  lemma UpdateMeetsConflict(env: Environment, w: World, key: Key, held: Object, quiet: nat)
    requires WellFormed(w) && Current(w, key, held) && Carries(w, key) && Csi in held.finalizers
    requires Conflicting(env, key, w.calls, quiet)
    ensures var p := Patch(env, w, key, held, DropFirst(held.finalizers));
            && (p.reply.PatchFailed? ==> p.reply.retriable && p.w == Turn(env, w))
            && (w.calls >= quiet && w.objects[key] == held ==> p.reply.Written?)
  {
    TurnEvolves(env, w);
    TurnCarries(env, w, key, w.calls, quiet);
  }

  /** Re-reading finds the object as it is now. */
  lemma RereadFinds(env: Environment, w: World, key: Key, first: nat, quiet: nat)
    requires WellFormed(w) && Carries(w, key) && Conflicting(env, key, first, quiet) && w.calls == first + 1
    ensures var got := Get(env, w, key);
            && got.reply.Found? && WellFormed(got.w) && Carries(got.w, key) && got.w.calls == first + 2
            && got.w.objects[key] == got.reply.live && Current(got.w, key, got.reply.live)
  {
    TurnEvolves(env, w);
    TurnCarries(env, w, key, first, quiet);
    assert (w.calls - first) % 2 == 1;
  }

  /** The driver does not give up on a conflict: it gets its finalizer off if the disturbance
      is over when it re-reads for the last time. */
  lemma {:induction false} DriverPersists(env: Environment, w: World, key: Key, held: Object, attempts: nat, quiet: nat)
    requires attempts > 0 && WellFormed(w) && Current(w, key, held) && Carries(w, key) && Csi in held.finalizers
    requires Conflicting(env, key, w.calls, quiet)
    requires if attempts == 1 then quiet <= w.calls && w.objects[key] == held else quiet < w.calls + 2 * (attempts - 1)
    ensures Drop(env, w, key, held, attempts).result == Dropped
    decreases attempts
  {
    UpdateMeetsConflict(env, w, key, held, quiet);
    var updated := Patch(env, w, key, held, DropFirst(held.finalizers));
    if updated.reply.PatchFailed? {
      TurnEvolves(env, w);
      TurnCarries(env, w, key, w.calls, quiet);
      RereadFinds(env, updated.w, key, w.calls, quiet);
      var got := Get(env, updated.w, key);
      ConflictingLater(env, key, w.calls, quiet);
      DriverPersists(env, got.w, key, got.reply.live, attempts - 1, quiet);
    }
  }

  /** Anything but a conflict, and any conflict after the deadline, ends the loop with an
      error after one call. */
  lemma OtherFailuresEndTheLoop(env: Environment, w: World, key: Key, held: Object, attempts: nat)
    requires attempts > 0 && Csi in held.finalizers && env(w.calls).fault.Fails? && !env(w.calls).fault.landed
    requires !env(w.calls).fault.retriable || env(w.calls).expired
    ensures var r := Drop(env, w, key, held, attempts); r.result == Error && r.w.calls == w.calls + 1
  {
  }
}
