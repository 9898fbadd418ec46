/**
  removeCSIFinalizer: read the live object, re-check everything the object itself can
  tell, patch the finalizer list under an optimistic lock, retry a bounded number of
  times - while everybody else keeps writing.
  */
module FinalizerRemoval {
  import opened Wrappers
  import opened ApiServer

  /** retry.DefaultBackoff makes four attempts. */
  const ATTEMPTS: nat := 4

  datatype Outcome = Removed | Noop | AgentAbsent | Successor | Failed
  datatype Removal = Removal(w: World, outcome: Outcome)

  /** One attempt's decision on the object just read: None means "write". */
  function Refusal(live: Object, uid: nat): Option<Outcome> {
    if live.uid != uid then Some(Successor)
    else if live.deletedAt.None? then Some(Failed)
    else if Csi !in live.finalizers then Some(Noop)
    else if Agent !in live.finalizers then Some(AgentAbsent)
    else None
  }

  function Remove(env: Environment, w: World, key: Key, uid: nat, attempts: nat): Removal
    requires attempts > 0
    decreases attempts
  {
    var got := Get(env, w, key);
    match got.reply
    case NotFound => Removal(got.w, Noop)
    case GetFailed(retriable) =>
      if retriable && attempts > 1 then Remove(env, got.w, key, uid, attempts - 1) else Removal(got.w, Failed)
    case Found(live) =>
      var refusal := Refusal(live, uid);
      if refusal.Some? then Removal(got.w, refusal.value)
      else
        var patched := Patch(env, got.w, key, live, Without(live.finalizers, Csi));
        match patched.reply
        case Written => Removal(patched.w, Removed)
        case PatchFailed(retriable) =>
          if retriable && attempts > 1 then Remove(env, patched.w, key, uid, attempts - 1)
          else Removal(patched.w, Failed)
  }

  /** The only write the collector may ever make: on the very object it classified,
      already being deleted, held by both finalizers, and taking off nothing but the
      CSI one - so the agent's stays and the object with it. */
  ghost predicate Authorised(e: Event, key: Key, uid: nat) {
    && e.Patched? && e.key == key
    && e.before.uid == uid && e.before.deletedAt.Some?
    && Csi in e.before.finalizers && Agent in e.before.finalizers
    && e.after.Some?
    && e.after.value == e.before.(finalizers := Without(e.before.finalizers, Csi), rv := e.after.value.rv)
    && Agent in e.after.value.finalizers
  }

  /** The object with this UID has lost the CSI finalizer for good. */
  ghost predicate Released(w: World, key: Key, uid: nat) {
    && uid < w.nextUid
    && (key in w.objects && w.objects[key].uid == uid ==>
          w.objects[key].deletedAt.Some? && Csi !in w.objects[key].finalizers)
  }

  lemma PatchEffect(env: Environment, w: World, key: Key, base: Object)
    requires WellFormed(w)
    requires key in w.objects && w.objects[key] == base && Refusal(base, base.uid).None?
    ensures var p := Patch(env, w, key, base, Without(base.finalizers, Csi));
            && WellFormed(p.w) && Evolves(w, p.w)
            && (p.w.journal == w.journal ==> p.reply.PatchFailed?)
            && (p.w.journal != w.journal ==>
                  && |p.w.journal| == |w.journal| + 1 && w.journal <= p.w.journal
                  && Authorised(p.w.journal[|w.journal|], key, base.uid)
                  && Traces(w, key, p.w.journal[|w.journal|].before)
                  && Released(p.w, key, base.uid))
  {
    TurnEvolves(env, w);
    var t := Turn(env, w);
    var p := Patch(env, w, key, base, Without(base.finalizers, Csi));
    if p.w.journal != w.journal {
      // An unchanged resourceVersion means the object is still the one that was read.
      assert t.objects[key] == base;
      assert Agent in Without(base.finalizers, Csi);
      assert Evolves(t, p.w);
      EvolvesTransitive(w, t, p.w);
    }
  }

  lemma ReleasedStays(w: World, w': World, key: Key, uid: nat)
    requires Released(w, key, uid) && Evolves(w, w')
    ensures Released(w', key, uid)
  {
  }

  lemma {:induction false} RemoveAfterRelease(env: Environment, w: World, key: Key, uid: nat, attempts: nat)
    requires attempts > 0 && WellFormed(w) && Released(w, key, uid)
    ensures var r := Remove(env, w, key, uid, attempts);
            r.w.journal == w.journal && WellFormed(r.w) && Evolves(w, r.w) && !r.outcome.Removed?
    decreases attempts
  {
    var got := Get(env, w, key);
    TurnEvolves(env, w);
    ReleasedStays(w, got.w, key, uid);
    if got.reply.GetFailed? && got.reply.retriable && attempts > 1 {
      RemoveAfterRelease(env, got.w, key, uid, attempts - 1);
      EvolvesTransitive(w, got.w, Remove(env, got.w, key, uid, attempts - 1).w);
    }
  }

  /** At most one patch landed between w and r.w, it landed only where `Authorised` says,
      and "removed" is reported only if it did. */
  ghost predicate SafeRemoval(w: World, r: Removal, key: Key, uid: nat) {
    && WellFormed(r.w) && Evolves(w, r.w)
    && w.journal <= r.w.journal && |r.w.journal| <= |w.journal| + 1
    && (|r.w.journal| > |w.journal| ==>
          && Authorised(r.w.journal[|w.journal|], key, uid)
          && Traces(w, key, r.w.journal[|w.journal|].before)
          && Released(r.w, key, uid))
    && (r.outcome.Removed? ==> |r.w.journal| == |w.journal| + 1)
  }

  lemma SafeRemovalAfter(w: World, w1: World, r: Removal, key: Key, uid: nat)
    requires WellFormed(w) && WellFormed(w1) && Evolves(w, w1) && w1.journal == w.journal
    requires SafeRemoval(w1, r, key, uid)
    ensures SafeRemoval(w, r, key, uid)
  {
    EvolvesTransitive(w, w1, r.w);
    if |r.w.journal| > |w.journal| {
      TracesBack(w, w1, key, r.w.journal[|w.journal|].before);
    }
  }

  /** In every interleaving, with every failing and every lost answer. */
  lemma {:induction false} RemoveIsSafe(env: Environment, w: World, key: Key, uid: nat, attempts: nat)
    requires attempts > 0 && WellFormed(w)
    ensures SafeRemoval(w, Remove(env, w, key, uid, attempts), key, uid)
    decreases attempts
  {
    var got := Get(env, w, key);
    TurnEvolves(env, w);
    var r := Remove(env, w, key, uid, attempts);
    match got.reply {
      case NotFound =>
      case GetFailed(retriable) =>
        if retriable && attempts > 1 {
          RemoveIsSafe(env, got.w, key, uid, attempts - 1);
          SafeRemovalAfter(w, got.w, r, key, uid);
        }
      case Found(live) =>
        if Refusal(live, uid).None? {
          PatchEffect(env, got.w, key, live);
          var p := Patch(env, got.w, key, live, Without(live.finalizers, Csi));
          EvolvesTransitive(w, got.w, p.w);
          if p.reply.PatchFailed? && p.reply.retriable && attempts > 1 {
            if p.w.journal == w.journal {
              RemoveIsSafe(env, p.w, key, uid, attempts - 1);
              SafeRemovalAfter(w, p.w, r, key, uid);
            } else {
              RemoveAfterRelease(env, p.w, key, uid, attempts - 1);
              ReleasedStays(p.w, r.w, key, uid);
              EvolvesTransitive(w, p.w, r.w);
              TracesBack(w, got.w, key, r.w.journal[|w.journal|].before);
            }
          } else if p.w.journal != w.journal {
            TracesBack(w, got.w, key, p.w.journal[|w.journal|].before);
          }
        }
    }
  }
}
