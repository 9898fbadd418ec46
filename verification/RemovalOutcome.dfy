/**
  Which answers of the API server lead removeCSIFinalizer to which outcome: exactly how
  long it persists, and that it gets through once the disturbance is over.
  */
module RemovalOutcome {
  import opened Wrappers
  import opened ApiServer
  import opened FinalizerRemoval

  // ------------------------------------------------------------- one attempt's calls

  /** The very object, being deleted and held by both finalizers. */
  predicate Ripe(w: World, key: Key, uid: nat) {
    && key in w.objects && w.objects[key].uid == uid && w.objects[key].deletedAt.Some?
    && Csi in w.objects[key].finalizers && Agent in w.objects[key].finalizers
  }

  /** An attempt reads in call number w.calls and writes in the one after it. */
  predicate ReadsRipe(env: Environment, w: World, key: Key, uid: nat) {
    env(w.calls).fault.Healthy? && Ripe(Turn(env, w), key, uid)
  }

  /** The server when the patch is served. */
  function AtPatch(env: Environment, w: World): World {
    Turn(env, Turn(env, w))
  }

  /** Somebody wrote the object between the read and the patch. */
  predicate Overtaken(env: Environment, w: World, key: Key) {
    var read, at := Turn(env, w), AtPatch(env, w);
    key in read.objects && key in at.objects && at.objects[key].rv != read.objects[key].rv
  }

  predicate Untouched(env: Environment, w: World, key: Key) {
    var read, at := Turn(env, w), AtPatch(env, w);
    key in read.objects && key in at.objects && at.objects[key].rv == read.objects[key].rv
  }

  function Shortened(env: Environment, w: World, key: Key): World
    requires key in Turn(env, w).objects
  {
    var live := Turn(env, w).objects[key];
    Patch(env, Turn(env, w), key, live, Without(live.finalizers, Csi)).w
  }

  /** The attempt came to nothing that lasts, from w to w': a call failed in passing, the
      object had been written meanwhile, or the answer to the patch got lost. */
  ghost predicate Lost(env: Environment, w: World, w': World, key: Key, uid: nat) {
    var patch := env(w.calls + 1).fault;
    || (env(w.calls).fault.Fails? && env(w.calls).fault.retriable && w' == Turn(env, w))
    || (ReadsRipe(env, w, key, uid) && patch == Fails(true, false) && w' == AtPatch(env, w))
    || (ReadsRipe(env, w, key, uid) && (patch.Fails? ==> patch.landed) && Overtaken(env, w, key) && w' == AtPatch(env, w))
    || (ReadsRipe(env, w, key, uid) && patch == Fails(true, true) && Untouched(env, w, key) && w' == Shortened(env, w, key))
  }

  /** How an attempt from w settles the matter. */
  ghost predicate Settles(env: Environment, w: World, key: Key, uid: nat, outcome: Outcome) {
    var read, patch, healthy := Turn(env, w), env(w.calls + 1).fault, env(w.calls).fault.Healthy?;
    match outcome
    case Removed => ReadsRipe(env, w, key, uid) && Untouched(env, w, key) && patch.Healthy?
    case Failed =>
      || (!healthy && !env(w.calls).fault.retriable)
      || (healthy && key in read.objects && read.objects[key].uid == uid && read.objects[key].deletedAt.None?)
      || (ReadsRipe(env, w, key, uid) && patch == Fails(false, false))
      || (ReadsRipe(env, w, key, uid) && (patch.Fails? ==> patch.landed) && key !in AtPatch(env, w).objects)
      || (ReadsRipe(env, w, key, uid) && patch == Fails(false, true) && Untouched(env, w, key))
    case Noop =>
      healthy && (key in read.objects ==>
        read.objects[key].uid == uid && read.objects[key].deletedAt.Some? && Csi !in read.objects[key].finalizers)
    case AgentAbsent =>
      && healthy && key in read.objects && read.objects[key].uid == uid && read.objects[key].deletedAt.Some?
      && Csi in read.objects[key].finalizers && Agent !in read.objects[key].finalizers
    case Successor => healthy && key in read.objects && read.objects[key].uid != uid
  }

  lemma LostGoesOn(env: Environment, w: World, w': World, key: Key, uid: nat, attempts: nat)
    requires attempts > 0 && Lost(env, w, w', key, uid)
    ensures Remove(env, w, key, uid, attempts) == if attempts > 1 then Remove(env, w', key, uid, attempts - 1) else Removal(w', Failed)
  {
  }

  lemma SettledEnds(env: Environment, w: World, key: Key, uid: nat, outcome: Outcome, attempts: nat)
    requires attempts > 0 && Settles(env, w, key, uid, outcome)
    ensures Remove(env, w, key, uid, attempts).outcome == outcome
  {
  }

  // -------------------------------------------------------------------- all attempts

  /** ws[i] is where attempt i starts, each but the last lost. */
  ghost predicate Trail(env: Environment, w: World, ws: seq<World>, key: Key, uid: nat) {
    && ws != [] && ws[0] == w
    && forall i :: 0 <= i < |ws| - 1 ==> Lost(env, ws[i], ws[i + 1], key, uid)
  }

  ghost predicate SettledBy(env: Environment, w: World, ws: seq<World>, key: Key, uid: nat, attempts: nat, outcome: Outcome) {
    Trail(env, w, ws, key, uid) && |ws| <= attempts && Settles(env, ws[|ws| - 1], key, uid, outcome)
  }

  ghost predicate AllLost(env: Environment, w: World, ws: seq<World>, key: Key, uid: nat, attempts: nat) {
    Trail(env, w, ws, key, uid) && |ws| == attempts + 1
  }

  /** Some attempt settles it so before the attempts run out; or all of them are lost. */
  ghost predicate Comes(env: Environment, w: World, key: Key, uid: nat, attempts: nat, outcome: Outcome) {
    || (exists ws :: SettledBy(env, w, ws, key, uid, attempts, outcome))
    || (outcome == Failed && exists ws :: AllLost(env, w, ws, key, uid, attempts))
  }

  lemma TrailTail(env: Environment, w: World, ws: seq<World>, key: Key, uid: nat)
    requires Trail(env, w, ws, key, uid) && |ws| > 1
    ensures Lost(env, w, ws[1], key, uid) && Trail(env, ws[1], ws[1..], key, uid)
  {
    var tail := ws[1..];
    assert Lost(env, ws[0], ws[0 + 1], key, uid);
    forall i | 0 <= i < |tail| - 1 ensures Lost(env, tail[i], tail[i + 1], key, uid) {
      assert Lost(env, ws[i + 1], ws[i + 1 + 1], key, uid);
    }
  }

  lemma {:induction false} FollowTrail(env: Environment, w: World, ws: seq<World>, key: Key, uid: nat, attempts: nat)
    requires Trail(env, w, ws, key, uid) && |ws| <= attempts
    ensures Remove(env, w, key, uid, attempts) == Remove(env, ws[|ws| - 1], key, uid, attempts + 1 - |ws|)
    decreases |ws|
  {
    if |ws| > 1 {
      TrailTail(env, w, ws, key, uid);
      LostGoesOn(env, w, ws[1], key, uid, attempts);
      FollowTrail(env, ws[1], ws[1..], key, uid, attempts - 1);
    }
  }

  lemma AllLostFails(env: Environment, w: World, ws: seq<World>, key: Key, uid: nat, attempts: nat)
    requires attempts > 0 && AllLost(env, w, ws, key, uid, attempts)
    ensures Remove(env, w, key, uid, attempts).outcome == Failed
  {
    var init := ws[..attempts];
    forall i | 0 <= i < |init| - 1 ensures Lost(env, init[i], init[i + 1], key, uid) {
      assert Lost(env, ws[i], ws[i + 1], key, uid);
    }
    FollowTrail(env, w, init, key, uid, attempts);
    var last := attempts - 1;
    assert Lost(env, ws[last], ws[last + 1], key, uid);
    LostGoesOn(env, ws[last], ws[last + 1], key, uid, 1);
  }

  lemma ComesIsTheOutcome(env: Environment, w: World, key: Key, uid: nat, attempts: nat, outcome: Outcome)
    requires attempts > 0 && Comes(env, w, key, uid, attempts, outcome)
    ensures Remove(env, w, key, uid, attempts).outcome == outcome
  {
    if ws :| SettledBy(env, w, ws, key, uid, attempts, outcome) {
      FollowTrail(env, w, ws, key, uid, attempts);
      SettledEnds(env, ws[|ws| - 1], key, uid, outcome, attempts + 1 - |ws|);
    } else {
      var ws :| AllLost(env, w, ws, key, uid, attempts);
      AllLostFails(env, w, ws, key, uid, attempts);
    }
  }

  /** An attempt that does not settle the matter is lost. */
  lemma SettlesOrLost(env: Environment, w: World, key: Key, uid: nat) returns (settled: Option<Outcome>, w': World)
    ensures settled.Some? ==> Settles(env, w, key, uid, settled.value)
    ensures settled.None? ==> Lost(env, w, w', key, uid)
  {
    w' := Turn(env, w);
    if env(w.calls).fault.Fails? {
      settled := if env(w.calls).fault.retriable then None else Some(Failed);
    } else if key !in w'.objects {
      settled := Some(Noop);
    } else {
      settled := Refusal(w'.objects[key], uid);
      if settled.None? {
        settled, w' := PatchSettlesOrLost(env, w, key, uid);
      }
    }
  }

  lemma PatchSettlesOrLost(env: Environment, w: World, key: Key, uid: nat) returns (settled: Option<Outcome>, w': World)
    requires ReadsRipe(env, w, key, uid)
    ensures settled.Some? ==> Settles(env, w, key, uid, settled.value)
    ensures settled.None? ==> Lost(env, w, w', key, uid)
  {
    var patch := env(w.calls + 1).fault;
    w' := AtPatch(env, w);
    if patch.Fails? && !patch.landed {
      settled := if patch.retriable then None else Some(Failed);
    } else if key !in w'.objects {
      settled := Some(Failed);
    } else if Overtaken(env, w, key) {
      settled := None;
    } else {
      settled := if patch.Healthy? then Some(Removed) else if patch.retriable then None else Some(Failed);
      w' := Shortened(env, w, key);
    }
  }

  lemma {:induction false} SomethingComes(env: Environment, w: World, key: Key, uid: nat, attempts: nat) returns (outcome: Outcome)
    requires attempts > 0
    ensures Comes(env, w, key, uid, attempts, outcome)
    decreases attempts
  {
    var settled, w' := SettlesOrLost(env, w, key, uid);
    if settled.Some? {
      outcome := settled.value;
      assert SettledBy(env, w, [w], key, uid, attempts, outcome);
    } else if attempts == 1 {
      outcome := Failed;
      assert AllLost(env, w, [w, w'], key, uid, attempts);
    } else {
      outcome := SomethingComes(env, w', key, uid, attempts - 1);
      ComesLater(env, w, w', key, uid, attempts, outcome);
    }
  }

  lemma ComesLater(env: Environment, w: World, w': World, key: Key, uid: nat, attempts: nat, outcome: Outcome)
    requires attempts > 1 && Lost(env, w, w', key, uid) && Comes(env, w', key, uid, attempts - 1, outcome)
    ensures Comes(env, w, key, uid, attempts, outcome)
  {
    var left := attempts - 1;
    if ws :| SettledBy(env, w', ws, key, uid, left, outcome) {
      TrailBefore(env, w, w', ws, key, uid);
      assert SettledBy(env, w, [w] + ws, key, uid, attempts, outcome);
    } else {
      var ws :| AllLost(env, w', ws, key, uid, left);
      TrailBefore(env, w, w', ws, key, uid);
      assert AllLost(env, w, [w] + ws, key, uid, attempts);
    }
  }

  lemma TrailBefore(env: Environment, w: World, w': World, ws: seq<World>, key: Key, uid: nat)
    requires Lost(env, w, w', key, uid) && Trail(env, w', ws, key, uid)
    ensures Trail(env, w, [w] + ws, key, uid)
  {
    var longer := [w] + ws;
    forall i | 0 <= i < |longer| - 1 ensures Lost(env, longer[i], longer[i + 1], key, uid) {
    }
  }

  /** The exact outcome, in every environment: "removed" exactly if some attempt, after
      nothing but lost ones and before the attempts run out, reads the classified object
      ripe and patches it undisturbed; "failed" exactly if an attempt meets an answer not
      worth repeating or an object nobody deleted, or all attempts are lost; and so on. */
  lemma OutcomeIsExact(env: Environment, w: World, key: Key, uid: nat, attempts: nat, outcome: Outcome)
    requires attempts > 0
    ensures Remove(env, w, key, uid, attempts).outcome == outcome <==> Comes(env, w, key, uid, attempts, outcome)
  {
    var actual := SomethingComes(env, w, key, uid, attempts);
    ComesIsTheOutcome(env, w, key, uid, attempts, actual);
    if Comes(env, w, key, uid, attempts, outcome) {
      ComesIsTheOutcome(env, w, key, uid, attempts, outcome);
    }
  }

  // -------------------------------------------------------- when the disturbance ends

  /** A write that leaves both finalizers on the object, or is about something else. */
  predicate Spares(x: Write, key: Key) {
    x.Update? && x.key == key ==> Csi in x.finalizers && Agent in x.finalizers
  }

  predicate LeavesAlone(x: Write, key: Key) {
    match x
    case Create(k, _, _) => k != key
    case Update(k, _, _, _) => k != key
    case Delete(k) => k != key
    case _ => true
  }

  /** Others write as they like but take neither finalizer off the object, no call fails for
      good or with its answer lost; and from call number `quiet` on nobody touches the object
      and every call succeeds. */
  ghost predicate Passing(env: Environment, key: Key, quiet: nat) {
    && (forall n: nat, x :: x in env(n).writes ==> Spares(x, key))
    && (forall n: nat :: env(n).fault.Fails? ==> env(n).fault == Fails(true, false))
    && (forall n: nat, x :: n >= quiet && x in env(n).writes ==> LeavesAlone(x, key))
    && (forall n: nat :: n >= quiet ==> env(n).fault.Healthy?)
  }

  lemma {:induction false} SparedStaysRipe(w: World, xs: seq<Write>, key: Key, uid: nat)
    requires Ripe(w, key, uid) && forall x :: x in xs ==> Spares(x, key)
    ensures Ripe(ApplyAll(w, xs), key, uid)
    decreases |xs|
  {
    if xs != [] {
      assert Spares(xs[0], key);
      SparedStaysRipe(Apply(w, xs[0]), xs[1..], key, uid);
    }
  }

  lemma {:induction false} LeftAloneStays(w: World, xs: seq<Write>, key: Key)
    requires key in w.objects && forall x :: x in xs ==> LeavesAlone(x, key)
    ensures key in ApplyAll(w, xs).objects && ApplyAll(w, xs).objects[key] == w.objects[key]
    decreases |xs|
  {
    if xs != [] {
      assert LeavesAlone(xs[0], key);
      LeftAloneStays(Apply(w, xs[0]), xs[1..], key);
    }
  }

  lemma TurnStaysRipe(env: Environment, w: World, key: Key, uid: nat, quiet: nat)
    requires Passing(env, key, quiet) && Ripe(w, key, uid)
    ensures Ripe(Turn(env, w), key, uid)
    ensures w.calls >= quiet ==> Turn(env, w).objects[key] == w.objects[key]
  {
    SparedStaysRipe(w, env(w.calls).writes, key, uid);
    if w.calls >= quiet {
      LeftAloneStays(w, env(w.calls).writes, key);
    }
  }

  /** An attempt that gets to the patch undisturbed. */
  lemma UndisturbedRemoves(env: Environment, w: World, key: Key, uid: nat, attempts: nat)
    requires attempts > 0 && WellFormed(w) && ReadsRipe(env, w, key, uid) && Untouched(env, w, key) && env(w.calls + 1).fault.Healthy?
    ensures var r := Remove(env, w, key, uid, attempts);
            && r.outcome == Removed && key in r.w.objects && r.w.objects[key].uid == uid
            && Csi !in r.w.objects[key].finalizers && Agent in r.w.objects[key].finalizers
  {
    TurnEvolves(env, w);
    var read, at := Turn(env, w), AtPatch(env, w);
    TurnEvolves(env, read);
    // An unchanged resourceVersion means the object is still the one that was read.
    assert at.objects[key] == read.objects[key];
    assert Agent in Without(at.objects[key].finalizers, Csi);
  }

  /** However others' writes and transient failures interfere: if the disturbance is over
      before the attempts are, the finalizer comes off. */
  lemma {:induction false} RemovedOnceQuiet(env: Environment, w: World, key: Key, uid: nat, attempts: nat, quiet: nat)
    requires attempts > 0 && WellFormed(w) && Ripe(w, key, uid) && Passing(env, key, quiet) && quiet < w.calls + attempts
    ensures var r := Remove(env, w, key, uid, attempts);
            && r.outcome == Removed && key in r.w.objects && r.w.objects[key].uid == uid
            && Csi !in r.w.objects[key].finalizers && Agent in r.w.objects[key].finalizers
    decreases attempts
  {
    TurnStaysRipe(env, w, key, uid, quiet);
    TurnEvolves(env, w);
    var read := Turn(env, w);
    if env(w.calls).fault.Fails? {
      LostGoesOn(env, w, read, key, uid, attempts);
      RemovedOnceQuiet(env, read, key, uid, attempts - 1, quiet);
    } else {
      TurnStaysRipe(env, read, key, uid, quiet);
      TurnEvolves(env, read);
      if env(w.calls + 1).fault.Fails? || Overtaken(env, w, key) {
        LostGoesOn(env, w, AtPatch(env, w), key, uid, attempts);
        RemovedOnceQuiet(env, AtPatch(env, w), key, uid, attempts - 1, quiet);
      } else {
        UndisturbedRemoves(env, w, key, uid, attempts);
      }
    }
  }
}
