/**
  Runs of many passes: a backlog drains at a computable rate, and a chain of a volume and
  its snapshots that somebody asked to delete goes away, snapshots first.
  */
module Draining {
  import opened Wrappers
  import opened ApiServer
  import opened Sweep
  import opened SweepSafety
  import opened SweepProgress

  /** Somebody waits, then a pass runs unthrottled on a cache that is current. */
  ghost predicate PassStep(env: Environment, cfg: Config, w: World, w': World) {
    exists waited: nat, lastSweep: Option<int>, cache: Cache :: RestedPass(env, cfg, w, waited, lastSweep, cache, w')
  }

  ghost predicate RestedPass(env: Environment, cfg: Config, w: World, waited: nat, lastSweep: Option<int>, cache: Cache, w': World) {
    var s := w.(now := w.now + waited);
    Current(cache, s) && !TooSoon(cfg, lastSweep, s.now) && w' == SweepOnce(env, cfg, s, lastSweep, cache).w
  }

  // ------------------------------------------------------------------- the backlog

  /** Nothing that waits for its finalizers is still inside its grace period. */
  ghost predicate Settled(cfg: Config, w: World) {
    forall k :: k in w.objects && w.objects[k].deletedAt.Some? && Csi in w.objects[k].finalizers && Agent in w.objects[k].finalizers
      ==> Due(cfg, w.objects[k], w.now)
  }

  lemma WaitingKeepsSets(cfg: Config, w: World, waited: nat, now: int)
    requires Settled(cfg, w) && w.now <= now
    ensures var s := w.(now := w.now + waited);
            Eligible(cfg, s) == Eligible(cfg, w) && Held(cfg, s, now) == Held(cfg, w, w.now)
  {
    var s := w.(now := w.now + waited);
    forall k | k in w.objects ensures Needed(s, k) == Needed(w, k) {
    }
    assert Eligible(cfg, s) == Eligible(cfg, w);
    assert Held(cfg, s, now) == Held(cfg, w, w.now);
  }

  lemma RestedPassFrees(env: Environment, cfg: Config, w: World, waited: nat, lastSweep: Option<int>, cache: Cache, w': World)
    requires Calm(env) && WellFormed(w) && cfg.maxReclaims >= 0
    requires RestedPass(env, cfg, w, waited, lastSweep, cache, w')
    ensures var s := w.(now := w.now + waited);
            && OnlyFreed(cfg, s, w')
            && |Freed(s, w')| >= Min(|Eligible(cfg, s)|, cfg.maxReclaims - |Held(cfg, s, w'.now)|)
  {
    CalmPass(env, cfg, w.(now := w.now + waited), lastSweep, cache);
  }

  lemma WaitingIsInvisible(cfg: Config, w: World, waited: nat, w': World)
    requires WellFormed(w) && OnlyFreed(cfg, w.(now := w.now + waited), w')
    ensures OnlyFreed(cfg, w, w') && Freed(w.(now := w.now + waited), w') == Freed(w, w')
  {
    forall k ensures Needed(w.(now := w.now + waited), k) == Needed(w, k) {
    }
  }

  lemma StepFrees(env: Environment, cfg: Config, w: World, w': World)
    requires Calm(env) && WellFormed(w) && Settled(cfg, w) && cfg.maxReclaims >= 0 && PassStep(env, cfg, w, w')
    ensures OnlyFreed(cfg, w, w')
    ensures |Freed(w, w')| >= Min(|Eligible(cfg, w)|, cfg.maxReclaims - |Held(cfg, w, w.now)|)
  {
    var waited: nat, lastSweep: Option<int>, cache: Cache :| RestedPass(env, cfg, w, waited, lastSweep, cache, w');
    RestedPassFrees(env, cfg, w, waited, lastSweep, cache, w');
    WaitingIsInvisible(cfg, w, waited, w');
    WaitingKeepsSets(cfg, w, waited, w'.now);
  }

  lemma SetsAfterPass(cfg: Config, w: World, w': World)
    requires Settled(cfg, w) && OnlyFreed(cfg, w, w')
    ensures Settled(cfg, w')
    ensures Held(cfg, w', w'.now) == Held(cfg, w, w.now)
    ensures Eligible(cfg, w') == Eligible(cfg, w) - Freed(w, w') && Freed(w, w') <= Eligible(cfg, w)
  {
    SameSources(cfg, w, w');
    forall k | k in w.objects ensures Due(cfg, w'.objects[k], w'.now) <==> Due(cfg, w.objects[k], w.now) && k !in Freed(w, w') {
    }
    assert Held(cfg, w', w'.now) == Held(cfg, w, w.now);
    assert Eligible(cfg, w') == Eligible(cfg, w) - Freed(w, w');
  }

  /** With K held snapshots, n passes leave at most E - n * (maxReclaims - K) of E
      reclaimable objects: a backlog is gone after E / (maxReclaims - K) passes, rounded up. */
  lemma {:induction false} BacklogDrains(env: Environment, cfg: Config, ws: seq<World>, n: nat)
    requires Calm(env) && |ws| == n + 1 && WellFormed(ws[0]) && Settled(cfg, ws[0])
    requires forall i :: 0 <= i < n ==> PassStep(env, cfg, ws[i], ws[i + 1])
    requires |Held(cfg, ws[0], ws[0].now)| < cfg.maxReclaims
    ensures WellFormed(ws[n]) && Settled(cfg, ws[n])
    ensures Held(cfg, ws[n], ws[n].now) == Held(cfg, ws[0], ws[0].now)
    ensures |Eligible(cfg, ws[n])| <= NonNegative(|Eligible(cfg, ws[0])| - n * (cfg.maxReclaims - |Held(cfg, ws[0], ws[0].now)|))
  {
    if n > 0 {
      BacklogDrains(env, cfg, ws[..n], n - 1);
      var rate := cfg.maxReclaims - |Held(cfg, ws[0], ws[0].now)|;
      assert PassStep(env, cfg, ws[n - 1], ws[n - 1 + 1]);
      StepFrees(env, cfg, ws[n - 1], ws[n]);
      SetsAfterPass(cfg, ws[n - 1], ws[n]);
      assert |Eligible(cfg, ws[n])| == |Eligible(cfg, ws[n - 1])| - |Freed(ws[n - 1], ws[n])|;
      assert n * rate == (n - 1) * rate + rate;
    }
  }

  // --------------------------------------------------------------------- the chain

  /** What is left of the chain is being deleted, past its grace period, owned by the agent,
      held by nobody else's finalizer and mentioned by nobody outside the chain, and the
      chain has all the snapshots of its volumes. Of everything else in the cluster only
      this is asked: nothing is still inside its grace period. */
  ghost predicate Going(cfg: Config, w: World, chain: set<Key>) {
    && WellFormed(w) && Settled(cfg, w) && Closed(w, chain)
    && forall k :: k in chain && k in w.objects ==> GoingAt(cfg, w, k)
  }

  ghost predicate GoingAt(cfg: Config, w: World, k: Key)
    requires k in w.objects
  {
    var o := w.objects[k];
    && o.deletedAt.Some? && w.now - o.deletedAt.value >= cfg.gracePeriod
    && Agent in o.finalizers && (forall f :: f in o.finalizers ==> f == Csi || f == Agent)
    && (if k.kind.Volume? then k.name !in References(w.pvs) else k.name !in ContentHandles(w.contents))
  }

  /** A snapshot taken from a volume of the chain belongs to the chain. */
  ghost predicate Closed(w: World, chain: set<Key>) {
    forall k :: k in w.objects && k.kind.Snapshot? && Key(Volume, w.objects[k].spec.source) in chain ==> k in chain
  }

  /** While a snapshot is left, the chain's volume it was taken from keeps its CSI finalizer. */
  ghost predicate Ordered(w: World, chain: set<Key>) {
    forall k :: k in w.objects && k.kind.Snapshot? && w.objects[k].spec.source != "" ==>
      var v := Key(Volume, w.objects[k].spec.source); v in chain && v in w.objects ==> Csi in w.objects[v].finalizers
  }

  ghost predicate Gone(w: World, chain: set<Key>) {
    forall k :: k in chain ==> k !in w.objects
  }

  /** What the agent may finish: it acts once its own finalizer is the only one left. */
  function Ready(w: World): set<Key> {
    set k | k in w.objects && w.objects[k].deletedAt.Some? && Agent in w.objects[k].finalizers
            && (forall f :: f in w.objects[k].finalizers ==> f == Agent)
  }

  /** The agent finishes some of what it may, at least one if there is any. */
  ghost predicate AgentStep(w: World, w': World) {
    exists gone: set<Key> :: gone <= Ready(w) && (Ready(w) != {} ==> gone != {}) && w' == w.(objects := w.objects - gone)
  }

  function Holders(w: World): set<Key> {
    set k | k in w.objects && Csi in w.objects[k].finalizers
  }

  /** What the two parties have still to finish, in the whole cluster. */
  function Remaining(w: World): nat {
    |w.objects.Keys| + |Holders(w)|
  }

  lemma ChainStaysGoing(cfg: Config, w: World, m: World, chain: set<Key>)
    requires Going(cfg, w, chain) && OnlyFreed(cfg, w, m)
    ensures Going(cfg, m, chain)
  {
    SetsAfterPass(cfg, w, m);
    forall k | k in chain && k in m.objects ensures GoingAt(cfg, m, k) {
      assert k in w.objects && GoingAt(cfg, w, k);
    }
    forall k | k in m.objects && k.kind.Snapshot? && Key(Volume, m.objects[k].spec.source) in chain ensures k in chain {
      assert w.objects[k].spec.source == m.objects[k].spec.source;
    }
  }

  lemma ChainStaysOrdered(cfg: Config, w: World, m: World, chain: set<Key>)
    requires Ordered(w, chain) && OnlyFreed(cfg, w, m)
    ensures Ordered(m, chain)
  {
    forall k | k in m.objects && k.kind.Snapshot? && m.objects[k].spec.source != ""
      ensures var v := Key(Volume, m.objects[k].spec.source); v in chain && v in m.objects ==> Csi in m.objects[v].finalizers
    {
      assert k in w.objects && w.objects[k].spec.source == m.objects[k].spec.source;
      assert m.objects[k].spec.source in SnapshotSources(w.objects);
    }
  }

  lemma HoldersAfterPass(cfg: Config, w: World, m: World)
    requires OnlyFreed(cfg, w, m)
    ensures Holders(m) == Holders(w) - Freed(w, m) && Freed(w, m) <= Holders(w)
  {
  }

  lemma CountHolders(cfg: Config, w: World, m: World)
    requires OnlyFreed(cfg, w, m)
    ensures Remaining(m) == Remaining(w) - |Freed(w, m)|
    ensures Freed(w, m) == {} ==> m.objects == w.objects && Ready(m) == Ready(w)
  {
    HoldersAfterPass(cfg, w, m);
    assert |Holders(m)| == |Holders(w)| - |Freed(w, m)|;
    if Freed(w, m) == {} {
      forall k | k in w.objects ensures m.objects[k] == w.objects[k] {
        assert k !in Freed(w, m);
      }
      assert m.objects == w.objects;
    }
  }

  lemma PassOnChain(env: Environment, cfg: Config, w: World, m: World, chain: set<Key>)
    requires Calm(env) && Going(cfg, w, chain) && Ordered(w, chain) && PassStep(env, cfg, w, m)
    requires |Held(cfg, w, w.now)| < cfg.maxReclaims
    ensures Going(cfg, m, chain) && Ordered(m, chain) && m.objects.Keys == w.objects.Keys
    ensures Held(cfg, m, m.now) == Held(cfg, w, w.now)
    ensures Remaining(m) < Remaining(w) || (Remaining(m) == Remaining(w) && (Gone(w, chain) || Ready(m) != {}))
  {
    StepFrees(env, cfg, w, m);
    SetsAfterPass(cfg, w, m);
    ChainStaysGoing(cfg, w, m, chain);
    ChainStaysOrdered(cfg, w, m, chain);
    CountHolders(cfg, w, m);
    if Freed(w, m) == {} && !Gone(w, chain) {
      assert |Eligible(cfg, w)| == 0;
      SomethingIsReady(cfg, w, chain);
    }
  }

  /** When a pass finds nothing to free, some of the chain is the agent's to finish. */
  lemma SomethingIsReady(cfg: Config, w: World, chain: set<Key>)
    requires Going(cfg, w, chain) && Eligible(cfg, w) == {} && !Gone(w, chain)
    ensures Ready(w) != {}
  {
    var k :| k in chain && k in w.objects && (k.kind.Snapshot? || forall s :: s in chain && s in w.objects ==> s.kind.Volume?);
    assert GoingAt(cfg, w, k);
    assert !Needed(w, k) by {
      assert forall s :: s in w.objects && s.kind.Snapshot? && Key(Volume, w.objects[s].spec.source) == k ==> s in chain;
    }
    assert k !in Eligible(cfg, w);
    assert k in Ready(w);
  }

  lemma AgentOnChain(cfg: Config, m: World, w': World, chain: set<Key>)
    requires Going(cfg, m, chain) && Ordered(m, chain) && AgentStep(m, w')
    ensures Going(cfg, w', chain) && Ordered(w', chain)
    ensures Held(cfg, w', w'.now) == Held(cfg, m, m.now) && w'.objects.Keys <= m.objects.Keys
    ensures Remaining(w') <= Remaining(m) && (Ready(m) != {} ==> Remaining(w') < Remaining(m))
  {
    var gone: set<Key> :| gone <= Ready(m) && (Ready(m) != {} ==> gone != {}) && w' == m.(objects := m.objects - gone);
    FewerObjects(cfg, m, gone, chain);
    assert w'.objects.Keys == m.objects.Keys - gone;
    assert |w'.objects.Keys| == |m.objects.Keys| - |gone|;
    SubsetSize(Holders(w'), Holders(m));
  }

  lemma FewerObjects(cfg: Config, m: World, gone: set<Key>, chain: set<Key>)
    requires Going(cfg, m, chain) && Ordered(m, chain) && gone <= Ready(m)
    ensures var w' := m.(objects := m.objects - gone);
            Going(cfg, w', chain) && Ordered(w', chain) && Held(cfg, w', w'.now) == Held(cfg, m, m.now)
  {
    var w' := m.(objects := m.objects - gone);
    forall k | k in chain && k in w'.objects ensures GoingAt(cfg, w', k) {
      assert GoingAt(cfg, m, k);
    }
    assert forall k :: k in gone ==> k in Ready(m) && Csi !in m.objects[k].finalizers;
    assert Held(cfg, w', w'.now) == Held(cfg, m, m.now);
  }

  /** Passes and agent steps alternate: ws[i] -pass-> ms[i] -agent-> ws[i + 1]. */
  ghost predicate ChainRun(env: Environment, cfg: Config, ws: seq<World>, ms: seq<World>) {
    && |ws| == |ms| + 1
    && forall i :: 0 <= i < |ms| ==> PassStep(env, cfg, ws[i], ms[i]) && AgentStep(ms[i], ws[i + 1])
  }

  /** A chain that somebody asked to delete, anywhere in a cluster: its order is kept in
      every state of every run, and unless it is gone already each round leaves the two
      parties less to do - so after `Remaining(ws[0])` rounds at the latest it is gone. */
  lemma {:induction false} ChainGoesAway(env: Environment, cfg: Config, ws: seq<World>, ms: seq<World>, chain: set<Key>)
    requires Calm(env) && ChainRun(env, cfg, ws, ms)
    requires Going(cfg, ws[0], chain) && Ordered(ws[0], chain) && |Held(cfg, ws[0], ws[0].now)| < cfg.maxReclaims
    ensures forall i :: 0 <= i < |ws| ==> Ordered(ws[i], chain)
    ensures forall i :: 0 <= i < |ms| ==> Ordered(ms[i], chain)
    ensures forall i :: 0 <= i < |ws| ==> Gone(ws[i], chain) || Remaining(ws[i]) + i <= Remaining(ws[0])
    ensures |ms| >= Remaining(ws[0]) ==> Gone(ws[|ms|], chain)
  {
    forall i | 0 <= i < |ms| ensures Ordered(ms[i], chain) {
      ChainInvariant(env, cfg, ws, ms, chain, i);
      PassOnChain(env, cfg, ws[i], ms[i], chain);
    }
    forall i | 0 <= i < |ws| ensures Ordered(ws[i], chain) && (Gone(ws[i], chain) || Remaining(ws[i]) + i <= Remaining(ws[0])) {
      ChainInvariant(env, cfg, ws, ms, chain, i);
    }
    if |ms| >= Remaining(ws[0]) {
      NothingRemains(ws[|ms|], chain);
    }
  }

  lemma NothingRemains(w: World, chain: set<Key>)
    ensures Remaining(w) == 0 ==> Gone(w, chain)
  {
  }

  lemma {:induction false} ChainInvariant(env: Environment, cfg: Config, ws: seq<World>, ms: seq<World>, chain: set<Key>, n: nat)
    requires Calm(env) && ChainRun(env, cfg, ws, ms) && n <= |ms|
    requires Going(cfg, ws[0], chain) && Ordered(ws[0], chain) && |Held(cfg, ws[0], ws[0].now)| < cfg.maxReclaims
    ensures Going(cfg, ws[n], chain) && Ordered(ws[n], chain)
    ensures Held(cfg, ws[n], ws[n].now) == Held(cfg, ws[0], ws[0].now) && ws[n].objects.Keys <= ws[0].objects.Keys
    ensures Gone(ws[n], chain) || Remaining(ws[n]) + n <= Remaining(ws[0])
  {
    if n > 0 {
      ChainInvariant(env, cfg, ws, ms, chain, n - 1);
      assert PassStep(env, cfg, ws[n - 1], ms[n - 1]) && AgentStep(ms[n - 1], ws[n - 1 + 1]);
      PassOnChain(env, cfg, ws[n - 1], ms[n - 1], chain);
      AgentOnChain(cfg, ms[n - 1], ws[n], chain);
    }
  }

  /** In particular a cluster in which everything is being deleted empties. */
  lemma EverythingGoesAway(env: Environment, cfg: Config, ws: seq<World>, ms: seq<World>)
    requires Calm(env) && cfg.maxReclaims > 0 && ChainRun(env, cfg, ws, ms) && WellFormed(ws[0])
    requires Ordered(ws[0], ws[0].objects.Keys) && forall k :: k in ws[0].objects ==> GoingAt(cfg, ws[0], k)
    ensures |ms| >= Remaining(ws[0]) ==> ws[|ms|].objects == map[]
  {
    var chain := ws[0].objects.Keys;
    assert Held(cfg, ws[0], ws[0].now) == {};
    ChainGoesAway(env, cfg, ws, ms, chain);
    ChainInvariant(env, cfg, ws, ms, chain, |ms|);
    if |ms| >= Remaining(ws[0]) {
      assert ws[|ms|].objects.Keys == {};
    }
  }
}
