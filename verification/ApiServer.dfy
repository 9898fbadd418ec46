/**
  The API server as the garbage collector sees it: objects with a UID, a
  resourceVersion, a deletion timestamp and finalizers. Everybody else - the node
  agent, the CSI driver, users - writes between any two of the collector's calls;
  what they write, how long a call takes and whether it fails is chosen by an
  arbitrary `Environment`, so a statement for all environments is a statement for
  all interleavings.
  */
module ApiServer {
  import opened Wrappers

  /** The two finalizers the protocol is about, and anybody else's. */
  datatype Finalizer = Csi | Agent | Foreign(name: string)

  datatype Kind = Volume | Snapshot
  datatype Key = Key(kind: Kind, name: string)

  datatype Status = Status(phase: string, size: int)

  /** An LVMLogicalVolume or an LVMLogicalVolumeSnapshot. `source` is the volume a
      snapshot was taken from; `retain` is the retain-acknowledged annotation. */
  datatype Spec = Spec(retain: Option<string>, group: string, lvmType: string, source: string, lvName: string)
  datatype Object = Object(
    uid: nat,
    rv: nat,
    deletedAt: Option<int>,
    finalizers: seq<Finalizer>,
    spec: Spec,
    status: Option<Status>)

  datatype CsiSource = CsiSource(driver: string, handle: string, attributes: string)
  datatype PersistentVolume = PersistentVolume(
    name: string,
    terminating: bool,
    finalizers: seq<string>,
    csi: Option<CsiSource>,
    otherSpec: string,
    labels: map<string, string>,
    annotations: map<string, string>)

  /** A VolumeSnapshotContent: driver, status.snapshotHandle, spec.source.snapshotHandle. */
  datatype Content = Content(driver: string, statusHandle: Option<string>, sourceHandle: Option<string>)

  /** What the collector did that a reader of its log and of the API server's audit
      trail could see: the uncached lists, the announcement that a finalizer is about
      to go, and the patches that landed. */
  datatype Event =
    | PvsRead(pvs: seq<PersistentVolume>, at: int)
    | SnapshotsRead(sources: set<string>, at: int)
    | ContentsRead(contents: Option<seq<Content>>, at: int)
    | Releasing(key: Key, at: int)
    | Patched(key: Key, before: Object, after: Option<Object>)

  /** `contents` is None when the VolumeSnapshotContent kind is not served. */
  datatype World = World(
    objects: map<Key, Object>,
    pvs: seq<PersistentVolume>,
    contents: Option<seq<Content>>,
    nextUid: nat,
    nextRv: nat,
    now: int,
    calls: nat,
    journal: seq<Event>)

  /** A write by somebody else. Requests the API server would refuse change nothing. */
  datatype Write =
    | Create(key: Key, finalizers: seq<Finalizer>, spec: Spec)
    | Update(key: Key, finalizers: seq<Finalizer>, spec: Spec, status: Option<Status>)
    | Delete(key: Key)
    | SetPersistentVolumes(pvs: seq<PersistentVolume>)
    | SetContents(contents: Option<seq<Content>>)

  /** How one call of the collector fares. A failed call may nevertheless have landed. */
  datatype Fault = Healthy | Fails(retriable: bool, landed: bool)
  datatype Tick = Tick(writes: seq<Write>, elapsed: nat, fault: Fault, expired: bool)

  /** What happens around the n-th API call, for every n. */
  type Environment = nat -> Tick

  // ---------------------------------------------------------------- the server

  /** Every UID and every resourceVersion in use has been handed out. */
  ghost predicate WellFormed(w: World) {
    forall k :: k in w.objects ==> w.objects[k].uid < w.nextUid && w.objects[k].rv < w.nextRv
  }

  /** Storing a new finalizer list, spec and status under an existing key: no new
      finalizer on an object being deleted, and a deleted object goes away with its
      last finalizer. */
  function Put(w: World, key: Key, finalizers: seq<Finalizer>, spec: Spec, status: Option<Status>): World
    requires key in w.objects
  {
    var o := w.objects[key];
    if o.deletedAt.Some? && exists f :: f in finalizers && f !in o.finalizers then w
    else if o.deletedAt.Some? && finalizers == [] then w.(objects := w.objects - {key})
    else
      var stored := o.(finalizers := finalizers, spec := spec, status := status, rv := w.nextRv);
      w.(objects := w.objects[key := stored], nextRv := w.nextRv + 1)
  }

  function Apply(w: World, x: Write): World {
    match x
    case Create(key, finalizers, spec) =>
      if key in w.objects then w
      else
        var o := Object(w.nextUid, w.nextRv, None, finalizers, spec, None);
        w.(objects := w.objects[key := o], nextUid := w.nextUid + 1, nextRv := w.nextRv + 1)
    case Update(key, finalizers, spec, status) =>
      if key !in w.objects then w else Put(w, key, finalizers, spec, status)
    case Delete(key) =>
      if key !in w.objects || w.objects[key].deletedAt.Some? then w
      else if w.objects[key].finalizers == [] then w.(objects := w.objects - {key})
      else
        var o := w.objects[key].(deletedAt := Some(w.now), rv := w.nextRv);
        w.(objects := w.objects[key := o], nextRv := w.nextRv + 1)
    case SetPersistentVolumes(pvs) => w.(pvs := pvs)
    case SetContents(contents) => w.(contents := contents)
  }

  function ApplyAll(w: World, xs: seq<Write>): World
    decreases |xs|
  {
    if xs == [] then w else ApplyAll(Apply(w, xs[0]), xs[1..])
  }

  /** Everybody else's turn before the collector's next call is served. */
  function Turn(env: Environment, w: World): World {
    var tick := env(w.calls);
    var w' := ApplyAll(w, tick.writes);
    w'.(now := w'.now + tick.elapsed, calls := w.calls + 1)
  }

  function Note(w: World, e: Event): World {
    w.(journal := w.journal + [e])
  }

  // ------------------------------------------------------- the collector's calls

  datatype GetReply = Found(live: Object) | NotFound | GetFailed(retriable: bool)
  datatype Got = Got(w: World, reply: GetReply)

  function Get(env: Environment, w: World, key: Key): Got {
    var w' := Turn(env, w);
    match env(w.calls).fault
    case Fails(retriable, _) => Got(w', GetFailed(retriable))
    case Healthy => Got(w', if key in w'.objects then Found(w'.objects[key]) else NotFound)
  }

  datatype PatchReply = Written | PatchFailed(retriable: bool)
  datatype PatchResult = PatchResult(w: World, reply: PatchReply)

  /** A merge patch of metadata.finalizers under an optimistic lock on `base`. */
  function Patch(env: Environment, w: World, key: Key, base: Object, finalizers: seq<Finalizer>): PatchResult {
    var w' := Turn(env, w);
    var fault := env(w.calls).fault;
    if fault.Fails? && !fault.landed then PatchResult(w', PatchFailed(fault.retriable))
    else if key !in w'.objects then PatchResult(w', PatchFailed(false))
    else if w'.objects[key].rv != base.rv then PatchResult(w', PatchFailed(true))
    else
      var before := w'.objects[key];
      var put := Put(w', key, finalizers, before.spec, before.status);
      var after := if key in put.objects then Some(put.objects[key]) else None;
      var done := Note(put, Patched(key, before, after));
      PatchResult(done, if fault.Fails? then PatchFailed(fault.retriable) else Written)
  }

  /** The volumes named as a source by a snapshot the server holds. */
  function SnapshotSources(objects: map<Key, Object>): set<string> {
    set k | k in objects && k.kind.Snapshot? && objects[k].spec.source != "" :: objects[k].spec.source
  }

  // -------------------------------------------------------------------- what holds

  /** From w to w' only other parties wrote: an object that survives keeps its UID,
      its deletion timestamp once set, and gains no finalizer while being deleted; an
      unchanged resourceVersion means an unchanged object; a new object has a new UID. */
  ghost predicate Evolves(w: World, w': World) {
    && w.nextUid <= w'.nextUid && w.nextRv <= w'.nextRv && w.now <= w'.now
    && forall k :: k in w'.objects ==> Traces(w, k, w'.objects[k])
  }

  /** o', found under k later on, is what became of w's object there, or is newer than w. */
  ghost predicate Traces(w: World, k: Key, o': Object) {
    || (k in w.objects && Descends(w, w.objects[k], o'))
    || (o'.uid >= w.nextUid && o'.rv >= w.nextRv)
  }

  ghost predicate Descends(w: World, o: Object, o': Object) {
    && o'.uid == o.uid
    && (o.deletedAt.Some? ==> o'.deletedAt == o.deletedAt && forall f :: f in o'.finalizers ==> f in o.finalizers)
    && (o' == o || o'.rv >= w.nextRv)
  }

  lemma TracesBack(w0: World, w1: World, k: Key, o: Object)
    requires Evolves(w0, w1) && WellFormed(w0) && WellFormed(w1) && Traces(w1, k, o)
    ensures Traces(w0, k, o)
  {
    if k in w1.objects && Descends(w1, w1.objects[k], o) && k in w0.objects && Descends(w0, w0.objects[k], w1.objects[k]) {
      assert Descends(w0, w0.objects[k], o);
    }
  }

  lemma EvolvesTransitive(w0: World, w1: World, w2: World)
    requires Evolves(w0, w1) && Evolves(w1, w2) && WellFormed(w0) && WellFormed(w1)
    ensures Evolves(w0, w2)
  {
    forall k | k in w2.objects ensures Traces(w0, k, w2.objects[k]) {
      TracesBack(w0, w1, k, w2.objects[k]);
    }
  }

  lemma ApplyEvolves(w: World, x: Write)
    requires WellFormed(w)
    ensures WellFormed(Apply(w, x)) && Evolves(w, Apply(w, x))
    ensures Apply(w, x).journal == w.journal && Apply(w, x).now == w.now
  {
  }

  lemma {:induction false} ApplyAllEvolves(w: World, xs: seq<Write>)
    requires WellFormed(w)
    ensures WellFormed(ApplyAll(w, xs)) && Evolves(w, ApplyAll(w, xs))
    ensures ApplyAll(w, xs).journal == w.journal && ApplyAll(w, xs).now == w.now
    decreases |xs|
  {
    if xs != [] {
      ApplyEvolves(w, xs[0]);
      ApplyAllEvolves(Apply(w, xs[0]), xs[1..]);
      EvolvesTransitive(w, Apply(w, xs[0]), ApplyAll(w, xs));
    }
  }

  /** Whatever others do between two calls, the server only moves forward. */
  lemma TurnEvolves(env: Environment, w: World)
    requires WellFormed(w)
    ensures WellFormed(Turn(env, w)) && Evolves(w, Turn(env, w))
    ensures Turn(env, w).journal == w.journal && Turn(env, w).calls == w.calls + 1
  {
    ApplyAllEvolves(w, env(w.calls).writes);
  }

  lemma {:induction false} ApplyAllKeepsJournal(w: World, xs: seq<Write>)
    ensures ApplyAll(w, xs).journal == w.journal
    decreases |xs|
  {
    if xs != [] {
      ApplyAllKeepsJournal(Apply(w, xs[0]), xs[1..]);
    }
  }

  lemma TurnKeepsJournal(env: Environment, w: World)
    ensures Turn(env, w).journal == w.journal
  {
    ApplyAllKeepsJournal(w, env(w.calls).writes);
  }
}
