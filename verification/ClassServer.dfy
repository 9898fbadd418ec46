/**
  The API server as the LocalStorageClass controller sees it, for one name: at most one
  LocalStorageClass and at most one StorageClass. Users and other provisioners write
  between any two of the controller's calls, a call may fail although it landed, the
  process may die at any call, and an informer read may return any state since the pass
  began: an arbitrary `Environment` decides.
  */
module ClassServer {
  import opened Wrappers
  import opened StorageClasses

  datatype Actor = Us | Others

  /** One state of the server and who brought it about. */
  datatype View = View(actor: Actor, lsc: Option<LocalStorageClass>, sc: Option<StorageClass>)

  /** Every state the server went through: `past`, then `now`. The current pass began
      with state number `since`. Once the process is `down`, its calls do nothing. */
  datatype Cluster = Cluster(name: string, past: seq<View>, now: View, since: nat, nextRv: nat, calls: nat, down: bool)

  /** A write by somebody else. Nobody else touches the controller's finalizers or a
      StorageClass of the controller's provisioner. */
  datatype Write =
    | CreateClass(lsc: LocalStorageClass)
    | EditClass(lsc: LocalStorageClass)
    | DeleteClass
    | PutForeignSc(sc: StorageClass)
    | DropForeignSc

  datatype Fault = Healthy | Fails(conflict: bool, landed: bool) | Crash(landed: bool)
  datatype Tick = Tick(writes: seq<Write>, fault: Fault, lag: nat)
  type Environment = nat -> Tick

  /** State number i of the server, counting from 0. */
  function At(w: Cluster, i: nat): View {
    if i < |w.past| then w.past[i] else w.now
  }

  function Push(w: Cluster, actor: Actor, lsc: Option<LocalStorageClass>, sc: Option<StorageClass>): Cluster {
    w.(past := w.past + [w.now], now := View(actor, lsc, sc), nextRv := w.nextRv + 1)
  }

  function Apply(w: Cluster, x: Write): Cluster {
    match x
    case CreateClass(c) =>
      if w.now.lsc.Some? then w
      else Push(w, Others, Some(c.(name := w.name, rv := w.nextRv, terminating := false, finalizers := [])), w.now.sc)
    case EditClass(c) =>
      if w.now.lsc.None? then w
      else
        var existing := w.now.lsc.value;
        var edited := c.(name := w.name, rv := w.nextRv, terminating := existing.terminating, finalizers := existing.finalizers);
        Push(w, Others, Some(edited), w.now.sc)
    case DeleteClass =>
      if w.now.lsc.None? || w.now.lsc.value.terminating then w
      else if w.now.lsc.value.finalizers == [] then Push(w, Others, None, w.now.sc)
      else Push(w, Others, Some(w.now.lsc.value.(terminating := true, rv := w.nextRv)), w.now.sc)
    case PutForeignSc(sc) =>
      if Ours(sc) || (w.now.sc.Some? && Ours(w.now.sc.value)) then w
      else Push(w, Others, w.now.lsc, Some(sc.(name := w.name, rv := w.nextRv)))
    case DropForeignSc =>
      if w.now.sc.None? || Ours(w.now.sc.value) then w else Push(w, Others, w.now.lsc, None)
  }

  function ApplyAll(w: Cluster, xs: seq<Write>): Cluster
    decreases |xs|
  {
    if xs == [] then w else ApplyAll(Apply(w, xs[0]), xs[1..])
  }

  /** Everybody else's turn before the controller's next call is served. */
  function Turn(env: Environment, w: Cluster): Cluster {
    ApplyAll(w, env(w.calls).writes).(calls := w.calls + 1)
  }

  // ------------------------------------------------------------------------- reads

  datatype Reply<+T> = Found(value: T) | NotFound | Unread
  datatype Read<+T> = Read(w: Cluster, reply: Reply<T>)

  function Serve(env: Environment, w: Cluster): Cluster {
    if w.down then w
    else
      var w' := Turn(env, w);
      if env(w.calls).fault.Crash? then w'.(down := true) else w'
  }

  predicate Served(env: Environment, w: Cluster) {
    !w.down && env(w.calls).fault.Healthy?
  }

  /** An informer read: some state since the pass began. */
  function Cached(env: Environment, w: Cluster, w': Cluster): View {
    var lag := env(w.calls).lag;
    At(w', if |w'.past| - lag < w'.since then w'.since else |w'.past| - lag)
  }

  function ReplyWith<T>(found: Option<T>): Reply<T> {
    match found case Some(x) => Found(x) case None => NotFound
  }

  function GetClass(env: Environment, w: Cluster): Read<LocalStorageClass> {
    var w' := Serve(env, w);
    Read(w', if Served(env, w) then ReplyWith(Cached(env, w, w').lsc) else Unread)
  }

  function GetSc(env: Environment, w: Cluster): Read<StorageClass> {
    var w' := Serve(env, w);
    Read(w', if Served(env, w) then ReplyWith(Cached(env, w, w').sc) else Unread)
  }

  /** The read that opens a pass is current. */
  function OpenPass(env: Environment, w: Cluster): Read<LocalStorageClass> {
    var w' := Serve(env, w);
    Read(w'.(since := |w'.past|), if Served(env, w) then ReplyWith(w'.now.lsc) else Unread)
  }

  function ListScs(env: Environment, w: Cluster): Read<seq<StorageClass>> {
    var w' := Serve(env, w);
    Read(w', if Served(env, w) then Found(if w'.now.sc.Some? then [w'.now.sc.value] else []) else Unread)
  }

  /** A read of something else: the LVMVolumeGroups, the configuration Secret. */
  function ReadOther(env: Environment, w: Cluster): Read<bool> {
    Read(Serve(env, w), if Served(env, w) then Found(true) else Unread)
  }

  // ------------------------------------------------------------------------ writes

  datatype Written = Accepted(w: Cluster) | Refused(w: Cluster, conflict: bool)

  predicate Lands(f: Fault) {
    f.Healthy? || f.landed
  }

  function Answer(f: Fault, served: Written): Written {
    match f
    case Healthy => served
    case Fails(conflict, _) => Refused(served.w, conflict)
    case Crash(_) => Refused(served.w.(down := true), false)
  }

  function IfLanded(env: Environment, w: Cluster, served: Cluster -> Written): Written {
    if w.down then Refused(w, false)
    else
      var w', f := Turn(env, w), env(w.calls).fault;
      Answer(f, if Lands(f) then served(w') else Refused(w', false))
  }

  /** Storing a finalizer list: no new finalizer on an object being deleted, and a
      deleted object goes away with its last one. */
  function StoreClass(w: Cluster, base: LocalStorageClass, finalizers: seq<Holder>): Written {
    if w.now.lsc.None? then Refused(w, false)
    else if w.now.lsc.value.rv != base.rv then Refused(w, true)
    else
      var c := w.now.lsc.value;
      if c.terminating && exists f :: f in finalizers && f !in c.finalizers then Refused(w, false)
      else if c.terminating && finalizers == [] then Accepted(Push(w, Us, None, w.now.sc))
      else Accepted(Push(w, Us, Some(c.(finalizers := finalizers, rv := w.nextRv)), w.now.sc))
  }

  function UpdateClass(env: Environment, w: Cluster, base: LocalStorageClass, finalizers: seq<Holder>): Written {
    IfLanded(env, w, w' => StoreClass(w', base, finalizers))
  }

  function StoreSc(w: Cluster, base: StorageClass, finalizers: seq<Holder>): Written {
    if w.now.sc.None? then Refused(w, false)
    else if w.now.sc.value.rv != base.rv then Refused(w, true)
    else
      var sc := w.now.sc.value;
      if sc.terminating && exists f :: f in finalizers && f !in sc.finalizers then Refused(w, false)
      else if sc.terminating && finalizers == [] then Accepted(Push(w, Us, w.now.lsc, None))
      else Accepted(Push(w, Us, w.now.lsc, Some(sc.(finalizers := finalizers, rv := w.nextRv))))
  }

  function UpdateSc(env: Environment, w: Cluster, base: StorageClass, finalizers: seq<Holder>): Written {
    IfLanded(env, w, w' => StoreSc(w', base, finalizers))
  }

  /** A delete names the StorageClass and nothing more. */
  function RemoveSc(w: Cluster): Written {
    if w.now.sc.None? then Refused(w, false)
    else if w.now.sc.value.finalizers == [] then Accepted(Push(w, Us, w.now.lsc, None))
    else if w.now.sc.value.terminating then Accepted(w)
    else Accepted(Push(w, Us, w.now.lsc, Some(w.now.sc.value.(terminating := true, rv := w.nextRv))))
  }

  function DeleteSc(env: Environment, w: Cluster): Written {
    IfLanded(env, w, RemoveSc)
  }

  function AddSc(w: Cluster, sc: StorageClass): Written {
    if w.now.sc.Some? then Refused(w, false)
    else Accepted(Push(w, Us, w.now.lsc, Some(sc.(name := w.name, rv := w.nextRv))))
  }

  function CreateSc(env: Environment, w: Cluster, sc: StorageClass): Written {
    IfLanded(env, w, w' => AddSc(w', sc))
  }

  /** The status subresource of whatever LocalStorageClass has the name now; a write that
      would change nothing is skipped. */
  function StoreStatus(w: Cluster, phase: Option<Phase>, ready: Condition): Written {
    if w.now.lsc.None? then Refused(w, false)
    else
      var c := w.now.lsc.value;
      var kept := if c.status.Some? then c.status.value.phase else NoPhase;
      var status := Some(Status(if phase.Some? then phase.value else kept, Some(ready)));
      if c.status == status then Accepted(w)
      else Accepted(Push(w, Us, Some(c.(status := status, rv := w.nextRv)), w.now.sc))
  }

  function WriteStatus(env: Environment, w: Cluster, phase: Option<Phase>, ready: Condition): Written {
    IfLanded(env, w, w' => StoreStatus(w', phase, ready))
  }
}
