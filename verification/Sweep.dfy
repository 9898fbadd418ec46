/**
  One pass of the garbage collector, as a function of the environment, the world, the
  collector's own state and whatever the (possibly stale) cache happened to hold.
  */
module Sweep {
  import opened Wrappers
  import opened ApiServer
  import opened FinalizerRemoval

  const SECOND: int := 1_000_000_000
  const LIVE_CONFIRMATION_MAX_AGE: int := SECOND
  const RECLAIM_BACKLOG_REQUEUE: int := SECOND
  const PROVISIONER: string := "local.csi.storage.deckhouse.io"
  const UNKNOWN: string := "Unknown"

  datatype State = Active | Retained | Terminating | Blocked
  datatype Reason =
    | NoReason | SnapshotsPresent | AgentFinalizerAbsent | PersistentVolumeExists
    | VolumeSnapshotContentExists | SuccessorInPlace | ApiError | RemovalFailed
  datatype Verdict = Verdict(state: State, reason: Reason, requeueAfter: int)

  datatype Config = Config(gracePeriod: int, minInterval: int, maxReclaims: int)

  /** A listed object together with its name. */
  datatype Item = Item(name: string, obj: Object)

  // ------------------------------------------------------- what blocks a reclaim

  datatype PvReference = PvReference(name: string, driver: string)

  /** A PersistentVolume refers to a volume by its name, whoever provisioned it, or by
      its CSI handle if it is this driver's. */
  predicate Refers(pv: PersistentVolume, name: string) {
    || pv.name == name
    || (pv.csi.Some? && pv.csi.value.driver == PROVISIONER && pv.csi.value.handle != "" && pv.csi.value.handle == name)
  }

  function Keep(m: map<string, PvReference>, key: string, ref: PvReference): map<string, PvReference> {
    if key in m then m else m[key := ref]
  }

  function AddReferences(m: map<string, PvReference>, pv: PersistentVolume): map<string, PvReference> {
    var ref := PvReference(pv.name, if pv.csi.Some? then pv.csi.value.driver else "");
    var named := Keep(m, pv.name, ref);
    if pv.csi.Some? && pv.csi.value.driver == PROVISIONER && pv.csi.value.handle != ""
    then Keep(named, pv.csi.value.handle, ref)
    else named
  }

  function References(pvs: seq<PersistentVolume>): map<string, PvReference> {
    if pvs == [] then map[] else AddReferences(References(pvs[..|pvs| - 1]), pvs[|pvs| - 1])
  }

  predicate Holds(c: Content, name: string) {
    c.driver == PROVISIONER && name != "" && (c.statusHandle == Some(name) || c.sourceHandle == Some(name))
  }

  function HandlesOf(c: Content): set<string> {
    if c.driver != PROVISIONER then {}
    else
      (if c.statusHandle.Some? && c.statusHandle.value != "" then {c.statusHandle.value} else {})
      + (if c.sourceHandle.Some? && c.sourceHandle.value != "" then {c.sourceHandle.value} else {})
  }

  function Handles(contents: seq<Content>): set<string> {
    if contents == [] then {} else Handles(contents[..|contents| - 1]) + HandlesOf(contents[|contents| - 1])
  }

  /** A kind that is not served refers to nothing. */
  function ContentHandles(contents: Option<seq<Content>>): set<string> {
    if contents.None? then {} else Handles(contents.value)
  }

  function Sources(snapshots: seq<Item>): set<string> {
    if snapshots == [] then {}
    else
      var last := snapshots[|snapshots| - 1].obj.spec.source;
      Sources(snapshots[..|snapshots| - 1]) + (if last != "" then {last} else {})
  }

  // ---------------------------------------------------- the uncached confirmation

  /** `readAt` is when the picture was completed, None before the first read. */
  datatype Live = Live(
    readAt: Option<int>,
    referenced: map<string, PvReference>,
    snapshotted: set<string>,
    snapshotContents: set<string>)

  const NEVER_READ: Live := Live(None, map[], {}, {})

  datatype Listed = Listed(w: World, ok: bool)

  function ListPvs(env: Environment, w: World): Listed {
    var w' := Turn(env, w);
    if env(w.calls).fault.Healthy? then Listed(Note(w', PvsRead(w'.pvs, w'.now)), true) else Listed(w', false)
  }

  function ListSnapshots(env: Environment, w: World): Listed {
    var w' := Turn(env, w);
    if env(w.calls).fault.Healthy? then Listed(Note(w', SnapshotsRead(SnapshotSources(w'.objects), w'.now)), true)
    else Listed(w', false)
  }

  function ListContents(env: Environment, w: World): Listed {
    var w' := Turn(env, w);
    if env(w.calls).fault.Healthy? then Listed(Note(w', ContentsRead(w'.contents, w'.now)), true) else Listed(w', false)
  }

  datatype Loaded = Loaded(w: World, live: Live, ok: bool)

  predicate Fresh(live: Live, now: int) {
    live.readAt.Some? && now - live.readAt.value < LIVE_CONFIRMATION_MAX_AGE
  }

  function Load(env: Environment, w: World, live: Live): Loaded {
    if Fresh(live, w.now) then Loaded(w, live, true)
    else
      var pvs := ListPvs(env, w);
      if !pvs.ok then Loaded(pvs.w, live, false)
      else
        var snapshots := ListSnapshots(env, pvs.w);
        if !snapshots.ok then Loaded(snapshots.w, live, false)
        else
          var contents := ListContents(env, snapshots.w);
          if !contents.ok then Loaded(contents.w, live, false)
          else
            var picture := Live(Some(contents.w.now), References(pvs.w.pvs),
                                SnapshotSources(snapshots.w.objects), ContentHandles(contents.w.contents));
            Loaded(contents.w, picture, true)
  }

  // ------------------------------------------------------------------ one reclaim

  datatype Budget = Budget(remaining: int, deferred: nat, exhausted: bool)

  /** What a pass carries from one object to the next. */
  datatype Progress = Progress(w: World, live: Live, budget: Budget)
  datatype Attempted = Attempted(p: Progress, verdict: Verdict)

  function LiveRefusal(live: Live, key: Key): Reason {
    match key.kind
    case Volume =>
      if key.name in live.referenced then PersistentVolumeExists
      else if key.name in live.snapshotted then SnapshotsPresent
      else NoReason
    case Snapshot => if key.name in live.snapshotContents then VolumeSnapshotContentExists else NoReason
  }

  /** `expired` is whether the pass's own deadline has passed or the manager is stopping. */
  function RemovalVerdict(outcome: Outcome, expired: bool): Verdict {
    match outcome
    case AgentAbsent => Verdict(Blocked, AgentFinalizerAbsent, 0)
    case Successor => Verdict(Blocked, SuccessorInPlace, 0)
    case Failed => if expired then Verdict(Terminating, NoReason, 0) else Verdict(Blocked, RemovalFailed, 0)
    case Removed => Verdict(Terminating, NoReason, 0)
    case Noop => Verdict(Terminating, NoReason, 0)
  }

  /** The part of a reclaim that costs something: budget, confirmation, write. */
  function Attempt(env: Environment, p: Progress, key: Key, uid: nat): Attempted {
    if p.budget.remaining <= 0 then
      var deferred := p.budget.(deferred := p.budget.deferred + 1, exhausted := true);
      Attempted(p.(budget := deferred), Verdict(Terminating, NoReason, RECLAIM_BACKLOG_REQUEUE))
    else
      var spent := p.budget.(remaining := p.budget.remaining - 1);
      var loaded := Load(env, p.w, p.live);
      var confirmed := Progress(loaded.w, loaded.live, spent);
      if !loaded.ok then Attempted(confirmed, Verdict(Blocked, ApiError, 0))
      else
        var refusal := LiveRefusal(loaded.live, key);
        if refusal != NoReason then Attempted(confirmed, Verdict(Blocked, refusal, 0))
        else
          var announced := Note(loaded.w, Releasing(key, loaded.w.now));
          var removal := Remove(env, announced, key, uid, ATTEMPTS);
          Attempted(confirmed.(w := removal.w), RemovalVerdict(removal.outcome, env(removal.w.calls).expired))
  }

  /** The refusals that cost nothing, on the cached object; None means "go on". */
  function ScreenVolume(cfg: Config, now: int, snapshotted: set<string>, item: Item): Option<Verdict> {
    var o := item.obj;
    if o.deletedAt.None? then
      Some(Verdict(if o.spec.retain == Some("true") then Retained else Active, NoReason, 0))
    else if item.name in snapshotted then Some(Verdict(Blocked, SnapshotsPresent, 0))
    else ScreenDeleted(cfg, now, o)
  }

  function ScreenDeleted(cfg: Config, now: int, o: Object): Option<Verdict>
    requires o.deletedAt.Some?
  {
    if Agent !in o.finalizers then Some(Verdict(Blocked, AgentFinalizerAbsent, 0))
    else if now - o.deletedAt.value < cfg.gracePeriod then
      Some(Verdict(Terminating, NoReason, cfg.gracePeriod - (now - o.deletedAt.value)))
    else None
  }

  function Reclaim(env: Environment, cfg: Config, snapshotted: set<string>, p: Progress, item: Item): Attempted {
    var screened := ScreenVolume(cfg, p.w.now, snapshotted, item);
    if screened.Some? then Attempted(p, screened.value) else Attempt(env, p, Key(Volume, item.name), item.obj.uid)
  }

  function ReclaimSnapshot(env: Environment, cfg: Config, p: Progress, item: Item): Attempted
    requires item.obj.deletedAt.Some?
  {
    var screened := ScreenDeleted(cfg, p.w.now, item.obj);
    if screened.Some? then Attempted(p, screened.value) else Attempt(env, p, Key(Snapshot, item.name), item.obj.uid)
  }

  // --------------------------------------------------------- the published picture

  datatype PhaseAndType = PhaseAndType(phase: string, lvmType: string)
  datatype Orphan = Orphan(name: string, group: string, lvmType: string, state: State, reason: Reason, bytes: int)
  datatype OrphanedSnapshot = OrphanedSnapshot(name: string, volume: string, state: State, reason: Reason, bytes: int)

  datatype Picture = Picture(
    countBy: map<PhaseAndType, int>,
    bytesBy: map<PhaseAndType, int>,
    orphans: seq<Orphan>,
    orphanedSnapshots: seq<OrphanedSnapshot>,
    awaiting: map<Kind, int>)

  const EMPTY: Picture := Picture(map[], map[], [], [], map[])

  function Bump<K>(m: map<K, int>, k: K, amount: int): map<K, int> {
    m[k := (if k in m then m[k] else 0) + amount]
  }

  function PhaseOf(o: Object): string {
    if o.status.None? || o.status.value.phase == "" then UNKNOWN else o.status.value.phase
  }

  function TypeOf(o: Object): string {
    if o.spec.lvmType == "" then UNKNOWN else o.spec.lvmType
  }

  function BytesOf(o: Object): int {
    if o.status.None? then 0 else o.status.value.size
  }

  predicate AwaitsAgent(o: Object) {
    o.deletedAt.Some? && Agent in o.finalizers
  }

  /** The earlier of two requeue delays; zero or less is "no request". */
  function Soonest(a: int, b: int): int {
    if a <= 0 then b else if b <= 0 then a else Min(a, b)
  }

  // --------------------------------------------------------------------- the pass

  datatype Pass = Pass(p: Progress, picture: Picture, next: int)

  function CountVolume(picture: Picture, o: Object): Picture {
    var key := PhaseAndType(PhaseOf(o), TypeOf(o));
    picture.(countBy := Bump(picture.countBy, key, 1), bytesBy := Bump(picture.bytesBy, key, BytesOf(o)))
  }

  function VolumeStep(env: Environment, cfg: Config, referenced: map<string, PvReference>, snapshotted: set<string>,
                      s: Pass, item: Item): Pass {
    var o := item.obj;
    var counted := s.(picture := CountVolume(s.picture, o));
    if Csi !in o.finalizers then
      if AwaitsAgent(o) then
        counted.(picture := counted.picture.(awaiting := Bump(counted.picture.awaiting, Volume, 1)))
      else counted
    else if item.name in referenced then counted
    else
      var r := Reclaim(env, cfg, snapshotted, s.p, item);
      var orphan := Orphan(item.name, o.spec.group, TypeOf(o), r.verdict.state, r.verdict.reason, BytesOf(o));
      Pass(r.p, counted.picture.(orphans := counted.picture.orphans + [orphan]), Soonest(s.next, r.verdict.requeueAfter))
  }

  function SnapshotStep(env: Environment, cfg: Config, s: Pass, item: Item): Pass {
    var o := item.obj;
    if Csi !in o.finalizers then
      if AwaitsAgent(o) then s.(picture := s.picture.(awaiting := Bump(s.picture.awaiting, Snapshot, 1))) else s
    else if o.deletedAt.None? then s
    else
      var r := ReclaimSnapshot(env, cfg, s.p, item);
      var orphan := OrphanedSnapshot(item.name, o.spec.source, r.verdict.state, r.verdict.reason, BytesOf(o));
      Pass(r.p, s.picture.(orphanedSnapshots := s.picture.orphanedSnapshots + [orphan]), Soonest(s.next, r.verdict.requeueAfter))
  }

  function SweepSnapshots(env: Environment, cfg: Config, s: Pass, items: seq<Item>): Pass {
    if items == [] then s
    else SnapshotStep(env, cfg, SweepSnapshots(env, cfg, s, items[..|items| - 1]), items[|items| - 1])
  }

  function SweepVolumes(env: Environment, cfg: Config, referenced: map<string, PvReference>, snapshotted: set<string>,
                        s: Pass, items: seq<Item>): Pass {
    if items == [] then s
    else
      VolumeStep(env, cfg, referenced, snapshotted,
                 SweepVolumes(env, cfg, referenced, snapshotted, s, items[..|items| - 1]), items[|items| - 1])
  }

  /** The cached lists, None where listing failed. Any contents at all. */
  datatype Cache = Cache(volumes: Option<seq<Item>>, snapshots: Option<seq<Item>>, pvs: Option<seq<PersistentVolume>>)

  datatype SweepOutcome = Throttled(wait: int) | ListFailed | Published(picture: Picture, next: int, budget: Budget)
  datatype Swept = Swept(w: World, lastSweep: Option<int>, outcome: SweepOutcome)

  predicate TooSoon(cfg: Config, lastSweep: Option<int>, now: int) {
    lastSweep.Some? && now - lastSweep.value < cfg.minInterval
  }

  function Start(cfg: Config, w: World): Pass {
    Pass(Progress(w, NEVER_READ, Budget(cfg.maxReclaims, 0, false)), EMPTY, 0)
  }

  function SnapshotHalf(env: Environment, cfg: Config, w: World, cache: Cache): Pass
    requires cache.snapshots.Some?
  {
    SweepSnapshots(env, cfg, Start(cfg, w), cache.snapshots.value)
  }

  function VolumeHalf(env: Environment, cfg: Config, w: World, cache: Cache): Pass
    requires cache.volumes.Some? && cache.snapshots.Some? && cache.pvs.Some?
  {
    SweepVolumes(env, cfg, References(cache.pvs.value), Sources(cache.snapshots.value),
                 SnapshotHalf(env, cfg, w, cache).(next := 0), cache.volumes.value)
  }

  function NextSweep(snapshotsNext: int, volumes: Pass): int {
    var next := Soonest(volumes.next, snapshotsNext);
    if volumes.p.budget.exhausted then Soonest(next, RECLAIM_BACKLOG_REQUEUE) else next
  }

  /** Snapshots first, then volumes, on one budget and one confirmation. */
  function SweepOnce(env: Environment, cfg: Config, w: World, lastSweep: Option<int>, cache: Cache): Swept {
    if TooSoon(cfg, lastSweep, w.now) then Swept(w, lastSweep, Throttled(cfg.minInterval - (w.now - lastSweep.value)))
    else if cache.volumes.None? || cache.snapshots.None? || cache.pvs.None? then Swept(w, lastSweep, ListFailed)
    else
      var volumes := VolumeHalf(env, cfg, w, cache);
      var next := NextSweep(SnapshotHalf(env, cfg, w, cache).next, volumes);
      Swept(volumes.p.w, Some(volumes.p.w.now), Published(volumes.picture, next, volumes.p.budget))
  }

  // ------------------------------------------------- what the three sets contain

  lemma {:induction false} ReferencesAreExact(pvs: seq<PersistentVolume>, name: string)
    ensures name in References(pvs) <==> exists pv :: pv in pvs && Refers(pv, name)
  {
    if pvs != [] {
      var init, last := pvs[..|pvs| - 1], pvs[|pvs| - 1];
      ReferencesAreExact(init, name);
      assert forall pv :: pv in pvs <==> pv in init || pv == last by {
        assert pvs == init + [last];
      }
      assert name in References(pvs) <==> name in References(init) || Refers(last, name);
    }
  }

  lemma {:induction false} HandlesAreExact(contents: seq<Content>, name: string)
    ensures name in Handles(contents) <==> exists c :: c in contents && Holds(c, name)
  {
    if contents != [] {
      var init, last := contents[..|contents| - 1], contents[|contents| - 1];
      HandlesAreExact(init, name);
      assert forall c :: c in contents <==> c in init || c == last by {
        assert contents == init + [last];
      }
      assert name in HandlesOf(last) <==> Holds(last, name);
    }
  }

  lemma {:induction false} SourcesAreExact(snapshots: seq<Item>, name: string)
    ensures name in Sources(snapshots) <==> name != "" && exists s :: s in snapshots && s.obj.spec.source == name
  {
    if snapshots != [] {
      var init, last := snapshots[..|snapshots| - 1], snapshots[|snapshots| - 1];
      SourcesAreExact(init, name);
      assert snapshots == init + [last];
    }
  }
}
