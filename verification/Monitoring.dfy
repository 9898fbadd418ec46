/**
  Publishing a sweep: the previous picture's series are expired first, so what is
  exported is about the last sweep and nothing else.
  */
module Monitoring {
  import opened ApiServer
  import opened Sweep

  /** The labels of one orphan's series. */
  datatype OrphanLabel = OrphanLabel(name: string, group: string, lvmType: string, state: State, reason: Reason)
  datatype SnapshotLabel = SnapshotLabel(name: string, volume: string, state: State, reason: Reason)

  /** The sweep's expiry group: for each metric, the exported label sets and their values. */
  datatype SweepGroup = SweepGroup(
    volumeCount: map<PhaseAndType, int>,
    volumeBytes: map<PhaseAndType, int>,
    orphanCount: map<State, int>,
    orphanBytes: map<OrphanLabel, int>,
    snapshotCount: map<State, int>,
    snapshotBytes: map<SnapshotLabel, int>,
    awaitingAgent: map<Kind, int>)

  const EXPIRED: SweepGroup := SweepGroup(map[], map[], map[], map[], map[], map[], map[])

  function LabelOf(o: Orphan): OrphanLabel {
    OrphanLabel(o.name, o.group, o.lvmType, o.state, o.reason)
  }

  function SnapshotLabelOf(o: OrphanedSnapshot): SnapshotLabel {
    SnapshotLabel(o.name, o.volume, o.state, o.reason)
  }

  // Of two objects with the same labels the later one's value is exported.
  function OrphanGauges(orphans: seq<Orphan>): map<OrphanLabel, int> {
    if orphans == [] then map[]
    else
      var last := orphans[|orphans| - 1];
      OrphanGauges(orphans[..|orphans| - 1])[LabelOf(last) := last.bytes]
  }

  function SnapshotGauges(snapshots: seq<OrphanedSnapshot>): map<SnapshotLabel, int> {
    if snapshots == [] then map[]
    else
      var last := snapshots[|snapshots| - 1];
      SnapshotGauges(snapshots[..|snapshots| - 1])[SnapshotLabelOf(last) := last.bytes]
  }

  function InState(orphans: seq<Orphan>, state: State): nat {
    if orphans == [] then 0
    else InState(orphans[..|orphans| - 1], state) + (if orphans[|orphans| - 1].state == state then 1 else 0)
  }

  function SnapshotsInState(snapshots: seq<OrphanedSnapshot>, state: State): nat {
    if snapshots == [] then 0
    else SnapshotsInState(snapshots[..|snapshots| - 1], state) + (if snapshots[|snapshots| - 1].state == state then 1 else 0)
  }

  function At(m: map<Kind, int>, kind: Kind): int {
    if kind in m then m[kind] else 0
  }

  /** The orphan count has a value for every state, zero included. */
  ghost predicate Tally(orphans: seq<Orphan>, count: map<State, int>) {
    forall state :: state in count && count[state] == InState(orphans, state)
  }

  ghost predicate SnapshotTally(snapshots: seq<OrphanedSnapshot>, count: map<State, int>) {
    && (forall state :: state in count <==> state in {Terminating, Blocked} || SnapshotsInState(snapshots, state) > 0)
    && (forall state :: state in count ==> count[state] == SnapshotsInState(snapshots, state))
  }

  /** What is exported is what the picture says, and nothing besides. */
  ghost predicate Exports(group: SweepGroup, picture: Picture) {
    && group.volumeCount == picture.countBy && group.volumeBytes == picture.bytesBy
    && Tally(picture.orphans, group.orphanCount) && group.orphanBytes == OrphanGauges(picture.orphans)
    && SnapshotTally(picture.orphanedSnapshots, group.snapshotCount)
    && group.snapshotBytes == SnapshotGauges(picture.orphanedSnapshots)
    && group.awaitingAgent == map[Volume := At(picture.awaiting, Volume), Snapshot := At(picture.awaiting, Snapshot)]
  }

  /** The picture alone determines what is exported, whatever was published before. */
  lemma LastPictureDecides(a: SweepGroup, b: SweepGroup, picture: Picture)
    requires Exports(a, picture) && Exports(b, picture)
    ensures a == b
  {
    assert a.orphanCount == b.orphanCount;
    assert a.snapshotCount == b.snapshotCount;
  }

  /** The i-th orphan carries these labels, as the last one to do so. */
  ghost predicate LastLabelled(orphans: seq<Orphan>, l: OrphanLabel, i: nat) {
    && i < |orphans| && Labelled(orphans[i], l) && forall j :: i < j < |orphans| ==> !Labelled(orphans[j], l)
  }

  predicate Labelled(o: Orphan, l: OrphanLabel) {
    o.name == l.name && o.group == l.group && o.lvmType == l.lvmType && o.state == l.state && o.reason == l.reason
  }

  /** One series for every orphan, none for anything else, with the size of the last orphan
      that carries its labels. */
  lemma {:induction false} OrphanGaugesAreExact(orphans: seq<Orphan>, wanted: OrphanLabel)
    ensures wanted in OrphanGauges(orphans) <==> exists i: nat :: LastLabelled(orphans, wanted, i)
    ensures forall i: nat :: LastLabelled(orphans, wanted, i) ==> OrphanGauges(orphans)[wanted] == orphans[i].bytes
  {
    if orphans != [] {
      var n := |orphans| - 1;
      OrphanGaugesAreExact(orphans[..n], wanted);
      if Labelled(orphans[n], wanted) {
        assert LastLabelled(orphans, wanted, n);
      } else {
        forall i: nat ensures LastLabelled(orphans, wanted, i) <==> LastLabelled(orphans[..n], wanted, i) {
          if i < n {
            assert orphans[..n][i] == orphans[i];
            assert forall j :: i < j < n ==> orphans[..n][j] == orphans[j];
          }
        }
        assert forall i: nat :: i < n ==> orphans[..n][i] == orphans[i];
      }
    }
  }

  ghost predicate LastSnapshotLabelled(snapshots: seq<OrphanedSnapshot>, l: SnapshotLabel, i: nat) {
    && i < |snapshots| && SnapshotLabelled(snapshots[i], l) && forall j :: i < j < |snapshots| ==> !SnapshotLabelled(snapshots[j], l)
  }

  predicate SnapshotLabelled(o: OrphanedSnapshot, l: SnapshotLabel) {
    o.name == l.name && o.volume == l.volume && o.state == l.state && o.reason == l.reason
  }

  /** The same for snapshots. */
  lemma {:induction false} SnapshotGaugesAreExact(snapshots: seq<OrphanedSnapshot>, wanted: SnapshotLabel)
    ensures wanted in SnapshotGauges(snapshots) <==> exists i: nat :: LastSnapshotLabelled(snapshots, wanted, i)
    ensures forall i: nat :: LastSnapshotLabelled(snapshots, wanted, i) ==> SnapshotGauges(snapshots)[wanted] == snapshots[i].bytes
  {
    if snapshots != [] {
      var n := |snapshots| - 1;
      SnapshotGaugesAreExact(snapshots[..n], wanted);
      if SnapshotLabelled(snapshots[n], wanted) {
        assert LastSnapshotLabelled(snapshots, wanted, n);
      } else {
        forall i: nat ensures LastSnapshotLabelled(snapshots, wanted, i) <==> LastSnapshotLabelled(snapshots[..n], wanted, i) {
          if i < n {
            assert snapshots[..n][i] == snapshots[i];
            assert forall j :: i < j < n ==> snapshots[..n][j] == snapshots[j];
          }
        }
        assert forall i: nat :: i < n ==> snapshots[..n][i] == snapshots[i];
      }
    }
  }

  function Where<T(!new)>(s: seq<T>, ok: T -> bool): set<int> {
    set i | 0 <= i < |s| && ok(s[i])
  }

  lemma WhereLast<T(!new)>(s: seq<T>, ok: T -> bool)
    requires s != []
    ensures var n := |s| - 1; |Where(s, ok)| == |Where(s[..n], ok)| + if ok(s[n]) then 1 else 0
  {
    var n := |s| - 1;
    assert Where(s, ok) == Where(s[..n], ok) + if ok(s[n]) then {n} else {};
  }

  /** Each aggregate gauge is the number of listed orphans in its state. */
  lemma {:induction false} StatesAreCounted(orphans: seq<Orphan>, state: State)
    ensures InState(orphans, state) == |Where(orphans, (o: Orphan) => o.state == state)|
  {
    if orphans != [] {
      StatesAreCounted(orphans[..|orphans| - 1], state);
      WhereLast(orphans, (o: Orphan) => o.state == state);
    }
  }

  /** The same for snapshots, and each of their states has its gauge. */
  lemma {:induction false} SnapshotStatesAreCounted(snapshots: seq<OrphanedSnapshot>, state: State, count: map<State, int>)
    ensures SnapshotsInState(snapshots, state) == |Where(snapshots, (o: OrphanedSnapshot) => o.state == state)|
    ensures SnapshotTally(snapshots, count) && (exists o :: o in snapshots && o.state == state) ==> state in count && count[state] > 0
  {
    if snapshots != [] {
      var init, last := snapshots[..|snapshots| - 1], snapshots[|snapshots| - 1];
      SnapshotStatesAreCounted(init, state, count);
      WhereLast(snapshots, (o: OrphanedSnapshot) => o.state == state);
      if o :| o in snapshots && o.state == state {
        var i :| 0 <= i < |snapshots| && snapshots[i] == o;
        assert i in Where(snapshots, (o: OrphanedSnapshot) => o.state == state);
      }
    }
  }

  /** The aggregate orphan gauges add up to the number of orphans. */
  lemma {:induction false} OrphanGaugesAddUp(orphans: seq<Orphan>, count: map<State, int>)
    requires Tally(orphans, count)
    ensures count[Active] + count[Retained] + count[Terminating] + count[Blocked] == |orphans|
  {
    if orphans != [] {
      var init := orphans[..|orphans| - 1];
      var rest := map state | state in count :: InState(init, state);
      assert Tally(init, rest);
      OrphanGaugesAddUp(init, rest);
    }
  }

  /** So do the snapshots': only two states are always exported, and if the picture holds
      no other, they make up all of it. */
  lemma {:induction false} SnapshotGaugesAddUp(snapshots: seq<OrphanedSnapshot>, count: map<State, int>)
    requires SnapshotTally(snapshots, count) && forall o :: o in snapshots ==> o.state == Terminating || o.state == Blocked
    ensures count[Terminating] + count[Blocked] == |snapshots|
  {
    if snapshots != [] {
      var init, last := snapshots[..|snapshots| - 1], snapshots[|snapshots| - 1];
      assert last in snapshots && forall o :: o in init ==> o in snapshots;
      var rest := map state | state in count && (state in {Terminating, Blocked} || SnapshotsInState(init, state) > 0) :: SnapshotsInState(init, state);
      assert SnapshotTally(init, rest);
      SnapshotGaugesAddUp(init, rest);
    }
  }

  /** Both kinds always have a number of objects awaiting the agent, none counting as zero. */
  lemma AwaitingIsExact(group: SweepGroup, picture: Picture, kind: Kind)
    requires Exports(group, picture)
    ensures kind in group.awaitingAgent
    ensures kind in picture.awaiting ==> group.awaitingAgent[kind] == picture.awaiting[kind]
    ensures kind !in picture.awaiting ==> group.awaitingAgent[kind] == 0
  {
    match kind { case Volume => case Snapshot => }
  }

  class Recorder {
    var sweep: SweepGroup

    constructor ()
      ensures sweep == EXPIRED
    {
      sweep := EXPIRED;
    }

    method SetLVMLogicalVolumeSweep(picture: Picture)
      modifies this
      ensures Exports(sweep, picture)
    {
      sweep := EXPIRED;
      var counts := PublishEach(picture.countBy);
      var bytes := PublishEach(picture.bytesBy);
      sweep := sweep.(volumeCount := counts, volumeBytes := bytes);
      PublishOrphans(picture.orphans);
      PublishSnapshots(picture.orphanedSnapshots);
      sweep := sweep.(awaitingAgent := map[Volume := At(picture.awaiting, Volume), Snapshot := At(picture.awaiting, Snapshot)]);
    }

    /** One gauge per entry, in no particular order. */
    method PublishEach(m: map<PhaseAndType, int>) returns (gauges: map<PhaseAndType, int>)
      ensures gauges == m
    {
      gauges := map[];
      var todo := m.Keys;
      while todo != {}
        invariant todo <= m.Keys
        invariant gauges.Keys == m.Keys - todo && forall k :: k in gauges ==> gauges[k] == m[k]
        decreases |todo|
      {
        var key :| key in todo;
        gauges := gauges[key := m[key]];
        todo := todo - {key};
      }
    }

    method PublishOrphans(orphans: seq<Orphan>)
      modifies this
      ensures sweep == old(sweep).(orphanCount := sweep.orphanCount, orphanBytes := sweep.orphanBytes)
      ensures old(sweep).orphanBytes == map[] ==> sweep.orphanBytes == OrphanGauges(orphans)
      ensures Tally(orphans, sweep.orphanCount)
    {
      var byState := map[Active := 0, Retained := 0, Terminating := 0, Blocked := 0];
      forall state ensures state in byState {
        match state { case Active => case Retained => case Terminating => case Blocked => }
      }
      for i := 0 to |orphans|
        invariant sweep == old(sweep).(orphanBytes := sweep.orphanBytes)
        invariant old(sweep).orphanBytes == map[] ==> sweep.orphanBytes == OrphanGauges(orphans[..i])
        invariant Tally(orphans[..i], byState)
      {
        var orphan := orphans[i];
        byState := byState[orphan.state := byState[orphan.state] + 1];
        sweep := sweep.(orphanBytes := sweep.orphanBytes[LabelOf(orphan) := orphan.bytes]);
        assert orphans[..i + 1][..i] == orphans[..i];
      }
      assert orphans[..|orphans|] == orphans;
      sweep := sweep.(orphanCount := byState);
    }

    method PublishSnapshots(snapshots: seq<OrphanedSnapshot>)
      modifies this
      ensures sweep == old(sweep).(snapshotCount := sweep.snapshotCount, snapshotBytes := sweep.snapshotBytes)
      ensures old(sweep).snapshotBytes == map[] ==> sweep.snapshotBytes == SnapshotGauges(snapshots)
      ensures SnapshotTally(snapshots, sweep.snapshotCount)
    {
      var byState := map[Terminating := 0, Blocked := 0];
      for i := 0 to |snapshots|
        invariant sweep == old(sweep).(snapshotBytes := sweep.snapshotBytes)
        invariant old(sweep).snapshotBytes == map[] ==> sweep.snapshotBytes == SnapshotGauges(snapshots[..i])
        invariant SnapshotTally(snapshots[..i], byState)
      {
        var snapshot := snapshots[i];
        byState := byState[snapshot.state := (if snapshot.state in byState then byState[snapshot.state] else 0) + 1];
        sweep := sweep.(snapshotBytes := sweep.snapshotBytes[SnapshotLabelOf(snapshot) := snapshot.bytes]);
        assert snapshots[..i + 1][..i] == snapshots[..i];
      }
      assert snapshots[..|snapshots|] == snapshots;
      sweep := sweep.(snapshotCount := byState);
    }
  }
}
