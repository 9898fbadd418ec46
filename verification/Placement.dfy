/** Choosing the LVMVolumeGroup of a new volume. */
module Placement {
  import opened Wrappers
  import opened Names
  import opened LocalStorage
  import opened StorageClasses
  import opened Validation

  const THICK: string := "Thick"

  // ------------------------------------------------- the class's LVMVolumeGroups

  /** From name to thin pool, empty for an entry without one. */
  function PoolsOf(targets: seq<Target>): map<string, string> {
    if targets == [] then map[]
    else
      var last := targets[|targets| - 1];
      PoolsOf(targets[..|targets| - 1])[last.name := if last.thin.Some? then last.thin.value else ""]
  }

  function ClassLvgs(lvgs: seq<VolumeGroup>, names: set<string>): seq<VolumeGroup> {
    if lvgs == [] then []
    else
      var last := lvgs[|lvgs| - 1];
      ClassLvgs(lvgs[..|lvgs| - 1], names) + if last.name in names then [last] else []
  }

  method GetStorageClassLvgsAndParameters(targets: seq<Target>, lvgs: seq<VolumeGroup>)
    returns (classLvgs: seq<VolumeGroup>, pools: map<string, string>)
    ensures pools == PoolsOf(targets) && classLvgs == ClassLvgs(lvgs, PoolsOf(targets).Keys)
  {
    pools := map[];
    for i := 0 to |targets|
      invariant pools == PoolsOf(targets[..i])
    {
      assert targets[..i + 1][..i] == targets[..i];
      pools := pools[targets[i].name := if targets[i].thin.Some? then targets[i].thin.value else ""];
    }
    assert targets[..|targets|] == targets;
    classLvgs := [];
    for i := 0 to |lvgs|
      invariant classLvgs == ClassLvgs(lvgs[..i], pools.Keys)
    {
      assert lvgs[..i + 1][..i] == lvgs[..i];
      if lvgs[i].name in pools {
        classLvgs := classLvgs + [lvgs[i]];
      }
    }
    assert lvgs[..|lvgs|] == lvgs;
  }

  // ---------------------------------------------------------- the most free space

  function PoolFreeSpace(pools: seq<ThinPool>, name: string): Result<int> {
    if pools == [] then Fail
    else if pools[0].name == name then Ok(pools[0].available)
    else PoolFreeSpace(pools[1..], name)
  }

  function FreeSpace(lvg: VolumeGroup, pools: map<string, string>, lvmType: string): Result<int> {
    if lvmType == THICK then Ok(lvg.vgFree)
    else if lvmType != THIN then Ok(0)
    else if lvg.name !in pools then Fail
    else PoolFreeSpace(lvg.thinPools, pools[lvg.name])
  }

  /** Panic: an LVMVolumeGroup with free space that reports no node. */
  datatype Pick = Picked(node: string, free: int) | NoPick | Panic

  function NodeWithMaxFreeSpace(lvgs: seq<VolumeGroup>, pools: map<string, string>, lvmType: string): Pick {
    if lvgs == [] then Picked("", 0)
    else
      var before := NodeWithMaxFreeSpace(lvgs[..|lvgs| - 1], pools, lvmType);
      var last := lvgs[|lvgs| - 1];
      if !before.Picked? then before
      else
        match FreeSpace(last, pools, lvmType)
        case Fail => NoPick
        case Ok(free) =>
          if free <= before.free then before
          else if last.nodes == [] then Panic
          else Picked(last.nodes[0], free)
  }

  method GetThinPoolFreeSpace(pools: seq<ThinPool>, name: string) returns (free: Result<int>)
    ensures free == PoolFreeSpace(pools, name)
  {
    for i := 0 to |pools|
      invariant PoolFreeSpace(pools, name) == PoolFreeSpace(pools[i..], name)
    {
      assert pools[i..][0] == pools[i] && pools[i..][1..] == pools[i + 1..];
      if pools[i].name == name {
        return Ok(pools[i].available);
      }
    }
    return Fail;
  }

  method GetNodeWithMaxFreeSpace(lvgs: seq<VolumeGroup>, pools: map<string, string>, lvmType: string) returns (pick: Pick)
    ensures pick == NodeWithMaxFreeSpace(lvgs, pools, lvmType)
  {
    var nodeName, maxFreeSpace, freeSpace := "", 0, 0;
    for i := 0 to |lvgs|
      invariant NodeWithMaxFreeSpace(lvgs[..i], pools, lvmType) == Picked(nodeName, maxFreeSpace)
      invariant lvmType != THICK && lvmType != THIN ==> freeSpace == 0
    {
      assert lvgs[..i + 1][..i] == lvgs[..i];
      var lvg := lvgs[i];
      if lvmType == THICK {
        freeSpace := lvg.vgFree;
      } else if lvmType == THIN {
        var free := Fail;
        if lvg.name in pools {
          free := GetThinPoolFreeSpace(lvg.thinPools, pools[lvg.name]);
        }
        if free.Fail? {
          OutcomeStays(lvgs, pools, lvmType, i + 1);
          return NoPick;
        }
        freeSpace := free.value;
      }
      if freeSpace > maxFreeSpace {
        if lvg.nodes == [] {
          OutcomeStays(lvgs, pools, lvmType, i + 1);
          return Panic;
        }
        nodeName, maxFreeSpace := lvg.nodes[0], freeSpace;
      }
    }
    assert lvgs[..|lvgs|] == lvgs;
    return Picked(nodeName, maxFreeSpace);
  }

  lemma {:induction false} OutcomeStays(lvgs: seq<VolumeGroup>, pools: map<string, string>, lvmType: string, n: nat)
    requires n <= |lvgs| && !NodeWithMaxFreeSpace(lvgs[..n], pools, lvmType).Picked?
    ensures NodeWithMaxFreeSpace(lvgs, pools, lvmType) == NodeWithMaxFreeSpace(lvgs[..n], pools, lvmType)
    decreases |lvgs| - n
  {
    if n < |lvgs| {
      assert lvgs[..n + 1][..n] == lvgs[..n];
      OutcomeStays(lvgs, pools, lvmType, n + 1);
    } else {
      assert lvgs[..n] == lvgs;
    }
  }

  // ------------------------------------------------------------------- selection

  function SelectLvg(lvgs: seq<VolumeGroup>, node: string): Option<VolumeGroup> {
    if lvgs == [] then None
    else if lvgs[0].nodes != [] && lvgs[0].nodes[0] == node then Some(lvgs[0])
    else SelectLvg(lvgs[1..], node)
  }

  method FindLvg(lvgs: seq<VolumeGroup>, node: string) returns (lvg: Option<VolumeGroup>)
    ensures lvg == SelectLvg(lvgs, node)
  {
    for i := 0 to |lvgs|
      invariant SelectLvg(lvgs, node) == SelectLvg(lvgs[i..], node)
    {
      assert lvgs[i..][0] == lvgs[i] && lvgs[i..][1..] == lvgs[i + 1..];
      if |lvgs[i].nodes| == 0 {
        continue;
      }
      if lvgs[i].nodes[0] == node {
        return Some(lvgs[i]);
      }
    }
    return None;
  }

  function SelectLvgByName(lvgs: seq<VolumeGroup>, name: string): Option<VolumeGroup> {
    if lvgs == [] then None
    else if lvgs[0].name == name then Some(lvgs[0])
    else SelectLvgByName(lvgs[1..], name)
  }

  method FindLvgByName(lvgs: seq<VolumeGroup>, name: string) returns (lvg: Option<VolumeGroup>)
    ensures lvg == SelectLvgByName(lvgs, name)
  {
    for i := 0 to |lvgs|
      invariant SelectLvgByName(lvgs, name) == SelectLvgByName(lvgs[i..], name)
    {
      assert lvgs[i..][0] == lvgs[i] && lvgs[i..][1..] == lvgs[i + 1..];
      if lvgs[i].name == name {
        return Some(lvgs[i]);
      }
    }
    return None;
  }

  function SelectLvgByActualName(lvgs: seq<VolumeGroup>, node: string, actualName: string): Option<VolumeGroup> {
    if lvgs == [] then None
    else if lvgs[0].nodeName == node && lvgs[0].actualVgName == actualName then Some(lvgs[0])
    else SelectLvgByActualName(lvgs[1..], node, actualName)
  }

  method FindLvgByActualName(lvgs: seq<VolumeGroup>, node: string, actualName: string) returns (lvg: Option<VolumeGroup>)
    ensures lvg == SelectLvgByActualName(lvgs, node, actualName)
  {
    for i := 0 to |lvgs|
      invariant SelectLvgByActualName(lvgs, node, actualName) == SelectLvgByActualName(lvgs[i..], node, actualName)
    {
      assert lvgs[i..][0] == lvgs[i] && lvgs[i..][1..] == lvgs[i + 1..];
      if lvgs[i].nodeName == node && lvgs[i].actualVgName == actualName {
        return Some(lvgs[i]);
      }
    }
    return None;
  }

  // --------------------------------------------------------------- the placement

  predicate HasNode(l: VolumeGroup, node: string) {
    l.nodes != [] && l.nodes[0] == node
  }

  /** No node comes first in two of the LVMVolumeGroups. */
  ghost predicate OneEach(lvgs: seq<VolumeGroup>) {
    forall i, j, node :: 0 <= i < j < |lvgs| && HasNode(lvgs[i], node) ==> !HasNode(lvgs[j], node)
  }

  lemma {:induction false} PickIsMaximum(lvgs: seq<VolumeGroup>, pools: map<string, string>, lvmType: string)
    requires NodeWithMaxFreeSpace(lvgs, pools, lvmType).Picked?
    ensures var pick := NodeWithMaxFreeSpace(lvgs, pools, lvmType);
            && pick.free >= 0
            && (forall l :: l in lvgs ==> FreeSpace(l, pools, lvmType).Ok? && FreeSpace(l, pools, lvmType).value <= pick.free)
            && (pick.free > 0 ==> exists l :: l in lvgs && HasNode(l, pick.node) && FreeSpace(l, pools, lvmType) == Ok(pick.free))
  {
    if lvgs != [] {
      var init, last := lvgs[..|lvgs| - 1], lvgs[|lvgs| - 1];
      PickIsMaximum(init, pools, lvmType);
      assert lvgs == init + [last];
      var before, pick := NodeWithMaxFreeSpace(init, pools, lvmType), NodeWithMaxFreeSpace(lvgs, pools, lvmType);
      if pick.free > before.free {
        assert last in lvgs && HasNode(last, pick.node);
      } else if pick.free > 0 {
        var l :| l in init && HasNode(l, pick.node) && FreeSpace(l, pools, lvmType) == Ok(pick.free);
        assert l in lvgs;
      }
    }
  }

  /** The i-th LVMVolumeGroup has free space, more than those before and no less than those after. */
  predicate FirstMax(lvgs: seq<VolumeGroup>, pools: map<string, string>, lvmType: string, i: nat) {
    && i < |lvgs| && FreeSpace(lvgs[i], pools, lvmType).Ok?
    && var free := FreeSpace(lvgs[i], pools, lvmType).value;
       && free > 0
       && (forall j :: 0 <= j < i ==> FreeSpace(lvgs[j], pools, lvmType).Ok? && FreeSpace(lvgs[j], pools, lvmType).value < free)
       && (forall j :: i < j < |lvgs| ==> FreeSpace(lvgs[j], pools, lvmType).Ok? && FreeSpace(lvgs[j], pools, lvmType).value <= free)
  }

  lemma FirstMaxIsUnique(lvgs: seq<VolumeGroup>, pools: map<string, string>, lvmType: string, i: nat, k: nat)
    requires FirstMax(lvgs, pools, lvmType, i) && FirstMax(lvgs, pools, lvmType, k)
    ensures i == k
  {
  }

  /** Among equals the first is picked. */
  lemma {:induction false} PickIsFirstMax(lvgs: seq<VolumeGroup>, pools: map<string, string>, lvmType: string)
    requires NodeWithMaxFreeSpace(lvgs, pools, lvmType).Picked?
    ensures var pick := NodeWithMaxFreeSpace(lvgs, pools, lvmType);
            && pick.free >= 0 && (pick.free == 0 ==> pick.node == "")
            && (pick.free > 0 ==> exists i :: FirstAt(lvgs, pools, lvmType, i, pick))
  {
    if lvgs != [] {
      var n := |lvgs| - 1;
      var before, pick := NodeWithMaxFreeSpace(lvgs[..n], pools, lvmType), NodeWithMaxFreeSpace(lvgs, pools, lvmType);
      PickIsFirstMax(lvgs[..n], pools, lvmType);
      PickIsMaximum(lvgs[..n], pools, lvmType);
      assert forall j :: 0 <= j < n ==> lvgs[..n][j] == lvgs[j] && lvgs[j] in lvgs[..n];
      if pick.free > before.free {
        assert FirstAt(lvgs, pools, lvmType, n, pick);
      } else if pick.free > 0 {
        var i :| FirstAt(lvgs[..n], pools, lvmType, i, before);
        assert FirstAt(lvgs, pools, lvmType, i, pick);
      }
    }
  }

  predicate FirstAt(lvgs: seq<VolumeGroup>, pools: map<string, string>, lvmType: string, i: nat, pick: Pick) {
    && FirstMax(lvgs, pools, lvmType, i) && pick.Picked? && HasNode(lvgs[i], pick.node)
    && FreeSpace(lvgs[i], pools, lvmType) == Ok(pick.free)
  }

  lemma {:induction false} SelectFindsTheOne(lvgs: seq<VolumeGroup>, l: VolumeGroup, node: string)
    requires OneEach(lvgs) && l in lvgs && HasNode(l, node)
    ensures SelectLvg(lvgs, node) == Some(l)
  {
    if !HasNode(lvgs[0], node) {
      assert lvgs == [lvgs[0]] + lvgs[1..];
      SelectFindsTheOne(lvgs[1..], l, node);
    }
  }

  lemma {:induction false} SelectedIsIn(lvgs: seq<VolumeGroup>, node: string)
    ensures var l := SelectLvg(lvgs, node); l.Some? ==> l.value in lvgs && HasNode(l.value, node)
  {
    if lvgs != [] && !HasNode(lvgs[0], node) {
      SelectedIsIn(lvgs[1..], node);
    }
  }

  /** The LVMVolumeGroup used is the one whose free space was compared, and it has the
      most in the class. */
  lemma SelectedHasMostFree(lvgs: seq<VolumeGroup>, pools: map<string, string>, lvmType: string)
    requires OneEach(lvgs)
    requires NodeWithMaxFreeSpace(lvgs, pools, lvmType).Picked? && NodeWithMaxFreeSpace(lvgs, pools, lvmType).free > 0
    ensures var pick := NodeWithMaxFreeSpace(lvgs, pools, lvmType);
            var selected := SelectLvg(lvgs, pick.node);
            && selected.Some? && selected.value in lvgs && FreeSpace(selected.value, pools, lvmType) == Ok(pick.free)
            && forall l :: l in lvgs ==> FreeSpace(l, pools, lvmType).Ok? && FreeSpace(l, pools, lvmType).value <= pick.free
  {
    PickIsMaximum(lvgs, pools, lvmType);
    var pick := NodeWithMaxFreeSpace(lvgs, pools, lvmType);
    var l :| l in lvgs && HasNode(l, pick.node) && FreeSpace(l, pools, lvmType) == Ok(pick.free);
    SelectFindsTheOne(lvgs, l, pick.node);
  }

  /** If every LVMVolumeGroup with free space reports a node and every thin pool exists,
      picking does not fail. */
  lemma {:induction false} PickSucceeds(lvgs: seq<VolumeGroup>, pools: map<string, string>, lvmType: string)
    requires forall l :: l in lvgs ==> FreeSpace(l, pools, lvmType).Ok? && (FreeSpace(l, pools, lvmType).value > 0 ==> l.nodes != [])
    ensures NodeWithMaxFreeSpace(lvgs, pools, lvmType).Picked?
    ensures NodeWithMaxFreeSpace(lvgs, pools, lvmType).free >= 0
  {
    if lvgs != [] {
      PickSucceeds(lvgs[..|lvgs| - 1], pools, lvmType);
      assert lvgs[|lvgs| - 1] in lvgs;
    }
  }

  // ------------------------------------------------- what the controller guarantees

  lemma {:induction false} PoolsAreNamed(targets: seq<Target>)
    ensures PoolsOf(targets).Keys == TargetNames(targets)
  {
    if targets != [] {
      PoolsAreNamed(targets[..|targets| - 1]);
      assert targets == targets[..|targets| - 1] + [targets[|targets| - 1]];
    }
  }

  lemma {:induction false} ReportsCount(nodes: seq<string>, lvg: string, node: string)
    ensures node in nodes ==> |Reports(nodes, lvg, node)| >= 1
  {
    if nodes != [] {
      ReportsCount(nodes[..|nodes| - 1], lvg, node);
      assert nodes == nodes[..|nodes| - 1] + [nodes[|nodes| - 1]];
    }
  }

  ghost predicate Serves(lvgs: seq<VolumeGroup>, node: string) {
    exists i :: 0 <= i < |lvgs| && HasNode(lvgs[i], node)
  }

  ghost predicate ServesTwice(lvgs: seq<VolumeGroup>, node: string) {
    exists i, j :: 0 <= i < j < |lvgs| && HasNode(lvgs[i], node) && HasNode(lvgs[j], node)
  }

  lemma {:induction false} UsersCount(lvgs: seq<VolumeGroup>, used: set<string>, node: string)
    ensures Serves(ClassLvgs(lvgs, used), node) ==> |UsersOf(lvgs, used, node)| >= 1
    ensures ServesTwice(ClassLvgs(lvgs, used), node) ==> |UsersOf(lvgs, used, node)| >= 2
  {
    if lvgs != [] {
      var init, last := lvgs[..|lvgs| - 1], lvgs[|lvgs| - 1];
      UsersCount(init, used, node);
      ReportsCount(last.nodes, last.name, node);
      var before, after := ClassLvgs(init, used), ClassLvgs(lvgs, used);
      assert after == before + if last.name in used then [last] else [];
      if Serves(after, node) && !Serves(before, node) {
        var i :| 0 <= i < |after| && HasNode(after[i], node);
        assert i >= |before|;
      }
      if ServesTwice(after, node) && !ServesTwice(before, node) {
        var i, j :| 0 <= i < j < |after| && HasNode(after[i], node) && HasNode(after[j], node);
        assert j >= |before| && HasNode(before[i], node);
      }
    }
  }

  /** No node occurs twice in the class: what the controller checks before it renders a
      StorageClass is what placement relies on. */
  lemma ValidatedClassIsOneEach(lvgs: seq<VolumeGroup>, targets: seq<Target>)
    requires !SharesNode(lvgs, targets)
    ensures OneEach(ClassLvgs(lvgs, PoolsOf(targets).Keys))
  {
    PoolsAreNamed(targets);
    var names := TargetNames(targets);
    var classLvgs := ClassLvgs(lvgs, names);
    forall i, j, node | 0 <= i < j < |classLvgs| && HasNode(classLvgs[i], node) ensures !HasNode(classLvgs[j], node) {
      UsersCount(lvgs, names, node);
      assert |UsersOf(lvgs, names, node)| <= 1;
      assert HasNode(classLvgs[j], node) ==> ServesTwice(classLvgs, node);
    }
  }

  /** Placement across components: for a class the controller found valid, the amount
      Immediate binding compares with is the free space of the LVMVolumeGroup it uses. */
  lemma ValidClassPlacesOnMostFree(scs: seq<StorageClass>, lsc: LocalStorageClass, lvgs: seq<VolumeGroup>, targets: seq<Target>)
    requires IsValid(scs, lsc, lvgs, targets)
    requires var classLvgs := ClassLvgs(lvgs, PoolsOf(targets).Keys);
             var pick := NodeWithMaxFreeSpace(classLvgs, PoolsOf(targets), lsc.lvm.value.lvmType);
             pick.Picked? && pick.free > 0
    ensures var classLvgs, pools, lvmType := ClassLvgs(lvgs, PoolsOf(targets).Keys), PoolsOf(targets), lsc.lvm.value.lvmType;
            var pick := NodeWithMaxFreeSpace(classLvgs, pools, lvmType);
            var selected := SelectLvg(classLvgs, pick.node);
            && selected.Some? && FreeSpace(selected.value, pools, lvmType) == Ok(pick.free)
            && forall l :: l in classLvgs ==> FreeSpace(l, pools, lvmType).Ok? && FreeSpace(l, pools, lvmType).value <= pick.free
  {
    ValidatedClassIsOneEach(lvgs, targets);
    SelectedHasMostFree(ClassLvgs(lvgs, PoolsOf(targets).Keys), PoolsOf(targets), lsc.lvm.value.lvmType);
  }

  // ------------------------------------------------------------ the exact condition

  /** The LVMVolumeGroup with this much free space, in the volume group and in its pool. */
  function Holding(l: VolumeGroup, pools: map<string, string>, free: int): VolumeGroup {
    l.(vgFree := free, thinPools := if l.name in pools then [ThinPool(pools[l.name], free)] else [])
  }

  function AllHolding(lvgs: seq<VolumeGroup>, pools: map<string, string>, frees: seq<int>): (r: seq<VolumeGroup>)
    requires |frees| == |lvgs|
    ensures |r| == |lvgs| && forall i :: 0 <= i < |lvgs| ==> r[i] == Holding(lvgs[i], pools, frees[i])
  {
    if lvgs == [] then []
    else AllHolding(lvgs[..|lvgs| - 1], pools, frees[..|lvgs| - 1]) + [Holding(lvgs[|lvgs| - 1], pools, frees[|lvgs| - 1])]
  }

  /** What is compared is the free space of what is used. */
  predicate ComparesWhatItUses(lvgs: seq<VolumeGroup>, pools: map<string, string>, lvmType: string) {
    var pick := NodeWithMaxFreeSpace(lvgs, pools, lvmType);
    pick.Picked? && pick.free > 0 ==>
      var selected := SelectLvg(lvgs, pick.node);
      selected.Some? && FreeSpace(selected.value, pools, lvmType) == Ok(pick.free)
  }

  /** All free space in the j-th LVMVolumeGroup. */
  function OnlyIn(n: nat, j: nat): (r: seq<int>)
    ensures |r| == n && forall i :: 0 <= i < n ==> r[i] == if i == j then 1 else 0
  {
    seq(n, i => if i == j then 1 else 0)
  }

  predicate Sized(lvgs: seq<VolumeGroup>, pools: map<string, string>, lvmType: string) {
    lvmType == THICK || (lvmType == THIN && forall l :: l in lvgs ==> l.name in pools)
  }

  lemma {:induction false} AllInOneIsPicked(lvgs: seq<VolumeGroup>, pools: map<string, string>, lvmType: string, j: nat)
    requires Sized(lvgs, pools, lvmType) && forall i :: 0 <= i < |lvgs| ==> FreeSpace(lvgs[i], pools, lvmType) == Ok(if i == j then 1 else 0)
    requires j < |lvgs| ==> lvgs[j].nodes != []
    ensures NodeWithMaxFreeSpace(lvgs, pools, lvmType) == if j < |lvgs| then Picked(lvgs[j].nodes[0], 1) else Picked("", 0)
  {
    if lvgs != [] {
      var init := lvgs[..|lvgs| - 1];
      assert forall i :: 0 <= i < |init| ==> init[i] == lvgs[i];
      AllInOneIsPicked(init, pools, lvmType, j);
    }
  }

  lemma {:induction false} SelectIsFirst(lvgs: seq<VolumeGroup>, i: nat, node: string)
    requires i < |lvgs| && HasNode(lvgs[i], node)
    ensures exists k :: 0 <= k <= i && SelectLvg(lvgs, node) == Some(lvgs[k])
  {
    if HasNode(lvgs[0], node) {
      assert SelectLvg(lvgs, node) == Some(lvgs[0]);
    } else {
      SelectIsFirst(lvgs[1..], i - 1, node);
      var k :| 0 <= k <= i - 1 && SelectLvg(lvgs[1..], node) == Some(lvgs[1..][k]);
      assert lvgs[1..][k] == lvgs[k + 1];
    }
  }

  /** If a node is first in two LVMVolumeGroups, all free space in the later of them is
      compared with, and the earlier one, which has none, is used. */
  lemma SharedNodeMisplaces(lvgs: seq<VolumeGroup>, pools: map<string, string>, lvmType: string, i: nat, j: nat, node: string)
    requires Sized(lvgs, pools, lvmType) && i < j < |lvgs| && HasNode(lvgs[i], node) && HasNode(lvgs[j], node)
    ensures !ComparesWhatItUses(AllHolding(lvgs, pools, OnlyIn(|lvgs|, j)), pools, lvmType)
  {
    var frees := OnlyIn(|lvgs|, j);
    var ls := AllHolding(lvgs, pools, frees);
    HoldsWhatItHolds(lvgs, pools, lvmType, frees);
    SizedStays(lvgs, pools, lvmType, frees);
    AllInOneIsPicked(ls, pools, lvmType, j);
    SelectIsFirst(ls, i, node);
    var k :| 0 <= k <= i && SelectLvg(ls, node) == Some(ls[k]);
    assert FreeSpace(ls[k], pools, lvmType) == Ok(0);
  }

  lemma HoldsWhatItHolds(lvgs: seq<VolumeGroup>, pools: map<string, string>, lvmType: string, frees: seq<int>)
    requires Sized(lvgs, pools, lvmType) && |frees| == |lvgs|
    ensures forall k :: 0 <= k < |lvgs| ==> FreeSpace(AllHolding(lvgs, pools, frees)[k], pools, lvmType) == Ok(frees[k])
  {
    forall k | 0 <= k < |lvgs| ensures FreeSpace(AllHolding(lvgs, pools, frees)[k], pools, lvmType) == Ok(frees[k]) {
      assert lvgs[k] in lvgs;
    }
  }

  lemma SizedStays(lvgs: seq<VolumeGroup>, pools: map<string, string>, lvmType: string, frees: seq<int>)
    requires Sized(lvgs, pools, lvmType) && |frees| == |lvgs|
    ensures Sized(AllHolding(lvgs, pools, frees), pools, lvmType)
  {
    var ls := AllHolding(lvgs, pools, frees);
    forall l | l in ls ensures lvmType == THIN ==> l.name in pools {
      var k :| 0 <= k < |ls| && ls[k] == l;
      assert lvgs[k] in lvgs;
    }
  }

  lemma OneEachCompares(lvgs: seq<VolumeGroup>, pools: map<string, string>, lvmType: string, frees: seq<int>)
    requires OneEach(lvgs) && |frees| == |lvgs|
    ensures ComparesWhatItUses(AllHolding(lvgs, pools, frees), pools, lvmType)
  {
    var ls := AllHolding(lvgs, pools, frees);
    forall i, j, node | 0 <= i < j < |ls| && HasNode(ls[i], node) ensures !HasNode(ls[j], node) {
      assert HasNode(lvgs[i], node) && HasNode(ls[j], node) == HasNode(lvgs[j], node);
    }
    var pick := NodeWithMaxFreeSpace(ls, pools, lvmType);
    if pick.Picked? && pick.free > 0 {
      SelectedHasMostFree(ls, pools, lvmType);
    }
  }

  /** However the free space of a class is distributed, the amount compared is that of the
      LVMVolumeGroup used - exactly if no node comes first in two of them. */
  lemma OneEachExactlyIfCompared(lvgs: seq<VolumeGroup>, pools: map<string, string>, lvmType: string)
    requires Sized(lvgs, pools, lvmType)
    ensures OneEach(lvgs) <==>
              forall frees :: |frees| == |lvgs| ==> ComparesWhatItUses(AllHolding(lvgs, pools, frees), pools, lvmType)
  {
    if OneEach(lvgs) {
      forall frees | |frees| == |lvgs| ensures ComparesWhatItUses(AllHolding(lvgs, pools, frees), pools, lvmType) {
        OneEachCompares(lvgs, pools, lvmType, frees);
      }
    } else {
      var i, j, node :| 0 <= i < j < |lvgs| && HasNode(lvgs[i], node) && HasNode(lvgs[j], node);
      SharedNodeMisplaces(lvgs, pools, lvmType, i, j, node);
    }
  }
}
