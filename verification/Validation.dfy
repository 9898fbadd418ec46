/** What the controller demands of a LocalStorageClass before it renders a StorageClass. */
module Validation {
  import opened Wrappers
  import opened Names
  import opened LocalStorage
  import opened StorageClasses

  // ---------------------------------------------------------------- what it demands

  ghost predicate Foreign(scs: seq<StorageClass>, name: string) {
    exists sc :: sc in scs && sc.name == name && !Ours(sc)
  }

  ghost predicate Exists(lvgs: seq<VolumeGroup>, name: string) {
    exists l :: l in lvgs && l.name == name
  }

  ghost predicate SelectorMatches(selector: Selector, lvgs: seq<VolumeGroup>) {
    selector.Selecting? && exists l :: l in lvgs && selector.matches(l.labels)
  }

  predicate NameOrSelector(e: Entry) {
    (e.name != "") != e.selector.Some?
  }

  predicate ThinFits(e: Entry, lvmType: string) {
    if lvmType == THIN then e.thin.Some? && e.thin.value != "" else e.thin.None?
  }

  ghost predicate Mixed(entries: seq<Entry>) {
    (exists e :: e in entries && e.name != "") && (exists e :: e in entries && e.selector.Some?)
  }

  ghost predicate EntryFits(e: Entry, lvmType: string, lvgs: seq<VolumeGroup>) {
    NameOrSelector(e) && ThinFits(e, lvmType) && (e.selector.Some? ==> SelectorMatches(e.selector.value, lvgs))
  }

  /** How often one of `used` reports `node`, with the LVMVolumeGroup's name each time. */
  function UsersOf(lvgs: seq<VolumeGroup>, used: set<string>, node: string): seq<string> {
    if lvgs == [] then []
    else
      var last := lvgs[|lvgs| - 1];
      UsersOf(lvgs[..|lvgs| - 1], used, node) + if last.name in used then Reports(last.nodes, last.name, node) else []
  }

  function Reports(nodes: seq<string>, lvg: string, node: string): seq<string> {
    if nodes == [] then []
    else Reports(nodes[..|nodes| - 1], lvg, node) + if nodes[|nodes| - 1] == node then [lvg] else []
  }

  function TargetNames(targets: seq<Target>): set<string> {
    set t | t in targets :: t.name
  }

  ghost predicate SharesNode(lvgs: seq<VolumeGroup>, targets: seq<Target>) {
    exists node :: |UsersOf(lvgs, TargetNames(targets), node)| > 1
  }

  /** Of several LVMVolumeGroups of one name, the last. */
  function LvgsByName(lvgs: seq<VolumeGroup>): map<string, VolumeGroup> {
    if lvgs == [] then map[]
    else LvgsByName(lvgs[..|lvgs| - 1])[lvgs[|lvgs| - 1].name := lvgs[|lvgs| - 1]]
  }

  predicate HasPool(byName: map<string, VolumeGroup>, t: Target) {
    t.thin.Some? && t.name in byName && exists p :: p in byName[t.name].thinPools && p.name == t.thin.value
  }

  predicate PoolsFit(lvgs: seq<VolumeGroup>, targets: seq<Target>, lvmType: string) {
    if lvmType == THIN then forall t :: t in targets ==> HasPool(LvgsByName(lvgs), t)
    else forall t :: t in targets ==> t.thin.None?
  }

  ghost predicate IsValid(scs: seq<StorageClass>, lsc: LocalStorageClass, lvgs: seq<VolumeGroup>, targets: seq<Target>) {
    && !Foreign(scs, lsc.name)
    && lsc.lvm.Some?
    && lsc.lvm.value.entries != []
    && (forall e :: e in lsc.lvm.value.entries ==> EntryFits(e, lsc.lvm.value.lvmType, lvgs))
    && !Mixed(lsc.lvm.value.entries)
    && !SharesNode(lvgs, targets)
    && (forall t :: t in targets ==> Exists(lvgs, t.name))
    && PoolsFit(lvgs, targets, lsc.lvm.value.lvmType)
  }

  // ---------------------------------------------------------------- how it is checked

  method FindUnmanagedDuplicatedSc(scs: seq<StorageClass>, lsc: LocalStorageClass) returns (name: Option<string>)
    ensures name.Some? <==> Foreign(scs, lsc.name)
    ensures name.Some? ==> name.value == lsc.name
  {
    for i := 0 to |scs|
      invariant !Foreign(scs[..i], lsc.name)
    {
      if scs[i].name == lsc.name && !Ours(scs[i]) {
        return Some(scs[i].name);
      }
    }
    assert scs[..|scs|] == scs;
    return None;
  }

  method FindAnyThinPool(targets: seq<Target>) returns (bad: seq<string>)
    ensures forall n :: n in bad <==> exists t :: t in targets && t.name == n && t.thin.Some?
  {
    bad := [];
    for i := 0 to |targets|
      invariant forall n :: n in bad <==> exists t :: t in targets[..i] && t.name == n && t.thin.Some?
    {
      assert targets[..i + 1] == targets[..i] + [targets[i]];
      if targets[i].thin.Some? {
        bad := bad + [targets[i].name];
      }
    }
    assert targets[..|targets|] == targets;
  }

  method FindNonexistentThinPools(lvgs: seq<VolumeGroup>, targets: seq<Target>) returns (bad: seq<string>)
    ensures forall n :: n in bad <==> exists t :: t in targets && t.name == n && !HasPool(LvgsByName(lvgs), t)
  {
    var byName: map<string, VolumeGroup> := map[];
    for i := 0 to |lvgs|
      invariant byName == LvgsByName(lvgs[..i])
    {
      assert lvgs[..i + 1][..i] == lvgs[..i];
      byName := byName[lvgs[i].name := lvgs[i]];
    }
    assert lvgs[..|lvgs|] == lvgs;
    bad := [];
    for i := 0 to |targets|
      invariant forall n :: n in bad <==> exists t :: t in targets[..i] && t.name == n && !HasPool(byName, t)
    {
      assert targets[..i + 1] == targets[..i] + [targets[i]];
      var t := targets[i];
      if t.thin.None? {
        bad := bad + [t.name];
        continue;
      }
      var pools := if t.name in byName then byName[t.name].thinPools else [];
      var found := false;
      for k := 0 to |pools|
        invariant !found && forall p :: p in pools[..k] ==> p.name != t.thin.value
      {
        if pools[k].name == t.thin.value {
          found := true;
          break;
        }
      }
      if !found {
        bad := bad + [t.name];
      }
    }
    assert targets[..|targets|] == targets;
  }

  method CountLvgsMatchingSelector(lvgs: seq<VolumeGroup>, selector: Selector) returns (count: nat)
    ensures count > 0 <==> SelectorMatches(selector, lvgs)
    ensures count <= |lvgs|
  {
    if selector.Malformed? {
      return 0;
    }
    count := 0;
    for i := 0 to |lvgs|
      invariant count <= i && (count > 0 <==> SelectorMatches(selector, lvgs[..i]))
    {
      assert lvgs[..i + 1] == lvgs[..i] + [lvgs[i]];
      if selector.matches(lvgs[i].labels) {
        count := count + 1;
      }
    }
    assert lvgs[..|lvgs|] == lvgs;
  }

  method FindNonexistentLvgs(lvgs: seq<VolumeGroup>, targets: seq<Target>) returns (missing: seq<string>)
    ensures forall n :: n in missing <==> n in TargetNames(targets) && !Exists(lvgs, n)
  {
    var names: set<string> := {};
    for i := 0 to |lvgs|
      invariant forall n :: n in names <==> Exists(lvgs[..i], n)
    {
      assert lvgs[..i + 1] == lvgs[..i] + [lvgs[i]];
      names := names + {lvgs[i].name};
    }
    assert lvgs[..|lvgs|] == lvgs;
    missing := [];
    for i := 0 to |targets|
      invariant forall n :: n in missing <==> n in TargetNames(targets[..i]) && !Exists(lvgs, n)
    {
      assert targets[..i + 1] == targets[..i] + [targets[i]];
      if targets[i].name !in names {
        missing := missing + [targets[i].name];
      }
    }
    assert targets[..|targets|] == targets;
  }

  /** The nodes that more than one of the targets reports. */
  method FindLvgsOnTheSameNode(lvgs: seq<VolumeGroup>, targets: seq<Target>) returns (bad: set<string>)
    ensures forall node :: node in bad <==> |UsersOf(lvgs, TargetNames(targets), node)| > 1
  {
    var used: set<string> := {};
    for i := 0 to |targets|
      invariant used == TargetNames(targets[..i])
    {
      assert targets[..i + 1] == targets[..i] + [targets[i]];
      used := used + {targets[i].name};
    }
    assert targets[..|targets|] == targets;
    var on: map<string, seq<string>> := map[];
    for i := 0 to |lvgs|
      invariant Collected(on, lvgs[..i], used)
    {
      ghost var before := on;
      if lvgs[i].name in used {
        on := AddReports(on, lvgs[i].nodes, lvgs[i].name);
      }
      CollectOne(before, on, lvgs, i, used);
    }
    assert lvgs[..|lvgs|] == lvgs;
    bad := set node | node in on && |on[node]| > 1;
    forall node ensures node in bad <==> |UsersOf(lvgs, TargetNames(targets), node)| > 1 {
      assert Lookup(on, node) == UsersOf(lvgs, used, node);
    }
  }

  function Lookup(on: map<string, seq<string>>, node: string): seq<string> {
    if node in on then on[node] else []
  }

  ghost predicate Collected(on: map<string, seq<string>>, lvgs: seq<VolumeGroup>, used: set<string>) {
    forall node :: Lookup(on, node) == UsersOf(lvgs, used, node)
  }

  ghost predicate Added(on: map<string, seq<string>>, r: map<string, seq<string>>, nodes: seq<string>, lvg: string) {
    forall node :: Lookup(r, node) == Lookup(on, node) + Reports(nodes, lvg, node)
  }

  lemma CollectOne(on: map<string, seq<string>>, r: map<string, seq<string>>, lvgs: seq<VolumeGroup>, i: nat, used: set<string>)
    requires i < |lvgs| && Collected(on, lvgs[..i], used)
    requires if lvgs[i].name in used then Added(on, r, lvgs[i].nodes, lvgs[i].name) else r == on
    ensures Collected(r, lvgs[..i + 1], used)
  {
    assert lvgs[..i + 1][..i] == lvgs[..i];
    forall node ensures Lookup(r, node) == UsersOf(lvgs[..i + 1], used, node) {
      assert Lookup(on, node) == UsersOf(lvgs[..i], used, node);
    }
  }

  method AddReports(on: map<string, seq<string>>, nodes: seq<string>, lvg: string) returns (r: map<string, seq<string>>)
    ensures Added(on, r, nodes, lvg)
  {
    r := on;
    for k := 0 to |nodes|
      invariant Added(on, r, nodes[..k], lvg)
    {
      ghost var before := r;
      r := r[nodes[k] := Lookup(r, nodes[k]) + [lvg]];
      AddOne(on, before, r, nodes, k, lvg);
    }
    assert nodes[..|nodes|] == nodes;
  }

  lemma AddOne(on: map<string, seq<string>>, before: map<string, seq<string>>, r: map<string, seq<string>>,
               nodes: seq<string>, k: nat, lvg: string)
    requires k < |nodes| && Added(on, before, nodes[..k], lvg)
    requires r == before[nodes[k] := Lookup(before, nodes[k]) + [lvg]]
    ensures Added(on, r, nodes[..k + 1], lvg)
  {
    forall node ensures Lookup(r, node) == Lookup(on, node) + Reports(nodes[..k + 1], lvg, node) {
      AddOneAt(on, before, nodes, k, lvg, node);
    }
  }

  lemma AddOneAt(on: map<string, seq<string>>, before: map<string, seq<string>>, nodes: seq<string>, k: nat, lvg: string, node: string)
    requires k < |nodes| && Lookup(before, node) == Lookup(on, node) + Reports(nodes[..k], lvg, node)
    ensures Lookup(before[nodes[k] := Lookup(before, nodes[k]) + [lvg]], node) == Lookup(on, node) + Reports(nodes[..k + 1], lvg, node)
  {
    ReportsStep(nodes, k, lvg, node);
    if nodes[k] == node {
      Concat(Lookup(on, node), Reports(nodes[..k], lvg, node), [lvg]);
    }
  }

  lemma ReportsStep(nodes: seq<string>, k: nat, lvg: string, node: string)
    requires k < |nodes|
    ensures Reports(nodes[..k + 1], lvg, node) == Reports(nodes[..k], lvg, node) + if nodes[k] == node then [lvg] else []
  {
    assert nodes[..k + 1][..k] == nodes[..k];
  }

  lemma Concat(a: seq<string>, b: seq<string>, c: seq<string>)
    ensures (a + b) + c == a + (b + c)
  {
  }

  method ValidateEntries(entries: seq<Entry>, lvmType: string, lvgs: seq<VolumeGroup>) returns (valid: bool)
    ensures valid <==> (forall e :: e in entries ==> EntryFits(e, lvmType, lvgs)) && !Mixed(entries)
  {
    valid := true;
    var nameEntries, selectorEntries := 0, 0;
    for i := 0 to |entries|
      invariant nameEntries >= 0 && selectorEntries >= 0
      invariant nameEntries > 0 <==> exists e :: e in entries[..i] && e.name != ""
      invariant selectorEntries > 0 <==> exists e :: e in entries[..i] && e.selector.Some?
      invariant valid <==> forall e :: e in entries[..i] ==> EntryFits(e, lvmType, lvgs)
    {
      assert entries[..i + 1] == entries[..i] + [entries[i]];
      var entry := entries[i];
      ghost var before := valid;
      var hasName := entry.name != "";
      var hasSelector := entry.selector.Some?;
      if hasName {
        nameEntries := nameEntries + 1;
      }
      if hasSelector {
        selectorEntries := selectorEntries + 1;
      }
      if hasName == hasSelector {
        valid := false;
      } else if hasSelector {
        if entry.selector.value.Malformed? {
          valid := false;
        } else {
          var count := CountLvgsMatchingSelector(lvgs, entry.selector.value);
          if count == 0 {
            valid := false;
          }
        }
      }
      if lvmType == THIN {
        if entry.thin.None? || entry.thin.value == "" {
          valid := false;
        }
      } else if entry.thin.Some? {
        valid := false;
      }
      assert valid <==> before && EntryFits(entry, lvmType, lvgs);
    }
    assert entries[..|entries|] == entries;
    if nameEntries > 0 && selectorEntries > 0 {
      valid := false;
    }
  }

  method ValidateLocalStorageClass(scs: seq<StorageClass>, lsc: LocalStorageClass, lvgs: seq<VolumeGroup>, targets: seq<Target>)
    returns (valid: bool)
    ensures valid <==> IsValid(scs, lsc, lvgs, targets)
  {
    valid := true;
    var unmanaged := FindUnmanagedDuplicatedSc(scs, lsc);
    if unmanaged.Some? {
      valid := false;
    }
    if lsc.lvm.None? {
      return false;
    }
    var lvm := lsc.lvm.value;
    if |lvm.entries| == 0 {
      valid := false;
    }
    var entriesFit := ValidateEntries(lvm.entries, lvm.lvmType, lvgs);
    valid := valid && entriesFit;
    var shared := FindLvgsOnTheSameNode(lvgs, targets);
    if shared != {} {
      valid := false;
    }
    var missing := FindNonexistentLvgs(lvgs, targets);
    EmptyMeansAllExist(lvgs, targets, missing);
    if |missing| != 0 {
      valid := false;
    }
    if lvm.lvmType == THIN {
      var bad := FindNonexistentThinPools(lvgs, targets);
      if |bad| != 0 {
        assert bad[0] in bad;
        valid := false;
      } else {
        assert forall t :: t in targets && !HasPool(LvgsByName(lvgs), t) ==> t.name in bad;
      }
    } else {
      var bad := FindAnyThinPool(targets);
      if |bad| != 0 {
        assert bad[0] in bad;
        valid := false;
      } else {
        assert forall t :: t in targets && t.thin.Some? ==> t.name in bad;
      }
    }
  }

  lemma EmptyMeansAllExist(lvgs: seq<VolumeGroup>, targets: seq<Target>, missing: seq<string>)
    requires forall n :: n in missing <==> n in TargetNames(targets) && !Exists(lvgs, n)
    ensures missing == [] <==> forall t :: t in targets ==> Exists(lvgs, t.name)
  {
    if missing != [] {
      assert missing[0] in missing;
    } else {
      forall t | t in targets ensures Exists(lvgs, t.name) {
        assert t.name in TargetNames(targets);
      }
    }
  }
}
