/** The admission webhook for LocalStorageClasses, and that it agrees with the controller. */
module Admission {
  import opened Wrappers
  import opened Names
  import opened LocalStorage
  import opened LvgResolution
  import opened StorageClasses
  import opened Validation

  ghost predicate Admissible(e: Entry, lvmType: string, lvgs: seq<VolumeGroup>) {
    && NameOrSelector(e)
    && ThinFits(e, lvmType)
    && (if e.selector.Some? then e.selector.value.Selecting? else Exists(lvgs, e.name))
  }

  /** No two entries without a selector name the same LVMVolumeGroup. */
  ghost predicate NamesOnce(entries: seq<Entry>) {
    forall i, j :: 0 <= i < j < |entries| && entries[i].selector.None? && entries[j].selector.None? ==>
      entries[i].name != entries[j].name
  }

  ghost predicate Accepts(lvm: Option<LvmSpec>, lvgs: seq<VolumeGroup>) {
    && lvm.Some? && lvm.value.entries != []
    && !Mixed(lvm.value.entries)
    && (forall e :: e in lvm.value.entries ==> Admissible(e, lvm.value.lvmType, lvgs))
    && NamesOnce(lvm.value.entries)
  }

  method LscValidate(lvm: Option<LvmSpec>, lvgs: seq<VolumeGroup>) returns (valid: bool)
    ensures valid <==> Accepts(lvm, lvgs)
  {
    if lvm.None? {
      return false;
    }
    var entries, lvmType := lvm.value.entries, lvm.value.lvmType;
    if |entries| == 0 {
      return false;
    }
    var mixed := CountsBothKinds(entries);
    if mixed {
      return false;
    }
    var unique: seq<string> := [];
    for i := 0 to |entries|
      invariant forall e :: e in entries[..i] ==> Admissible(e, lvmType, lvgs)
      invariant NamesOnce(entries[..i])
      invariant forall n :: n in unique <==> exists e :: e in entries[..i] && e.selector.None? && e.name == n
    {
      assert entries[..i + 1] == entries[..i] + [entries[i]];
      var entry := entries[i];
      assert entry in entries;
      var hasName := entry.name != "";
      var hasSelector := entry.selector.Some?;
      if hasName == hasSelector {
        return false;
      }
      if lvmType == THIN {
        if entry.thin.None? || entry.thin.value == "" {
          return false;
        }
      } else if entry.thin.Some? {
        return false;
      }
      if hasSelector {
        if entry.selector.value.Malformed? {
          return false;
        }
        continue;
      }
      if entry.name in unique {
        assert exists k :: 0 <= k < i && entries[..i][k].selector.None? && entries[k].name == entry.name;
        return false;
      }
      unique := unique + [entry.name];
      var lvgExists := false;
      for k := 0 to |lvgs|
        invariant !lvgExists && !Exists(lvgs[..k], entry.name)
      {
        assert lvgs[..k + 1] == lvgs[..k] + [lvgs[k]];
        if lvgs[k].name == entry.name {
          lvgExists := true;
          break;
        }
      }
      assert lvgs[..|lvgs|] == lvgs;
      if !lvgExists {
        return false;
      }
    }
    assert entries[..|entries|] == entries;
    return true;
  }

  method CountsBothKinds(entries: seq<Entry>) returns (mixed: bool)
    ensures mixed <==> Mixed(entries)
  {
    var nameEntries, selectorEntries := 0, 0;
    for i := 0 to |entries|
      invariant nameEntries >= 0 && selectorEntries >= 0
      invariant nameEntries > 0 <==> exists e :: e in entries[..i] && e.name != ""
      invariant selectorEntries > 0 <==> exists e :: e in entries[..i] && e.selector.Some?
    {
      assert entries[..i + 1] == entries[..i] + [entries[i]];
      if entries[i].name != "" {
        nameEntries := nameEntries + 1;
      }
      if entries[i].selector.Some? {
        selectorEntries := selectorEntries + 1;
      }
    }
    assert entries[..|entries|] == entries;
    return nameEntries > 0 && selectorEntries > 0;
  }

  // --------------------------------------------------- the webhook and the controller

  /** What only the controller checks, because it depends on more than the class. */
  ghost predicate FitsTheCluster(scs: seq<StorageClass>, lsc: LocalStorageClass, lvgs: seq<VolumeGroup>, targets: seq<Target>)
    requires lsc.lvm.Some?
  {
    && !Foreign(scs, lsc.name)
    && !SharesNode(lvgs, targets)
    && (forall e :: e in lsc.lvm.value.entries && e.selector.Some? ==> SelectorMatches(e.selector.value, lvgs))
    && (lsc.lvm.value.lvmType == THIN ==> forall t :: t in targets ==> HasPool(LvgsByName(lvgs), t))
  }

  /** The controller finds a resolvable class valid exactly when the webhook accepts it and
      no other provisioner has its name, no two of its LVMVolumeGroups share a node, every
      selector matches something and every thin pool exists. */
  lemma AdmissionAgrees(scs: seq<StorageClass>, lsc: LocalStorageClass, lvgs: seq<VolumeGroup>)
    requires lsc.lvm.Some? && Resolve(lsc.lvm.value.entries, lvgs).Ok?
    ensures var targets := Resolve(lsc.lvm.value.entries, lvgs).value;
            IsValid(scs, lsc, lvgs, targets) <==> Accepts(lsc.lvm, lvgs) && FitsTheCluster(scs, lsc, lvgs, targets)
  {
    var entries, lvmType := lsc.lvm.value.entries, lsc.lvm.value.lvmType;
    var targets := Resolve(entries, lvgs).value;
    if (forall e :: e in entries ==> NameOrSelector(e) && ThinFits(e, lvmType)) && !Mixed(entries) {
      OneKind(entries);
      TargetsComeFromEntries(entries, lvgs);
      ThickTargetsHaveNoPool(entries, lvmType, targets);
      if AllNames(entries) {
        NamesAgree(entries, lvmType, lvgs, targets);
      } else {
        SelectorsAgree(entries, lvmType, lvgs);
      }
    } else if !Mixed(entries) {
      var e :| e in entries && !(NameOrSelector(e) && ThinFits(e, lvmType));
      assert !EntryFits(e, lvmType, lvgs) && !Admissible(e, lvmType, lvgs);
    }
  }

  lemma ThickTargetsHaveNoPool(entries: seq<Entry>, lvmType: string, targets: seq<Target>)
    requires forall e :: e in entries ==> ThinFits(e, lvmType)
    requires forall t :: t in targets ==> exists e :: e in entries && e.thin == t.thin
    ensures lvmType != THIN ==> forall t :: t in targets ==> t.thin.None?
  {
  }

  lemma NamesAgree(entries: seq<Entry>, lvmType: string, lvgs: seq<VolumeGroup>, targets: seq<Target>)
    requires AllNames(entries) && DistinctEntryNames(entries)
    requires forall e :: e in entries ==> NameOrSelector(e) && ThinFits(e, lvmType)
    requires forall t :: t in targets <==> exists e :: e in entries && t == Target(e.name, e.thin)
    ensures NamesOnce(entries)
    ensures (forall t :: t in targets ==> Exists(lvgs, t.name)) <==> (forall e :: e in entries ==> Admissible(e, lvmType, lvgs))
    ensures forall e :: e in entries ==> EntryFits(e, lvmType, lvgs)
  {
    forall e | e in entries ensures Target(e.name, e.thin) in targets {
    }
  }

  lemma SelectorsAgree(entries: seq<Entry>, lvmType: string, lvgs: seq<VolumeGroup>)
    requires AllSelectors(entries) && forall e :: e in entries ==> NameOrSelector(e) && ThinFits(e, lvmType)
    ensures NamesOnce(entries)
    ensures (forall e :: e in entries ==> EntryFits(e, lvmType, lvgs)) <==>
              && (forall e :: e in entries ==> Admissible(e, lvmType, lvgs))
              && (forall e :: e in entries && e.selector.Some? ==> SelectorMatches(e.selector.value, lvgs))
  {
    assert forall i :: 0 <= i < |entries| ==> entries[i] in entries;
  }

  lemma OneKind(entries: seq<Entry>)
    requires forall e :: e in entries ==> NameOrSelector(e)
    ensures !Mixed(entries) <==> AllNames(entries) || AllSelectors(entries)
  {
    if !Mixed(entries) {
      if e :| e in entries && e.selector.Some? {
        assert forall f :: f in entries ==> f.name == "";
      }
    }
  }

  lemma TargetsComeFromEntries(entries: seq<Entry>, lvgs: seq<VolumeGroup>)
    requires Resolve(entries, lvgs).Ok?
    requires AllNames(entries) || AllSelectors(entries)
    ensures forall t :: t in Resolve(entries, lvgs).value ==> exists e :: e in entries && e.thin == t.thin
    ensures AllNames(entries) ==>
              && DistinctEntryNames(entries)
              && forall t :: t in Resolve(entries, lvgs).value <==> exists e :: e in entries && t == Target(e.name, e.thin)
    ensures !AllNames(entries) ==> forall t :: t in Resolve(entries, lvgs).value ==> Exists(lvgs, t.name)
  {
    if AllNames(entries) {
      NamedListResolves(entries, lvgs);
    } else {
      SelectorListResolves(entries, lvgs);
    }
  }

  function Named(entries: seq<Entry>): seq<Target> {
    if entries == [] then [] else [Target(entries[0].name, entries[0].thin)] + Named(entries[1..])
  }

  /** A class of names the webhook accepts resolves, to a permutation of its entries. */
  lemma AcceptedNamesResolve(lvm: LvmSpec, lvgs: seq<VolumeGroup>)
    requires Accepts(Some(lvm), lvgs) && AllNames(lvm.entries)
    ensures Resolve(lvm.entries, lvgs).Ok?
    ensures multiset(Resolve(lvm.entries, lvgs).value) == multiset(Named(lvm.entries))
  {
    NamesResolve(lvm.entries, lvgs);
    var resolved := AppendAll(lvm.entries, lvgs).value.resolved;
    SortSorts(resolved);
    NamedIsPointwise(lvm.entries);
    assert resolved == Named(lvm.entries);
  }

  lemma {:induction false} NamedIsPointwise(entries: seq<Entry>)
    ensures |Named(entries)| == |entries|
    ensures forall i :: 0 <= i < |entries| ==> Named(entries)[i] == Target(entries[i].name, entries[i].thin)
  {
    if entries != [] {
      NamedIsPointwise(entries[1..]);
    }
  }
}
