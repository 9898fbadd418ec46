/** Which LVMVolumeGroup events wake which LocalStorageClasses, and that none is missed. */
module ClassWatch {
  import opened Wrappers
  import opened LocalStorage
  import opened LvgResolution
  import opened StorageClasses
  import opened ClassReconciler

  ghost predicate UsesSelector(lsc: LocalStorageClass) {
    lsc.lvm.Some? && exists e :: e in lsc.lvm.value.entries && e.selector.Some?
  }

  method LscUsesLabelSelector(lsc: LocalStorageClass) returns (uses: bool)
    ensures uses <==> UsesSelector(lsc)
  {
    if lsc.lvm.None? {
      return false;
    }
    var entries := lsc.lvm.value.entries;
    for i := 0 to |entries|
      invariant forall e :: e in entries[..i] ==> e.selector.None?
    {
      assert entries[..i + 1] == entries[..i] + [entries[i]];
      if entries[i].selector.Some? {
        assert entries[i] in entries;
        return true;
      }
    }
    assert entries[..|entries|] == entries;
    return false;
  }

  /** The names enqueued after an LVMVolumeGroup change. */
  method MapLvgChange(lscs: seq<LocalStorageClass>) returns (requests: seq<string>)
    ensures forall n :: n in requests <==> exists lsc :: lsc in lscs && lsc.name == n && UsesSelector(lsc)
  {
    requests := [];
    for i := 0 to |lscs|
      invariant forall n :: n in requests <==> exists lsc :: lsc in lscs[..i] && lsc.name == n && UsesSelector(lsc)
    {
      assert lscs[..i + 1] == lscs[..i] + [lscs[i]];
      var uses := LscUsesLabelSelector(lscs[i]);
      if uses {
        requests := requests + [lscs[i].name];
      }
    }
    assert lscs[..|lscs|] == lscs;
  }

  /** The update predicate: status-only writes wake nobody. */
  predicate LvgUpdateMatters(before: VolumeGroup, after: VolumeGroup) {
    before.labels != after.labels
  }

  /** A class that is not enqueued would resolve to the same list before and after,
      whatever happened to the LVMVolumeGroups. */
  lemma NotEnqueuedUnaffected(lsc: LocalStorageClass, lvgs: seq<VolumeGroup>, lvgs': seq<VolumeGroup>)
    requires !UsesSelector(lsc)
    ensures EffectiveLvgs(lsc, lvgs) == EffectiveLvgs(lsc, lvgs')
  {
    if lsc.lvm.Some? {
      NameOrderIsIrrelevant(lsc.lvm.value.entries, lsc.lvm.value.entries, lvgs, lvgs');
    }
  }

  /** An ignored update of the i-th LVMVolumeGroup changes no class's list. */
  lemma IgnoredLvgUpdateUnaffecting(lsc: LocalStorageClass, lvgs: seq<VolumeGroup>, i: nat, after: VolumeGroup)
    requires i < |lvgs| && after.name == lvgs[i].name && !LvgUpdateMatters(lvgs[i], after)
    ensures EffectiveLvgs(lsc, lvgs) == EffectiveLvgs(lsc, lvgs[i := after])
  {
    if lsc.lvm.Some? {
      OnlyLabelsMatter(lsc.lvm.value.entries, lvgs, lvgs[i := after]);
    }
  }

  /** The update predicate for LocalStorageClasses: neither spec nor labels changed, and
      no deletion is under way. */
  ghost predicate ClassUpdateMatters(before: LocalStorageClass, after: LocalStorageClass) {
    || after.terminating || after.labels != before.labels
    || after.lvm != before.lvm || after.fsType != before.fsType
    || after.reclaimPolicy != before.reclaimPolicy || after.bindingMode != before.bindingMode
  }

  /** An ignored update calls for the same LVMVolumeGroups and the same StorageClass. */
  lemma IgnoredClassUpdateUnaffecting(before: LocalStorageClass, after: LocalStorageClass, sc: StorageClass,
                                      lvgs: seq<VolumeGroup>, prefixes: seq<string>)
    requires !ClassUpdateMatters(before, after) && after.name == before.name
    requires before.lvm.Some? && EffectiveLvgs(before, lvgs).Ok?
    ensures EffectiveLvgs(after, lvgs) == EffectiveLvgs(before, lvgs)
    ensures var targets := EffectiveLvgs(before, lvgs).value;
            && HasScDiff(sc, after, targets, prefixes) == HasScDiff(sc, before, targets, prefixes)
            && Configure(after, targets, prefixes) == Configure(before, targets, prefixes)
  {
  }
}
