/**
  What it means that the controller finds no difference between a StorageClass and the
  LocalStorageClass it is rendered from.
  */
module ScComparison {
  import opened Wrappers
  import opened Names
  import opened LocalStorage
  import opened StorageClasses

  // ------------------------------------------------------- comparing is map equality

  lemma {:induction false} ByNameIsExact(targets: seq<Target>)
    requires DistinctNames(targets)
    ensures forall t :: t in targets <==> t.name in ByName(targets) && ByName(targets)[t.name] == t.thin
    ensures |ByName(targets)| == |targets|
  {
    if targets != [] {
      var init, last := targets[..|targets| - 1], targets[|targets| - 1];
      ByNameIsExact(init);
      assert last.name !in ByName(init) by {
        assert forall n :: n in ByName(init) ==> Target(n, ByName(init)[n]) in init;
        assert forall t :: t in init ==> t.name != last.name;
      }
      forall t ensures t in targets <==> t.name in ByName(targets) && ByName(targets)[t.name] == t.thin {
        assert t in targets <==> t in init || t == last by {
          assert targets == init + [last];
        }
      }
    }
  }

  /** Every LVMVolumeGroup of `current` is in `effective`, with the same pool where that matters. */
  ghost predicate Included(current: seq<Target>, effective: map<string, Option<string>>, thin: bool) {
    forall t :: t in current ==> t.name in effective && (thin ==> t.thin == effective[t.name])
  }

  lemma {:induction false} CompareIsInclusion(current: seq<Target>, effective: map<string, Option<string>>, thin: bool)
    requires PoolsKnown(current, effective, thin)
    ensures Compare(current, effective, thin) == Ok(!Included(current, effective, thin))
  {
    if current != [] {
      CompareIsInclusion(current[1..], effective, thin);
      assert current == [current[0]] + current[1..];
      assert current[0] in current;
    }
  }

  /** The two lists are the same map from name to thin pool, or for a Thick class the same
      set of names. */
  ghost predicate SameGroups(current: seq<Target>, targets: seq<Target>, thin: bool) {
    ByName(current).Keys == ByName(targets).Keys && (thin ==> ByName(current) == ByName(targets))
  }

  lemma IncludedIsEqual(current: seq<Target>, targets: seq<Target>, thin: bool)
    requires DistinctNames(current) && DistinctNames(targets) && |current| == |targets|
    ensures Included(current, ByName(targets), thin) <==> SameGroups(current, targets, thin)
  {
    ByNameIsExact(current);
    ByNameIsExact(targets);
    var a, b := ByName(current), ByName(targets);
    if Included(current, b, thin) {
      forall n | n in a ensures n in b && (thin ==> a[n] == b[n]) {
        assert Target(n, a[n]) in current;
      }
      assert a.Keys <= b.Keys && |a.Keys| == |a| && |b.Keys| == |b|;
      SameSize(a.Keys, b.Keys);
    }
  }

  lemma SameSize<T>(a: set<T>, b: set<T>)
    requires a <= b && |a| == |b|
    ensures a == b
  {
    assert b == a + (b - a);
  }

  /** hasSCDiff finds nothing to do exactly when cleanup, labels and the LVMVolumeGroups -
      as a map from name to thin pool, as a set of names for a Thick class - agree. */
  lemma DiffIsMapEquality(sc: StorageClass, lsc: LocalStorageClass, targets: seq<Target>, prefixes: seq<string>)
    requires lsc.lvm.Some? && sc.lvgs.Some? && DistinctNames(sc.lvgs.value) && DistinctNames(targets)
    requires PoolsKnown(sc.lvgs.value, ByName(targets), lsc.lvm.value.lvmType == THIN)
    ensures HasScDiff(sc, lsc, targets, prefixes).Ok?
    ensures HasScDiff(sc, lsc, targets, prefixes) == Ok(false) <==>
              SameSettings(sc, lsc, prefixes) && SameGroups(sc.lvgs.value, targets, lsc.lvm.value.lvmType == THIN)
  {
    var current, thin := sc.lvgs.value, lsc.lvm.value.lvmType == THIN;
    DiffIsInclusion(sc, lsc, targets, prefixes);
    ByNameIsExact(current);
    ByNameIsExact(targets);
    if |current| == |targets| {
      IncludedIsEqual(current, targets, thin);
    } else {
      assert |ByName(current).Keys| != |ByName(targets).Keys|;
    }
  }

  /** A thin pool is known for every shared name, in the StorageClass or in the class. */
  ghost predicate PoolsKnown(current: seq<Target>, effective: map<string, Option<string>>, thin: bool) {
    thin ==> forall t :: t in current && t.name in effective ==> t.thin.Some? || effective[t.name].Some?
  }

  /** As it is for a valid Thin class, whose every entry names a pool. */
  lemma {:induction false} EffectivePoolsKnown(current: seq<Target>, targets: seq<Target>, thin: bool)
    requires thin ==> forall t :: t in targets ==> t.thin.Some?
    ensures PoolsKnown(current, ByName(targets), thin)
    ensures thin ==> forall n :: n in ByName(targets) ==> ByName(targets)[n].Some?
  {
    if targets != [] {
      var init, last := targets[..|targets| - 1], targets[|targets| - 1];
      assert targets == init + [last];
      EffectivePoolsKnown(current, init, thin);
    }
  }

  predicate SameSettings(sc: StorageClass, lsc: LocalStorageClass, prefixes: seq<string>)
    requires lsc.lvm.Some?
  {
    lsc.lvm.value.cleanup == sc.cleanup && sc.labels == ExpectedLabels(lsc.labels, prefixes)
  }

  /** The code compares cleanup, labels, lengths and then the two lists, one way. */
  lemma DiffIsComparison(sc: StorageClass, lsc: LocalStorageClass, targets: seq<Target>, prefixes: seq<string>)
    requires lsc.lvm.Some? && sc.lvgs.Some?
    ensures HasScDiff(sc, lsc, targets, prefixes)
         == if SameSettings(sc, lsc, prefixes) && |sc.lvgs.value| == |targets|
            then Compare(sc.lvgs.value, ByName(targets), lsc.lvm.value.lvmType == THIN) else Ok(true)
  {
  }

  lemma DiffOfComparison(sc: StorageClass, lsc: LocalStorageClass, targets: seq<Target>, prefixes: seq<string>, included: bool)
    requires lsc.lvm.Some? && sc.lvgs.Some?
    requires Compare(sc.lvgs.value, ByName(targets), lsc.lvm.value.lvmType == THIN) == Ok(!included)
    ensures HasScDiff(sc, lsc, targets, prefixes) == Ok(!(SameSettings(sc, lsc, prefixes) && |sc.lvgs.value| == |targets| && included))
  {
    DiffIsComparison(sc, lsc, targets, prefixes);
  }

  /** Whether the StorageClass repeats a name or not. */
  lemma DiffIsInclusion(sc: StorageClass, lsc: LocalStorageClass, targets: seq<Target>, prefixes: seq<string>)
    requires lsc.lvm.Some? && sc.lvgs.Some?
    requires PoolsKnown(sc.lvgs.value, ByName(targets), lsc.lvm.value.lvmType == THIN)
    ensures HasScDiff(sc, lsc, targets, prefixes)
         == Ok(!(&& SameSettings(sc, lsc, prefixes) && |sc.lvgs.value| == |targets|
                 && Included(sc.lvgs.value, ByName(targets), lsc.lvm.value.lvmType == THIN)))
  {
    CompareIsInclusion(sc.lvgs.value, ByName(targets), lsc.lvm.value.lvmType == THIN);
    DiffOfComparison(sc, lsc, targets, prefixes, Included(sc.lvgs.value, ByName(targets), lsc.lvm.value.lvmType == THIN));
  }

  lemma {:induction false} NamesAreFewer(targets: seq<Target>)
    ensures |ByName(targets)| <= |targets|
    ensures !DistinctNames(targets) ==> |ByName(targets)| < |targets|
    ensures forall t :: t in targets ==> t.name in ByName(targets)
  {
    if targets != [] {
      var init, last := targets[..|targets| - 1], targets[|targets| - 1];
      NamesAreFewer(init);
      assert targets == init + [last];
      if !DistinctNames(targets) && DistinctNames(init) {
        var i, j :| 0 <= i < j < |targets| && targets[i].name == targets[j].name;
        assert init[i].name == last.name && init[i] in init;
      }
    }
  }

  /** With cleanup, labels and length equal, the comparison is map equality exactly if the
      StorageClass names each LVMVolumeGroup once or names one the class does not call for. */
  lemma MapEqualityBoundary(sc: StorageClass, lsc: LocalStorageClass, targets: seq<Target>, prefixes: seq<string>)
    requires lsc.lvm.Some? && sc.lvgs.Some? && DistinctNames(targets)
    requires PoolsKnown(sc.lvgs.value, ByName(targets), lsc.lvm.value.lvmType == THIN)
    requires SameSettings(sc, lsc, prefixes) && |sc.lvgs.value| == |targets|
    ensures var current, thin := sc.lvgs.value, lsc.lvm.value.lvmType == THIN;
            (HasScDiff(sc, lsc, targets, prefixes) == Ok(false) <==> SameGroups(current, targets, thin))
            <==> DistinctNames(current) || !Included(current, ByName(targets), thin)
  {
    DiffIsInclusion(sc, lsc, targets, prefixes);
    SameGroupsBoundary(sc.lvgs.value, targets, lsc.lvm.value.lvmType == THIN);
  }

  lemma SameGroupsBoundary(current: seq<Target>, targets: seq<Target>, thin: bool)
    requires DistinctNames(targets) && |current| == |targets|
    ensures SameGroups(current, targets, thin) <==> DistinctNames(current) && Included(current, ByName(targets), thin)
  {
    if DistinctNames(current) {
      IncludedIsEqual(current, targets, thin);
    } else {
      RepeatedIsNotSame(current, targets, thin);
    }
  }

  lemma RepeatedIsNotSame(current: seq<Target>, targets: seq<Target>, thin: bool)
    requires DistinctNames(targets) && !DistinctNames(current) && |current| == |targets|
    ensures !SameGroups(current, targets, thin)
  {
    ByNameIsExact(targets);
    NamesAreFewer(current);
    assert |ByName(current).Keys| != |ByName(targets).Keys|;
  }

  /** The StorageClass repeats a name and so hides that another is missing. */
  ghost predicate HidesMissing(sc: StorageClass, lsc: LocalStorageClass, targets: seq<Target>, prefixes: seq<string>)
    requires lsc.lvm.Some? && sc.lvgs.Some?
  {
    && SameSettings(sc, lsc, prefixes)
    && |sc.lvgs.value| == |targets| && !DistinctNames(sc.lvgs.value)
    && Included(sc.lvgs.value, ByName(targets), lsc.lvm.value.lvmType == THIN)
  }

  /** Neither the order of the LVMVolumeGroups on either side nor any label under an
      ignored prefix can cause a recreate. */
  lemma OrderAndIgnoredLabelsNeverDiffer(sc: StorageClass, sc': StorageClass, lsc: LocalStorageClass, lsc': LocalStorageClass,
                                         targets: seq<Target>, targets': seq<Target>, prefixes: seq<string>)
    requires lsc.lvm.Some? && sc.lvgs.Some? && sc'.lvgs.Some?
    requires DistinctNames(sc.lvgs.value) && DistinctNames(sc'.lvgs.value) && DistinctNames(targets) && DistinctNames(targets')
    requires lsc.lvm.value.lvmType == THIN ==> forall t :: t in targets ==> t.thin.Some?
    requires forall t :: t in targets <==> t in targets'
    requires forall t :: t in sc.lvgs.value <==> t in sc'.lvgs.value
    requires sc'.cleanup == sc.cleanup && sc'.labels == sc.labels && lsc'.lvm == lsc.lvm
    requires forall key :: !IsIgnored(key, prefixes) ==>
               (key in lsc.labels <==> key in lsc'.labels) && (key in lsc.labels ==> lsc'.labels[key] == lsc.labels[key])
    ensures HasScDiff(sc, lsc, targets, prefixes) == HasScDiff(sc', lsc', targets', prefixes)
  {
    EffectivePoolsKnown(sc.lvgs.value, targets, lsc.lvm.value.lvmType == THIN);
    EffectivePoolsKnown(sc'.lvgs.value, targets', lsc.lvm.value.lvmType == THIN);
    DiffIsMapEquality(sc, lsc, targets, prefixes);
    DiffIsMapEquality(sc', lsc', targets', prefixes);
    assert FilterLabels(lsc.labels, prefixes) == FilterLabels(lsc'.labels, prefixes);
    SameTargetsSameMap(targets, targets');
    SameTargetsSameMap(sc.lvgs.value, sc'.lvgs.value);
    var a, b := HasScDiff(sc, lsc, targets, prefixes), HasScDiff(sc', lsc', targets', prefixes);
    assert a == Ok(false) <==> b == Ok(false);
    assert a.value <==> b.value;
  }

  lemma SameTargetsSameMap(a: seq<Target>, b: seq<Target>)
    requires DistinctNames(a) && DistinctNames(b) && forall t :: t in a <==> t in b
    ensures ByName(a) == ByName(b)
  {
    ByNameIsExact(a);
    ByNameIsExact(b);
    forall n ensures n in ByName(a) <==> n in ByName(b) {
      if n in ByName(a) {
        assert Target(n, ByName(a)[n]) in a;
      }
      if n in ByName(b) {
        assert Target(n, ByName(b)[n]) in b;
      }
    }
    forall n | n in ByName(a) ensures ByName(a)[n] == ByName(b)[n] {
      assert Target(n, ByName(a)[n]) in b;
    }
  }

  /** What the controller renders, it finds nothing to change about. */
  lemma ConfiguredHasNoDiff(lsc: LocalStorageClass, targets: seq<Target>, prefixes: seq<string>, annotations: Labels)
    requires lsc.lvm.Some? && DistinctNames(targets)
    requires lsc.lvm.value.lvmType == THIN ==> forall t :: t in targets ==> t.thin.Some?
    ensures HasScDiff(Configure(lsc, targets, prefixes).value.(annotations := annotations), lsc, targets, prefixes) == Ok(false)
  {
    var sc := Configure(lsc, targets, prefixes).value.(annotations := annotations);
    EffectivePoolsKnown(targets, targets, lsc.lvm.value.lvmType == THIN);
    DiffIsMapEquality(sc, lsc, targets, prefixes);
  }

  /** The class's labels but for those under an ignored prefix, and the controller's own. */
  ghost predicate LabelsCalledFor(labels: Labels, classLabels: Labels, prefixes: seq<string>) {
    && MANAGED_KEY in labels && labels[MANAGED_KEY] == CONTROLLER_NAME
    && forall key :: key != MANAGED_KEY ==>
         && (key in labels <==> key in classLabels && !IsIgnored(key, prefixes))
         && (key in labels ==> labels[key] == classLabels[key])
  }

  /** The StorageClass the class calls for, also in what the comparison does not look at. */
  ghost predicate CalledFor(sc: StorageClass, lsc: LocalStorageClass, targets: seq<Target>, prefixes: seq<string>) {
    && lsc.lvm.Some? && Ours(sc) && !sc.terminating && sc.finalizers == [Controller]
    && sc.lvgs == Some(targets) && LabelsCalledFor(sc.labels, lsc.labels, prefixes)
    && sc.lvmType == lsc.lvm.value.lvmType && sc.cleanup == lsc.lvm.value.cleanup
    && (sc.contiguous <==> lsc.lvm.value.contiguous == Some(true))
    && sc.fsType == (if lsc.fsType == "" then "ext4" else lsc.fsType)
    && sc.reclaimPolicy == lsc.reclaimPolicy && sc.bindingMode == lsc.bindingMode
    && SNAPSHOT_CLASS_KEY in sc.annotations && sc.annotations[SNAPSHOT_CLASS_KEY] == SNAPSHOT_CLASS
  }

  /** Nobody else's annotation came, went or changed. */
  ghost predicate SameForeign(before: Labels, after: Labels) {
    forall key :: key != SNAPSHOT_CLASS_KEY ==>
      (key in after <==> key in before) && (key in before ==> after[key] == before[key])
  }

  /** A label is ignored exactly if its key is one of the prefixes, not empty, and something
      behind it or nothing. */
  lemma IgnoredIsPrefixed(key: string, prefixes: seq<string>)
    ensures IsIgnored(key, prefixes) <==> exists prefix, rest :: prefix in prefixes && prefix != "" && key == prefix + rest
  {
    if IsIgnored(key, prefixes) {
      var prefix :| prefix in prefixes && prefix != "" && prefix <= key;
      assert key == prefix + key[|prefix|..];
    }
  }

  /** Nothing to tell two entries of a Thin class apart by: no pool on either side. */
  predicate PoolUnknown(t: Target, effective: map<string, Option<string>>) {
    t.name in effective && t.thin.None? && effective[t.name].None?
  }

  /** i is the first entry the comparison stops at, and its pool is unknown. */
  ghost predicate StopsUnknown(current: seq<Target>, effective: map<string, Option<string>>, i: nat) {
    && i < |current| && PoolUnknown(current[i], effective)
    && forall j :: 0 <= j < i ==> current[j].name in effective && current[j].thin.Some? && current[j].thin == effective[current[j].name]
  }

  /** The comparison fails exactly for a Thin class where, after entries that agree, one has
      no pool in the StorageClass nor in the class. */
  lemma {:induction false} ComparisonFailsExactly(current: seq<Target>, effective: map<string, Option<string>>, thin: bool)
    ensures Compare(current, effective, thin) == Fail <==> thin && exists i: nat :: StopsUnknown(current, effective, i)
  {
    if current != [] {
      var tail := current[1..];
      ComparisonFailsExactly(tail, effective, thin);
      if !thin {
      } else if PoolUnknown(current[0], effective) {
        assert StopsUnknown(current, effective, 0);
      } else {
        if i: nat :| StopsUnknown(current, effective, i) {
          assert i > 0 && current[0].name in effective;
          assert forall j :: 0 <= j < |tail| ==> tail[j] == current[j + 1];
          assert StopsUnknown(tail, effective, i - 1);
        }
        if Compare(current, effective, thin) == Fail {
          var i: nat :| StopsUnknown(tail, effective, i);
          assert forall j :: 0 < j < |current| ==> tail[j - 1] == current[j];
          assert StopsUnknown(current, effective, i + 1);
        }
      }
    }
  }

  lemma ConfiguredIsCalledFor(lsc: LocalStorageClass, targets: seq<Target>, prefixes: seq<string>)
    requires lsc.lvm.Some?
    ensures var sc := Configure(lsc, targets, prefixes).value;
            CalledFor(sc, lsc, targets, prefixes) && SameForeign(map[], sc.annotations)
  {
  }

  /** Recreating keeps every annotation others put there and restores the controller's own. */
  lemma AnnotationsSurvive(lsc: LocalStorageClass, existing: StorageClass, targets: seq<Target>, prefixes: seq<string>)
    requires lsc.lvm.Some?
    ensures var sc := Reconfigure(lsc, existing, targets, prefixes).value;
            && SNAPSHOT_CLASS_KEY in sc.annotations && sc.annotations[SNAPSHOT_CLASS_KEY] == SNAPSHOT_CLASS
            && SameForeign(existing.annotations, sc.annotations)
  {
  }

  /** For example: equal length and one-way inclusion miss that b is gone. */
  lemma RepetitionHidesADifference(a: string, b: string, prefixes: seq<string>, lsc: LocalStorageClass)
    requires a != b && lsc.lvm.Some? && lsc.lvm.value.lvmType != THIN
    ensures var targets := [Target(a, None), Target(b, None)];
            var sc := Configure(lsc, targets, prefixes).value.(lvgs := Some([Target(a, None), Target(a, None)]));
            HasScDiff(sc, lsc, targets, prefixes) == Ok(false) && HidesMissing(sc, lsc, targets, prefixes)
            && !SameGroups(sc.lvgs.value, targets, false)
  {
    var x, y := Target(a, None), Target(b, None);
    var targets := [x, y];
    var sc := Configure(lsc, targets, prefixes).value.(lvgs := Some([x, x]));
    assert !DistinctNames([x, x]) by {
      assert [x, x][0].name == [x, x][1].name;
    }
    assert a in ByName(targets) by {
      NamesAreFewer(targets);
      assert x in targets;
    }
    DiffIsInclusion(sc, lsc, targets, prefixes);
    MapEqualityBoundary(sc, lsc, targets, prefixes);
  }
}
