/**
  Expanding spec.lvm.lvmVolumeGroups into the concrete, sorted list of LVMVolumeGroups.
  */
module LvgResolution {
  import opened Wrappers
  import opened Names
  import opened LocalStorage

  // ------------------------------------------------------------- as the code does it

  datatype Acc = Acc(seen: map<string, Option<string>>, resolved: seq<Target>)

  function AppendEntry(acc: Acc, name: string, thin: Option<string>, allowCollapse: bool): Result<Acc> {
    if name in acc.seen then
      if !allowCollapse || acc.seen[name] != thin then Fail else Ok(acc)
    else Ok(Acc(acc.seen[name := thin], acc.resolved + [Target(name, thin)]))
  }

  function AppendMatching(acc: Acc, lvgs: seq<VolumeGroup>, matches: Labels -> bool, thin: Option<string>): Result<Acc> {
    if lvgs == [] then Ok(acc)
    else
      var before := AppendMatching(acc, lvgs[..|lvgs| - 1], matches, thin);
      var last := lvgs[|lvgs| - 1];
      if before.Fail? || !matches(last.labels) then before else AppendEntry(before.value, last.name, thin, true)
  }

  function AppendAll(entries: seq<Entry>, lvgs: seq<VolumeGroup>): Result<Acc> {
    if entries == [] then Ok(Acc(map[], []))
    else
      var before := AppendAll(entries[..|entries| - 1], lvgs);
      var last := entries[|entries| - 1];
      if before.Fail? then Fail
      else
        match last.selector
        case None => AppendEntry(before.value, last.name, last.thin, false)
        case Some(Malformed) => Fail
        case Some(Selecting(matches)) => AppendMatching(before.value, lvgs, matches, last.thin)
  }

  function Resolve(entries: seq<Entry>, lvgs: seq<VolumeGroup>): Result<seq<Target>> {
    match AppendAll(entries, lvgs)
    case Ok(acc) => Ok(Sort(acc.resolved))
    case Fail => Fail
  }

  method ResolveEffectiveLvgs(entries: seq<Entry>, lvgs: seq<VolumeGroup>) returns (r: Result<seq<Target>>)
    ensures r == Resolve(entries, lvgs)
  {
    var acc := Acc(map[], []);
    for i := 0 to |entries|
      invariant AppendAll(entries[..i], lvgs) == Ok(acc)
    {
      var entry := entries[i];
      assert entries[..i + 1][..i] == entries[..i];
      if entry.selector.None? {
        var appended := AppendEntry(acc, entry.name, entry.thin, false);
        if appended.Fail? {
          FailureStays(entries, lvgs, i + 1);
          return Fail;
        }
        acc := appended.value;
        continue;
      }
      if entry.selector.value.Malformed? {
        FailureStays(entries, lvgs, i + 1);
        return Fail;
      }
      ghost var before := acc;
      for k := 0 to |lvgs|
        invariant AppendMatching(before, lvgs[..k], entry.selector.value.matches, entry.thin) == Ok(acc)
      {
        assert lvgs[..k + 1][..k] == lvgs[..k];
        if !entry.selector.value.matches(lvgs[k].labels) {
          continue;
        }
        var appended := AppendEntry(acc, lvgs[k].name, entry.thin, true);
        if appended.Fail? {
          MatchFailureStays(before, lvgs, entry.selector.value.matches, entry.thin, k + 1);
          FailureStays(entries, lvgs, i + 1);
          return Fail;
        }
        acc := appended.value;
      }
      assert lvgs[..|lvgs|] == lvgs;
    }
    assert entries[..|entries|] == entries;
    return Ok(Sort(acc.resolved));
  }

  lemma {:induction false} FailureStays(entries: seq<Entry>, lvgs: seq<VolumeGroup>, n: nat)
    requires n <= |entries| && AppendAll(entries[..n], lvgs).Fail?
    ensures AppendAll(entries, lvgs).Fail?
    decreases |entries| - n
  {
    if n < |entries| {
      assert entries[..n + 1][..n] == entries[..n];
      FailureStays(entries, lvgs, n + 1);
    } else {
      assert entries[..n] == entries;
    }
  }

  lemma {:induction false} MatchFailureStays(acc: Acc, lvgs: seq<VolumeGroup>, matches: Labels -> bool, thin: Option<string>, n: nat)
    requires n <= |lvgs| && AppendMatching(acc, lvgs[..n], matches, thin).Fail?
    ensures AppendMatching(acc, lvgs, matches, thin).Fail?
    decreases |lvgs| - n
  {
    if n < |lvgs| {
      assert lvgs[..n + 1][..n] == lvgs[..n];
      MatchFailureStays(acc, lvgs, matches, thin, n + 1);
    } else {
      assert lvgs[..n] == lvgs;
    }
  }

  // ----------------------------------------------------------------- what it means

  ghost predicate AllNames(entries: seq<Entry>) {
    forall e :: e in entries ==> e.selector.None?
  }

  ghost predicate AllSelectors(entries: seq<Entry>) {
    forall e :: e in entries ==> e.selector.Some?
  }

  ghost predicate DistinctEntryNames(entries: seq<Entry>) {
    forall i, j :: 0 <= i < j < |entries| ==> entries[i].name != entries[j].name
  }

  predicate Selects(e: Entry, l: VolumeGroup) {
    e.selector.Some? && e.selector.value.Selecting? && e.selector.value.matches(l.labels)
  }

  /** Some entry selects an LVMVolumeGroup of this name and brings this thin pool. */
  ghost predicate Wanted(entries: seq<Entry>, lvgs: seq<VolumeGroup>, t: Target) {
    exists e, l :: e in entries && l in lvgs && Selects(e, l) && t == Target(l.name, e.thin)
  }

  ghost predicate Ambiguous(entries: seq<Entry>, lvgs: seq<VolumeGroup>) {
    exists t, u :: Wanted(entries, lvgs, t) && Wanted(entries, lvgs, u) && t.name == u.name && t.thin != u.thin
  }

  ghost predicate Consistent(acc: Acc) {
    && DistinctNames(acc.resolved)
    && (forall t :: t in acc.resolved <==> t.name in acc.seen && acc.seen[t.name] == t.thin)
  }

  lemma AppendKeepsConsistent(acc: Acc, name: string, thin: Option<string>, allowCollapse: bool)
    requires Consistent(acc) && AppendEntry(acc, name, thin, allowCollapse).Ok?
    ensures var r := AppendEntry(acc, name, thin, allowCollapse).value;
            Consistent(r) && forall t :: t in r.resolved <==> t in acc.resolved || t == Target(name, thin)
  {
    if name !in acc.seen {
      forall t | t in acc.resolved ensures t.name != name {
      }
    } else {
      assert Target(name, thin) in acc.resolved;
    }
  }

  /** The list so far, entry by entry. */
  ghost predicate Follows(acc: Acc, entries: seq<Entry>) {
    && Consistent(acc) && |acc.resolved| == |entries|
    && forall i :: 0 <= i < |entries| ==> acc.resolved[i] == Target(entries[i].name, entries[i].thin)
  }

  lemma NextNameResolves(acc: Acc, entries: seq<Entry>)
    requires entries != [] && Follows(acc, entries[..|entries| - 1]) && DistinctEntryNames(entries[..|entries| - 1])
    ensures var last := entries[|entries| - 1];
            var r := AppendEntry(acc, last.name, last.thin, false);
            (r.Ok? <==> DistinctEntryNames(entries)) && (r.Ok? ==> Follows(r.value, entries))
  {
    var n := |entries| - 1;
    var init, last := entries[..n], entries[n];
    if last.name in acc.seen {
      var t := Target(last.name, acc.seen[last.name]);
      assert t in acc.resolved;
      var i :| 0 <= i < n && acc.resolved[i] == t;
      assert init[i] == entries[i];
    } else {
      forall i | 0 <= i < n ensures entries[i].name != last.name {
        assert init[i] == entries[i] && acc.resolved[i] in acc.resolved;
      }
      forall i, j | 0 <= i < j < |entries| ensures entries[i].name != entries[j].name {
        assert j < n ==> init[i].name != init[j].name;
      }
      AppendKeepsConsistent(acc, last.name, last.thin, false);
    }
  }

  lemma {:induction false} NamesResolve(entries: seq<Entry>, lvgs: seq<VolumeGroup>)
    requires AllNames(entries)
    ensures AppendAll(entries, lvgs).Ok? <==> DistinctEntryNames(entries)
    ensures AppendAll(entries, lvgs).Ok? ==> Follows(AppendAll(entries, lvgs).value, entries)
  {
    if entries != [] {
      var init := entries[..|entries| - 1];
      NamesResolve(init, lvgs);
      if AppendAll(init, lvgs).Ok? {
        NextNameResolves(AppendAll(init, lvgs).value, entries);
      } else {
        var i, j :| 0 <= i < j < |init| && init[i].name == init[j].name;
        assert entries[i].name == entries[j].name;
      }
    }
  }

  lemma {:induction false} MatchingResolves(acc: Acc, lvgs: seq<VolumeGroup>, e: Entry)
    requires Consistent(acc) && e.selector.Some? && e.selector.value.Selecting?
    ensures var r := AppendMatching(acc, lvgs, e.selector.value.matches, e.thin);
            && (r.Ok? <==> forall l :: l in lvgs && Selects(e, l) && l.name in acc.seen ==> acc.seen[l.name] == e.thin)
            && (r.Ok? ==>
                  && Consistent(r.value)
                  && (forall t :: t in r.value.resolved <==>
                        t in acc.resolved || (t.thin == e.thin && exists l :: l in lvgs && Selects(e, l) && l.name == t.name)))
  {
    if lvgs != [] {
      var n := |lvgs| - 1;
      var last := lvgs[n];
      MatchingResolves(acc, lvgs[..n], e);
      var before := AppendMatching(acc, lvgs[..n], e.selector.value.matches, e.thin);
      assert forall l :: l in lvgs <==> l in lvgs[..n] || l == last by {
        assert lvgs == lvgs[..n] + [last];
      }
      if before.Ok? && Selects(e, last) {
        var r := AppendEntry(before.value, last.name, e.thin, true);
        assert last.name in acc.seen ==> last.name in before.value.seen && before.value.seen[last.name] == acc.seen[last.name] by {
          if last.name in acc.seen {
            assert Target(last.name, acc.seen[last.name]) in acc.resolved;
          }
        }
        if last.name in before.value.seen {
          assert Target(last.name, before.value.seen[last.name]) in before.value.resolved;
        }
        if r.Ok? {
          AppendKeepsConsistent(before.value, last.name, e.thin, true);
        }
      }
    }
  }

  lemma {:induction false} SelectorsResolve(entries: seq<Entry>, lvgs: seq<VolumeGroup>)
    requires AllSelectors(entries)
    ensures AppendAll(entries, lvgs).Ok? <==>
              (forall e :: e in entries ==> e.selector.value.Selecting?) && !Ambiguous(entries, lvgs)
    ensures AppendAll(entries, lvgs).Ok? ==>
              var acc := AppendAll(entries, lvgs).value;
              Consistent(acc) && forall t :: t in acc.resolved <==> Wanted(entries, lvgs, t)
  {
    if entries != [] {
      var n := |entries| - 1;
      var init, last := entries[..n], entries[n];
      SelectorsResolve(init, lvgs);
      WantedStep(entries, lvgs);
      var before := AppendAll(init, lvgs);
      if before.Ok? {
        if last.selector.value.Selecting? {
          MatchingResolves(before.value, lvgs, last);
          LastEntryConflicts(entries, lvgs, before.value);
        }
      } else if Ambiguous(init, lvgs) {
        var t, u :| Wanted(init, lvgs, t) && Wanted(init, lvgs, u) && t.name == u.name && t.thin != u.thin;
        assert Wanted(entries, lvgs, t) && Wanted(entries, lvgs, u);
      }
    }
  }

  lemma WantedStep(entries: seq<Entry>, lvgs: seq<VolumeGroup>)
    requires entries != []
    ensures var last := entries[|entries| - 1];
            && (forall e :: e in entries <==> e in entries[..|entries| - 1] || e == last)
            && forall t :: Wanted(entries, lvgs, t) <==>
                 || Wanted(entries[..|entries| - 1], lvgs, t)
                 || (t.thin == last.thin && exists l :: l in lvgs && Selects(last, l) && l.name == t.name)
  {
    var init, last := entries[..|entries| - 1], entries[|entries| - 1];
    assert entries == init + [last];
    forall t
      ensures Wanted(entries, lvgs, t) <==>
                Wanted(init, lvgs, t) || (t.thin == last.thin && exists l :: l in lvgs && Selects(last, l) && l.name == t.name)
    {
      if Wanted(entries, lvgs, t) {
        var e, l :| e in entries && l in lvgs && Selects(e, l) && t == Target(l.name, e.thin);
        assert e in init || e == last;
      }
      if Wanted(init, lvgs, t) {
        var e, l :| e in init && l in lvgs && Selects(e, l) && t == Target(l.name, e.thin);
        assert e in entries;
      }
      if t.thin == last.thin && exists l :: l in lvgs && Selects(last, l) && l.name == t.name {
        var l :| l in lvgs && Selects(last, l) && l.name == t.name;
        assert last in entries && t == Target(l.name, last.thin);
      }
    }
  }

  /** The last entry fails exactly when it makes the list ambiguous. */
  lemma LastEntryConflicts(entries: seq<Entry>, lvgs: seq<VolumeGroup>, acc: Acc)
    requires entries != [] && Consistent(acc)
    requires forall t :: t in acc.resolved <==> Wanted(entries[..|entries| - 1], lvgs, t)
    ensures var last := entries[|entries| - 1];
            Ambiguous(entries, lvgs) <==> !forall l :: l in lvgs && Selects(last, l) && l.name in acc.seen ==> acc.seen[l.name] == last.thin
  {
    var init, last := entries[..|entries| - 1], entries[|entries| - 1];
    WantedStep(entries, lvgs);
    if l :| l in lvgs && Selects(last, l) && l.name in acc.seen && acc.seen[l.name] != last.thin {
      var t := Target(l.name, acc.seen[l.name]);
      assert t in acc.resolved && Wanted(entries, lvgs, t) && Wanted(entries, lvgs, Target(l.name, last.thin));
    }
    if Ambiguous(entries, lvgs) {
      var t, u :| Wanted(entries, lvgs, t) && Wanted(entries, lvgs, u) && t.name == u.name && t.thin != u.thin;
      assert !(Wanted(init, lvgs, t) && Wanted(init, lvgs, u));
      if Wanted(init, lvgs, t) {
        var l :| l in lvgs && Selects(last, l) && l.name == u.name;
        assert t in acc.resolved;
      } else {
        var l :| l in lvgs && Selects(last, l) && l.name == t.name;
        assert u in acc.resolved;
      }
    }
  }

  // ------------------------------------------------------------------ the theorems

  /** A list of names fails exactly on a repeated name, and otherwise yields exactly its
      entries, each with its own thin pool, strictly sorted. */
  lemma NamedListResolves(entries: seq<Entry>, lvgs: seq<VolumeGroup>)
    requires AllNames(entries)
    ensures Resolve(entries, lvgs).Ok? <==> DistinctEntryNames(entries)
    ensures Resolve(entries, lvgs).Ok? ==>
              var targets := Resolve(entries, lvgs).value;
              && StrictlySorted(targets) && |targets| == |entries|
              && (forall t :: t in targets <==> exists e :: e in entries && t == Target(e.name, e.thin))
  {
    NamesResolve(entries, lvgs);
    if AppendAll(entries, lvgs).Ok? {
      var resolved := AppendAll(entries, lvgs).value.resolved;
      SortSorts(resolved);
      assert |Sort(resolved)| == |multiset(Sort(resolved))| == |multiset(resolved)|;
      forall t ensures t in resolved <==> exists e :: e in entries && t == Target(e.name, e.thin) {
        if t in resolved {
          var i :| 0 <= i < |resolved| && resolved[i] == t;
          assert entries[i] in entries;
        }
        if e :| e in entries && t == Target(e.name, e.thin) {
          var i :| 0 <= i < |entries| && entries[i] == e;
          assert resolved[i] == t;
        }
      }
    }
  }

  /** A list of selectors fails exactly on a malformed selector or on an LVMVolumeGroup
      selected with two different thin pools, and otherwise yields exactly the selected
      LVMVolumeGroups, each once, strictly sorted. */
  lemma SelectorListResolves(entries: seq<Entry>, lvgs: seq<VolumeGroup>)
    requires AllSelectors(entries)
    ensures Resolve(entries, lvgs).Ok? <==>
              (forall e :: e in entries ==> e.selector.value.Selecting?) && !Ambiguous(entries, lvgs)
    ensures Resolve(entries, lvgs).Ok? ==>
              var targets := Resolve(entries, lvgs).value;
              StrictlySorted(targets) && forall t :: t in targets <==> Wanted(entries, lvgs, t)
  {
    SelectorsResolve(entries, lvgs);
    if AppendAll(entries, lvgs).Ok? {
      SortSorts(AppendAll(entries, lvgs).value.resolved);
    }
  }

  /** Neither the order of the selectors nor that of the LVMVolumeGroups matters, nor how
      often either is repeated. */
  lemma SelectorOrderIsIrrelevant(entries: seq<Entry>, entries': seq<Entry>, lvgs: seq<VolumeGroup>, lvgs': seq<VolumeGroup>)
    requires AllSelectors(entries)
    requires forall e :: e in entries <==> e in entries'
    requires forall l :: l in lvgs <==> l in lvgs'
    ensures Resolve(entries, lvgs) == Resolve(entries', lvgs')
  {
    SelectorListResolves(entries, lvgs);
    SelectorListResolves(entries', lvgs');
    forall t ensures Wanted(entries, lvgs, t) <==> Wanted(entries', lvgs', t) {
    }
    assert Ambiguous(entries, lvgs) <==> Ambiguous(entries', lvgs');
    if Resolve(entries, lvgs).Ok? {
      SortedListingIsUnique(Resolve(entries, lvgs).value, Resolve(entries', lvgs').value);
    }
  }

  /** The order of the names does not matter, and the LVMVolumeGroups not at all. */
  lemma NameOrderIsIrrelevant(entries: seq<Entry>, entries': seq<Entry>, lvgs: seq<VolumeGroup>, lvgs': seq<VolumeGroup>)
    requires AllNames(entries) && multiset(entries) == multiset(entries')
    ensures Resolve(entries, lvgs) == Resolve(entries', lvgs')
  {
    forall e ensures e in entries <==> e in entries' {
      assert e in multiset(entries) <==> e in multiset(entries');
    }
    NamedListResolves(entries, lvgs);
    NamedListResolves(entries', lvgs');
    if DistinctEntryNames(entries) {
      DistinctSurvivesReordering(entries, entries');
    }
    if DistinctEntryNames(entries') {
      DistinctSurvivesReordering(entries', entries);
    }
    if Resolve(entries, lvgs).Ok? {
      SortedListingIsUnique(Resolve(entries, lvgs).value, Resolve(entries', lvgs').value);
    }
  }

  lemma {:induction false} OnceEach(a: seq<Entry>, x: Entry)
    requires DistinctEntryNames(a)
    ensures multiset(a)[x] <= 1
  {
    if a != [] {
      var n := |a| - 1;
      OnceEach(a[..n], x);
      assert a == a[..n] + [a[n]];
      assert x == a[n] ==> x !in a[..n];
    }
  }

  lemma TwiceIn(b: seq<Entry>, i: nat, j: nat)
    requires i < j < |b| && b[i] == b[j]
    ensures multiset(b)[b[i]] >= 2
  {
    assert b == b[..j] + b[j..] && b[..j][i] == b[i] && b[j..][0] == b[j];
    assert multiset(b) == multiset(b[..j]) + multiset(b[j..]);
  }

  lemma DistinctSurvivesReordering(a: seq<Entry>, b: seq<Entry>)
    requires DistinctEntryNames(a) && multiset(a) == multiset(b)
    ensures DistinctEntryNames(b)
  {
    forall i, j | 0 <= i < j < |b| ensures b[i].name != b[j].name {
      OnceEach(a, b[i]);
      if b[i] == b[j] {
        TwiceIn(b, i, j);
      } else {
        assert b[i] in multiset(a) && b[j] in multiset(a);
        var p :| 0 <= p < |a| && a[p] == b[i];
        var q :| 0 <= q < |a| && a[q] == b[j];
      }
    }
  }

  /** What the LVMVolumeGroup watch ignores - any change that keeps the labels - leaves
      the effective list alone. */
  lemma {:induction false} OnlyLabelsMatter(entries: seq<Entry>, lvgs: seq<VolumeGroup>, lvgs': seq<VolumeGroup>)
    requires |lvgs| == |lvgs'| && forall i :: 0 <= i < |lvgs| ==> lvgs[i].name == lvgs'[i].name && lvgs[i].labels == lvgs'[i].labels
    ensures AppendAll(entries, lvgs) == AppendAll(entries, lvgs') && Resolve(entries, lvgs) == Resolve(entries, lvgs')
  {
    if entries != [] {
      var n := |entries| - 1;
      OnlyLabelsMatter(entries[..n], lvgs, lvgs');
      var before := AppendAll(entries[..n], lvgs);
      if before.Ok? && entries[n].selector.Some? && entries[n].selector.value.Selecting? {
        OnlyLabelsMatterToOne(before.value, lvgs, lvgs', entries[n].selector.value.matches, entries[n].thin);
      }
    }
  }

  lemma {:induction false} OnlyLabelsMatterToOne(acc: Acc, lvgs: seq<VolumeGroup>, lvgs': seq<VolumeGroup>,
                                                 matches: Labels -> bool, thin: Option<string>)
    requires |lvgs| == |lvgs'| && forall i :: 0 <= i < |lvgs| ==> lvgs[i].name == lvgs'[i].name && lvgs[i].labels == lvgs'[i].labels
    ensures AppendMatching(acc, lvgs, matches, thin) == AppendMatching(acc, lvgs', matches, thin)
  {
    if lvgs != [] {
      OnlyLabelsMatterToOne(acc, lvgs[..|lvgs| - 1], lvgs'[..|lvgs| - 1], matches, thin);
    }
  }
}
