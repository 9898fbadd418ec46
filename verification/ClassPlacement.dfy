/**
  What placement looks at - the class's LVMVolumeGroups in their order, their pools and free
  space, the three selections - and what a class the controller found valid guarantees it.
  */
module ClassPlacement {
  import opened Wrappers
  import opened Names
  import opened LocalStorage
  import opened StorageClasses
  import opened Validation
  import opened Placement

  // ------------------------------------------------------------ groups and selections

  /** The class's LVMVolumeGroups are those of the list that it names. */
  lemma {:induction false} ClassLvgsAreNamed(lvgs: seq<VolumeGroup>, names: set<string>)
    ensures forall l :: l in ClassLvgs(lvgs, names) <==> l in lvgs && l.name in names
  {
    if lvgs != [] {
      var init, last := lvgs[..|lvgs| - 1], lvgs[|lvgs| - 1];
      ClassLvgsAreNamed(init, names);
      assert lvgs == init + [last];
    }
  }

  /** Two lists one after the other give their groups one after the other. */
  lemma {:induction false} ClassLvgsInOrder(a: seq<VolumeGroup>, b: seq<VolumeGroup>, names: set<string>)
    ensures ClassLvgs(a + b, names) == ClassLvgs(a, names) + ClassLvgs(b, names)
  {
    if b == [] {
      assert a + b == a;
    } else {
      var init, last := b[..|b| - 1], b[|b| - 1];
      ClassLvgsInOrder(a, init, names);
      var whole := a + b;
      assert whole[..|whole| - 1] == a + init && whole[|whole| - 1] == last;
      var end := if last.name in names then [last] else [];
      assert ClassLvgs(whole, names) == ClassLvgs(a + init, names) + end;
      assert (ClassLvgs(a, names) + ClassLvgs(init, names)) + end == ClassLvgs(a, names) + (ClassLvgs(init, names) + end);
    }
  }

  lemma OneLvg(l: VolumeGroup, names: set<string>)
    ensures ClassLvgs([l], names) == if l.name in names then [l] else []
  {
    assert [l][..0] == [];
  }

  /** l is the first of the list for which `ok` holds. */
  ghost predicate FirstSuch(lvgs: seq<VolumeGroup>, l: VolumeGroup, ok: VolumeGroup -> bool) {
    exists i :: 0 <= i < |lvgs| && lvgs[i] == l && ok(l) && forall j :: 0 <= j < i ==> !ok(lvgs[j])
  }

  lemma FirstSuchLater(lvgs: seq<VolumeGroup>, l: VolumeGroup, ok: VolumeGroup -> bool)
    requires lvgs != [] && !ok(lvgs[0])
    ensures FirstSuch(lvgs, l, ok) <==> FirstSuch(lvgs[1..], l, ok)
  {
    var tail := lvgs[1..];
    if FirstSuch(lvgs, l, ok) {
      var i :| 0 <= i < |lvgs| && lvgs[i] == l && ok(l) && forall j :: 0 <= j < i ==> !ok(lvgs[j]);
      assert tail[i - 1] == l && forall j :: 0 <= j < i - 1 ==> !ok(tail[j]);
    }
    if FirstSuch(tail, l, ok) {
      var i :| 0 <= i < |tail| && tail[i] == l && ok(l) && forall j :: 0 <= j < i ==> !ok(tail[j]);
      assert lvgs[i + 1] == l && forall j :: 0 <= j < i + 1 ==> j > 0 ==> lvgs[j] == tail[j - 1];
    }
  }

  /** The three selections: by first node, by name, by node and name on the node. */
  lemma {:induction false} SelectionsAreFirst(lvgs: seq<VolumeGroup>, node: string, name: string, l: VolumeGroup)
    ensures SelectLvg(lvgs, node) == Some(l) <==> FirstSuch(lvgs, l, (x: VolumeGroup) => x.nodes != [] && x.nodes[0] == node)
    ensures SelectLvgByName(lvgs, name) == Some(l) <==> FirstSuch(lvgs, l, (x: VolumeGroup) => x.name == name)
    ensures SelectLvgByActualName(lvgs, node, name) == Some(l) <==>
              FirstSuch(lvgs, l, (x: VolumeGroup) => x.nodeName == node && x.actualVgName == name)
  {
    var a, b, c := (x: VolumeGroup) => x.nodes != [] && x.nodes[0] == node, (x: VolumeGroup) => x.name == name,
                   (x: VolumeGroup) => x.nodeName == node && x.actualVgName == name;
    if lvgs != [] {
      SelectionsAreFirst(lvgs[1..], node, name, l);
      assert forall ok: VolumeGroup -> bool :: ok(lvgs[0]) ==> (FirstSuch(lvgs, l, ok) <==> l == lvgs[0]);
      if !a(lvgs[0]) { FirstSuchLater(lvgs, l, a); }
      if !b(lvgs[0]) { FirstSuchLater(lvgs, l, b); }
      if !c(lvgs[0]) { FirstSuchLater(lvgs, l, c); }
    }
  }
  lemma {:induction false} PickFailure(lvgs: seq<VolumeGroup>, pools: map<string, string>, lvmType: string)
    ensures var pick := NodeWithMaxFreeSpace(lvgs, pools, lvmType);
            && (pick == NoPick ==> exists l :: l in lvgs && FreeSpace(l, pools, lvmType).Fail?)
            && (pick == Panic ==> exists l :: l in lvgs && l.nodes == [] && FreeSpace(l, pools, lvmType).Ok?
                                              && FreeSpace(l, pools, lvmType).value > 0)
  {
    if lvgs != [] {
      var init, last := lvgs[..|lvgs| - 1], lvgs[|lvgs| - 1];
      PickFailure(init, pools, lvmType);
      assert forall l :: l in lvgs <==> l in init || l == last by {
        assert lvgs == init + [last];
      }
      if NodeWithMaxFreeSpace(init, pools, lvmType).Picked? {
        PickIsMaximum(init, pools, lvmType);
      }
    }
  }

  // ------------------------------------------------------------------------ the pools

  ghost predicate LastNamed(targets: seq<Target>, name: string, i: nat) {
    i < |targets| && targets[i].name == name && forall j :: i < j < |targets| ==> targets[j].name != name
  }

  /** Each name has the pool its last entry gives it, none meaning the empty name. */
  lemma {:induction false} PoolsAreExact(targets: seq<Target>, name: string)
    ensures name in PoolsOf(targets) <==> exists i: nat :: LastNamed(targets, name, i)
    ensures forall i: nat :: LastNamed(targets, name, i) ==>
              PoolsOf(targets)[name] == match targets[i].thin case Some(pool) => pool case None => ""
  {
    if targets != [] {
      var n := |targets| - 1;
      PoolsAreExact(targets[..n], name);
      if targets[n].name == name {
        assert LastNamed(targets, name, n);
      } else {
        forall i: nat ensures LastNamed(targets, name, i) <==> LastNamed(targets[..n], name, i) && targets[i] == targets[..n][i] {
          assert i < n ==> targets[..n][i] == targets[i];
          if LastNamed(targets[..n], name, i) {
            assert forall j :: i < j < n ==> targets[..n][j] == targets[j];
          }
        }
      }
    }
  }
  // -------------------------------------------------------------------- free space

  ghost predicate FirstPool(pools: seq<ThinPool>, name: string, i: nat) {
    i < |pools| && pools[i].name == name && forall j :: 0 <= j < i ==> pools[j].name != name
  }

  lemma {:induction false} PoolFreeSpaceIsFirst(pools: seq<ThinPool>, name: string, free: int)
    ensures PoolFreeSpace(pools, name) == Ok(free) <==> exists i: nat :: FirstPool(pools, name, i) && pools[i].available == free
    ensures PoolFreeSpace(pools, name).Ok? <==> exists p :: p in pools && p.name == name
  {
    if pools != [] {
      var tail := pools[1..];
      PoolFreeSpaceIsFirst(tail, name, free);
      assert forall p :: p in pools <==> p == pools[0] || p in tail by {
        assert pools == [pools[0]] + tail;
      }
      if pools[0].name == name {
        assert FirstPool(pools, name, 0);
      } else {
        forall i: nat ensures FirstPool(tail, name, i) <==> FirstPool(pools, name, i + 1) {
          assert i < |tail| ==> tail[i] == pools[i + 1] && forall j :: 0 <= j < i ==> tail[j] == pools[j + 1];
          assert i < |tail| ==> forall j :: 0 < j < i + 1 ==> pools[j] == tail[j - 1];
        }
        assert forall i: nat :: FirstPool(pools, name, i) ==> i > 0 && FirstPool(tail, name, i - 1);
        assert forall i: nat :: i < |tail| ==> tail[i] == pools[i + 1];
      }
    }
  }

  /** A thick volume draws on the group, a thin one on the first pool of the name the class
      gives for the group - it fails if there is none - and any other type on nothing. */
  lemma FreeSpaceIsExact(l: VolumeGroup, pools: map<string, string>, lvmType: string, free: int)
    ensures lvmType == "Thick" ==> FreeSpace(l, pools, lvmType) == Ok(l.vgFree)
    ensures lvmType == "Thin" ==>
              (FreeSpace(l, pools, lvmType) == Ok(free) <==>
                 l.name in pools && exists i: nat :: FirstPool(l.thinPools, pools[l.name], i) && l.thinPools[i].available == free)
    ensures lvmType != "Thick" && lvmType != "Thin" ==> FreeSpace(l, pools, lvmType) == Ok(0)
  {
    if l.name in pools {
      PoolFreeSpaceIsFirst(l.thinPools, pools[l.name], free);
    }
  }

  // ---------------------------------------------------- what a valid class is good for

  ghost predicate EachNamedOnce(lvgs: seq<VolumeGroup>) {
    forall i, j :: 0 <= i < j < |lvgs| ==> lvgs[i].name != lvgs[j].name
  }

  lemma {:induction false} LvgsByNameIsListed(lvgs: seq<VolumeGroup>)
    ensures forall n :: n in LvgsByName(lvgs) ==> LvgsByName(lvgs)[n] in lvgs && LvgsByName(lvgs)[n].name == n
    ensures forall l :: l in lvgs ==> l.name in LvgsByName(lvgs)
    ensures EachNamedOnce(lvgs) ==> forall l :: l in lvgs ==> LvgsByName(lvgs)[l.name] == l
  {
    if lvgs != [] {
      var init, last := lvgs[..|lvgs| - 1], lvgs[|lvgs| - 1];
      LvgsByNameIsListed(init);
      assert forall l :: l in lvgs <==> l in init || l == last by {
        assert lvgs == init + [last];
      }
    }
  }

  /** Every entry of a valid class has exactly one of a name and a selector, and a pool exactly
      if the class is Thin. */
  lemma ValidEntriesAreWellFormed(scs: seq<StorageClass>, lsc: LocalStorageClass, lvgs: seq<VolumeGroup>, targets: seq<Target>)
    requires IsValid(scs, lsc, lvgs, targets)
    ensures forall e :: e in lsc.lvm.value.entries ==>
              && (e.name == "" <==> e.selector.Some?)
              && (if lsc.lvm.value.lvmType == "Thin" then e.thin.Some? && e.thin.value != "" else e.thin == None)
  {
  }

  /** Each of a valid class's targets is an LVMVolumeGroup placement will find. */
  lemma ValidTargetsAreThere(scs: seq<StorageClass>, lsc: LocalStorageClass, lvgs: seq<VolumeGroup>, targets: seq<Target>, t: Target)
    requires IsValid(scs, lsc, lvgs, targets) && t in targets
    ensures exists l :: l in ClassLvgs(lvgs, PoolsOf(targets).Keys) && l.name == t.name
  {
    PoolsAreNamed(targets);
    ClassLvgsAreNamed(lvgs, PoolsOf(targets).Keys);
    var l :| l in lvgs && l.name == t.name;
    assert t.name in TargetNames(targets);
  }

  /** Placement across components: over a valid class whose groups all report a node, picking
      one does not fail; the pools it looks up are there. */
  lemma ValidClassCanBePicked(scs: seq<StorageClass>, lsc: LocalStorageClass, lvgs: seq<VolumeGroup>, targets: seq<Target>)
    requires IsValid(scs, lsc, lvgs, targets) && EachNamedOnce(lvgs) && DistinctNames(targets)
    requires forall l :: l in lvgs ==> l.nodes != []
    ensures NodeWithMaxFreeSpace(ClassLvgs(lvgs, PoolsOf(targets).Keys), PoolsOf(targets), lsc.lvm.value.lvmType).Picked?
  {
    var pools, lvmType := PoolsOf(targets), lsc.lvm.value.lvmType;
    var classLvgs := ClassLvgs(lvgs, pools.Keys);
    ClassLvgsAreNamed(lvgs, pools.Keys);
    forall l | l in classLvgs ensures FreeSpace(l, pools, lvmType).Ok? {
      if lvmType == "Thin" {
        ValidPoolIsThere(lvgs, targets, l);
      }
    }
    PickSucceeds(classLvgs, pools, lvmType);
  }

  lemma ValidPoolIsThere(lvgs: seq<VolumeGroup>, targets: seq<Target>, l: VolumeGroup)
    requires PoolsFit(lvgs, targets, "Thin") && EachNamedOnce(lvgs) && DistinctNames(targets)
    requires l in lvgs && l.name in PoolsOf(targets)
    ensures FreeSpace(l, PoolsOf(targets), "Thin").Ok?
  {
    PoolsAreExact(targets, l.name);
    var i: nat :| LastNamed(targets, l.name, i);
    assert targets[i] in targets && HasPool(LvgsByName(lvgs), targets[i]);
    LvgsByNameIsListed(lvgs);
    PoolFreeSpaceIsFirst(l.thinPools, PoolsOf(targets)[l.name], 0);
  }
  // ------------------------------------------------------------------ shared nodes

  /** Where in the class's groups the node is reported: group and position. */
  function Reported(lvgs: seq<VolumeGroup>, names: set<string>, node: string): set<(int, int)> {
    set i, k | 0 <= i < |lvgs| && 0 <= k < |lvgs[i].nodes| && lvgs[i].name in names && lvgs[i].nodes[k] == node :: (i, k)
  }

  function PlacesIn(nodes: seq<string>, node: string): set<int> {
    set k | 0 <= k < |nodes| && nodes[k] == node
  }

  lemma {:induction false} ReportsAreCounted(nodes: seq<string>, lvg: string, node: string)
    ensures |Validation.Reports(nodes, lvg, node)| == |PlacesIn(nodes, node)|
  {
    if nodes != [] {
      var n := |nodes| - 1;
      ReportsAreCounted(nodes[..n], lvg, node);
      assert PlacesIn(nodes, node) == PlacesIn(nodes[..n], node) + if nodes[n] == node then {n} else {};
    }
  }

  function Pairs<T>(i: int, places: set<T>): set<(int, T)> {
    set k | k in places :: (i, k)
  }

  lemma PairsAreAsMany<T>(i: int, places: set<T>)
    ensures |Pairs(i, places)| == |places|
  {
    if places == {} {
      assert Pairs(i, places) == {};
    } else {
      var k :| k in places;
      PairsAreAsMany(i, places - {k});
      assert Pairs(i, places) == Pairs(i, places - {k}) + {(i, k)};
    }
  }

  lemma ReportedStep(lvgs: seq<VolumeGroup>, names: set<string>, node: string)
    requires lvgs != []
    ensures var n := |lvgs| - 1;
            var own := if lvgs[n].name in names then Pairs(n, PlacesIn(lvgs[n].nodes, node)) else {};
            Reported(lvgs, names, node) == Reported(lvgs[..n], names, node) + own && Reported(lvgs[..n], names, node) !! own
  {
    var n := |lvgs| - 1;
    var own := if lvgs[n].name in names then Pairs(n, PlacesIn(lvgs[n].nodes, node)) else {};
    var before, after := Reported(lvgs[..n], names, node), Reported(lvgs, names, node);
    forall i, k ensures (i, k) in after <==> (i, k) in before || (i, k) in own {
      assert 0 <= i < n ==> lvgs[..n][i] == lvgs[i];
    }
  }

  lemma {:induction false} UsersAreCounted(lvgs: seq<VolumeGroup>, names: set<string>, node: string)
    ensures |UsersOf(lvgs, names, node)| == |Reported(lvgs, names, node)|
  {
    if lvgs == [] {
      assert Reported(lvgs, names, node) == {};
    } else {
      var n := |lvgs| - 1;
      UsersAreCounted(lvgs[..n], names, node);
      ReportsAreCounted(lvgs[n].nodes, lvgs[n].name, node);
      PairsAreAsMany(n, PlacesIn(lvgs[n].nodes, node));
      ReportedStep(lvgs, names, node);
    }
  }

  /** A class shares a node exactly if some node is reported at two places of its groups. */
  lemma SharesNodeExactly(lvgs: seq<VolumeGroup>, targets: seq<Target>)
    ensures SharesNode(lvgs, targets) <==>
              exists node, x, y :: x != y && x in Reported(lvgs, TargetNames(targets), node) && y in Reported(lvgs, TargetNames(targets), node)
  {
    var names := TargetNames(targets);
    if node :| |UsersOf(lvgs, names, node)| > 1 {
      UsersAreCounted(lvgs, names, node);
      var all := Reported(lvgs, names, node);
      var x :| x in all;
      assert |all - {x}| > 0;
      var y :| y in all - {x};
      assert x != y && x in all && y in all;
    }
    if node, x, y :| x != y && x in Reported(lvgs, names, node) && y in Reported(lvgs, names, node) {
      UsersAreCounted(lvgs, names, node);
      var all := Reported(lvgs, names, node);
      assert {x, y} <= all;
      SubsetIsSmaller({x, y}, all);
    }
  }

  lemma SubsetIsSmaller<T>(a: set<T>, b: set<T>)
    requires a <= b
    ensures |a| <= |b|
  {
    assert b == a + (b - a);
  }
}
