/**
  Thick volumes over time: Immediate creates and expansions on the LVMVolumeGroups of one
  class, with status as fresh as the node agent's last allocation and an agent that
  allocates exactly the aligned size.
  */
module ThickLedger {
  import opened Wrappers
  import opened LocalStorage
  import opened StorageClasses
  import opened Sizing
  import opened Placement
  import opened Volumes

  /** A volume group on its node: the sizes of its logical volumes, and how much the node
      agent has booked as allocated. */
  datatype Vg = Vg(name: string, node: string, size: int, extent: int, booked: int, lvs: seq<int>)

  function Sum(sizes: seq<int>): int {
    if sizes == [] then 0 else Sum(sizes[..|sizes| - 1]) + sizes[|sizes| - 1]
  }

  /** The LVMVolumeGroup status the node agent keeps. */
  function Report(vg: Vg): VolumeGroup {
    VolumeGroup(vg.name, map[], vg.node, vg.name, [vg.node], [], vg.size, vg.size - vg.booked, vg.booked, vg.extent)
  }

  function Reports(vgs: seq<Vg>): (r: seq<VolumeGroup>)
    ensures |r| == |vgs| && forall i :: 0 <= i < |vgs| ==> r[i] == Report(vgs[i])
  {
    if vgs == [] then [] else Reports(vgs[..|vgs| - 1]) + [Report(vgs[|vgs| - 1])]
  }

  datatype Op = Create(required: int) | Grow(vg: nat, lv: nat, required: int)

  function ThickRequest(required: int): Request {
    Request(true, "volume", true, IMMEDIATE, THICK, Missing, required, None, None, "")
  }

  /** The agent makes a logical volume and books it. */
  function Make(vg: Vg, size: int): Vg {
    vg.(lvs := vg.lvs + [size], booked := vg.booked + size)
  }

  /** The agent resizes one and books the difference. */
  function Resize(vg: Vg, k: nat, size: int): Vg
    requires k < |vg.lvs|
  {
    vg.(lvs := vg.lvs[k := size], booked := vg.booked + (size - vg.lvs[k]))
  }

  function Allocate(vgs: seq<Vg>, name: string, size: int): (r: seq<Vg>)
    ensures |r| == |vgs|
    ensures forall i :: 0 <= i < |vgs| ==> r[i] == if vgs[i].name == name then Make(vgs[i], size) else vgs[i]
  {
    if vgs == [] then []
    else
      var last := vgs[|vgs| - 1];
      Allocate(vgs[..|vgs| - 1], name, size) + [if last.name == name then Make(last, size) else last]
  }

  /** The agent's answer to a resize. */
  function Resized(lvg: VolumeGroup, required: int): seq<Poll> {
    [Polled(false, Some(LlvStatus(CREATED, AlignToLvg(required, lvg))))]
  }

  function Step(vgs: seq<Vg>, op: Op): seq<Vg> {
    match op
    case Create(required) =>
      (match PlanPlain(ThickRequest(required), Reports(vgs), map[])
       case Planned(lvg, _, size) => Allocate(vgs, lvg.name, size)
       case _ => vgs)
    case Grow(i, k, required) =>
      if i >= |vgs| || k >= |vgs[i].lvs| then vgs
      else
        var lvg, llv := Report(vgs[i]), Llv(THICK, vgs[i].lvs[k], Some(LlvStatus(CREATED, vgs[i].lvs[k])));
        match Expand("volume", Some(llv), Some(lvg), required, true, Resized(lvg, required))
        case Expanded(capacity, _) => vgs[i := Resize(vgs[i], k, capacity)]
        case _ => vgs
  }

  function Run(vgs: seq<Vg>, ops: seq<Op>): seq<Vg> {
    if ops == [] then vgs else Step(Run(vgs, ops[..|ops| - 1]), ops[|ops| - 1])
  }

  // -------------------------------------------------------------------- what holds

  /** What is booked is what there is, and it fits. */
  ghost predicate Balanced(vg: Vg) {
    && vg.booked == Sum(vg.lvs) && vg.booked <= vg.size && IsInt64(vg.size) && IsInt64(vg.extent)
    && forall k :: 0 <= k < |vg.lvs| ==> 0 <= vg.lvs[k] && vg.lvs[k] % SafeExtentSize(vg.extent) == 0
  }

  /** Names and nodes are each other's: no name twice, no node in two groups. */
  ghost predicate Apart(vgs: seq<Vg>) {
    forall i, j :: 0 <= i < j < |vgs| ==> vgs[i].name != vgs[j].name && vgs[i].node != vgs[j].node
  }

  ghost predicate Ledger(vgs: seq<Vg>) {
    Apart(vgs) && forall i :: 0 <= i < |vgs| ==> Balanced(vgs[i])
  }

  /** The request does not overflow on any of the extents. */
  ghost predicate Sane(vgs: seq<Vg>, op: Op) {
    forall i :: 0 <= i < |vgs| ==> Alignable(op.required, SafeExtentSize(vgs[i].extent))
  }

  /** Nothing shrinks and nothing but the logical volumes changes. */
  ghost predicate Grows(vg: Vg, vg': Vg) {
    && vg' == vg.(lvs := vg'.lvs, booked := vg'.booked) && |vg.lvs| <= |vg'.lvs|
    && forall k :: 0 <= k < |vg.lvs| ==> vg.lvs[k] <= vg'.lvs[k]
  }

  ghost predicate AllGrow(vgs: seq<Vg>, vgs': seq<Vg>) {
    |vgs'| == |vgs| && forall i :: 0 <= i < |vgs| ==> Grows(vgs[i], vgs'[i])
  }

  lemma SumAppend(sizes: seq<int>, size: int)
    ensures Sum(sizes + [size]) == Sum(sizes) + size
  {
    assert (sizes + [size])[..|sizes|] == sizes;
  }

  lemma {:induction false} SumUpdate(sizes: seq<int>, k: nat, size: int)
    requires k < |sizes|
    ensures Sum(sizes[k := size]) == Sum(sizes) - sizes[k] + size
  {
    var n := |sizes| - 1;
    if k == n {
      assert sizes[k := size][..n] == sizes[..n];
    } else {
      SumUpdate(sizes[..n], k, size);
      assert sizes[k := size][..n] == sizes[..n][k := size];
    }
  }

  lemma {:induction false} PartOfSum(sizes: seq<int>, k: nat)
    requires k < |sizes| && forall j :: 0 <= j < |sizes| ==> sizes[j] >= 0
    ensures sizes[k] <= Sum(sizes)
  {
    var n := |sizes| - 1;
    SumIsNat(sizes[..n]);
    if k < n {
      PartOfSum(sizes[..n], k);
    }
  }

  lemma {:induction false} SumIsNat(sizes: seq<int>)
    requires forall j :: 0 <= j < |sizes| ==> sizes[j] >= 0
    ensures Sum(sizes) >= 0
  {
    if sizes != [] {
      SumIsNat(sizes[..|sizes| - 1]);
    }
  }

  /** The selected group has at least the free space that was compared. */
  lemma ComparedIsSelected(vgs: seq<Vg>)
    requires Ledger(vgs) && NodeWithMaxFreeSpace(Reports(vgs), map[], THICK).Picked?
    ensures var pick := NodeWithMaxFreeSpace(Reports(vgs), map[], THICK);
            var selected := SelectLvg(Reports(vgs), pick.node);
            selected.Some? ==> selected.value in Reports(vgs) && pick.free <= selected.value.vgFree
  {
    var lvgs := Reports(vgs);
    var pick := NodeWithMaxFreeSpace(lvgs, map[], THICK);
    PickIsMaximum(lvgs, map[], THICK);
    SelectedIsIn(lvgs, pick.node);
    var selected := SelectLvg(lvgs, pick.node);
    if pick.free > 0 {
      SelectedHasMostFree(lvgs, map[], THICK);
    } else if selected.Some? {
      var i :| 0 <= i < |lvgs| && lvgs[i] == selected.value;
      assert Balanced(vgs[i]);
    }
  }

  /** A planned create fits the very group it goes to. */
  lemma PlannedFits(vgs: seq<Vg>, required: int)
    requires Ledger(vgs) && Sane(vgs, Create(required)) && PlanPlain(ThickRequest(required), Reports(vgs), map[]).Planned?
    ensures var p := PlanPlain(ThickRequest(required), Reports(vgs), map[]);
            && p.lvg in Reports(vgs) && 0 <= p.size <= p.lvg.vgFree && p.size % SafeExtentSize(p.lvg.extentSize) == 0
  {
    ComparedIsSelected(vgs);
    var lvg := PlanPlain(ThickRequest(required), Reports(vgs), map[]).lvg;
    var i :| 0 <= i < |vgs| && Reports(vgs)[i] == lvg;
    assert Balanced(vgs[i]) && Alignable(required, SafeExtentSize(vgs[i].extent));
    AlignedIsLeastMultiple(required, SafeExtentSize(vgs[i].extent));
  }

  lemma AllocateKeepsLedger(vgs: seq<Vg>, at: nat, size: int)
    requires Ledger(vgs) && at < |vgs| && 0 <= size <= vgs[at].size - vgs[at].booked
    requires size % SafeExtentSize(vgs[at].extent) == 0
    ensures var vgs' := Allocate(vgs, vgs[at].name, size); Ledger(vgs') && AllGrow(vgs, vgs')
  {
    var vgs' := Allocate(vgs, vgs[at].name, size);
    forall i | 0 <= i < |vgs| ensures Balanced(vgs'[i]) && Grows(vgs[i], vgs'[i]) {
      assert Balanced(vgs[i]);
      SumAppend(vgs[i].lvs, size);
      assert vgs[i].name == vgs[at].name ==> i == at;
    }
  }

  lemma CreateKeepsLedger(vgs: seq<Vg>, required: int)
    requires Ledger(vgs) && Sane(vgs, Create(required))
    ensures var vgs' := Step(vgs, Create(required)); Ledger(vgs') && AllGrow(vgs, vgs')
  {
    var p := PlanPlain(ThickRequest(required), Reports(vgs), map[]);
    if p.Planned? {
      PlannedFits(vgs, required);
      var at :| 0 <= at < |vgs| && Reports(vgs)[at] == p.lvg;
      AllocateKeepsLedger(vgs, at, p.size);
    }
  }

  /** A successful expansion fits what is left of the group. */
  lemma ExpandedFits(vg: Vg, k: nat, required: int)
    requires Balanced(vg) && k < |vg.lvs| && Alignable(required, SafeExtentSize(vg.extent))
    ensures var e := Expand("volume", Some(Llv(THICK, vg.lvs[k], Some(LlvStatus(CREATED, vg.lvs[k])))), Some(Report(vg)),
                            required, true, Resized(Report(vg), required));
            e.Expanded? ==>
              && vg.lvs[k] <= e.capacity && e.capacity % SafeExtentSize(vg.extent) == 0
              && e.capacity - vg.lvs[k] <= vg.size - vg.booked
  {
    AlignedIsLeastMultiple(required, SafeExtentSize(vg.extent));
    var aligned := AlignToLvg(required, Report(vg));
    PartOfSum(vg.lvs, k);
    if aligned > vg.lvs[k] {
      Unwrapped(aligned - vg.lvs[k]);
    }
  }

  lemma ReplaceKeepsLedger(vgs: seq<Vg>, i: nat, k: nat, size: int)
    requires Ledger(vgs) && i < |vgs| && k < |vgs[i].lvs|
    requires vgs[i].lvs[k] <= size && size % SafeExtentSize(vgs[i].extent) == 0 && size - vgs[i].lvs[k] <= vgs[i].size - vgs[i].booked
    ensures var vgs' := vgs[i := Resize(vgs[i], k, size)]; Ledger(vgs') && AllGrow(vgs, vgs')
  {
    SumUpdate(vgs[i].lvs, k, size);
    var vgs' := vgs[i := Resize(vgs[i], k, size)];
    assert Balanced(vgs[i]);
    assert Balanced(vgs'[i]) && Grows(vgs[i], vgs'[i]);
  }

  lemma GrowKeepsLedger(vgs: seq<Vg>, i: nat, k: nat, required: int)
    requires Ledger(vgs) && Sane(vgs, Grow(i, k, required))
    ensures var vgs' := Step(vgs, Grow(i, k, required)); Ledger(vgs') && AllGrow(vgs, vgs')
  {
    if i < |vgs| && k < |vgs[i].lvs| {
      var vg, lvg := vgs[i], Report(vgs[i]);
      assert Balanced(vg) && Alignable(required, SafeExtentSize(vg.extent));
      ExpandedFits(vg, k, required);
      var e := Expand("volume", Some(Llv(THICK, vg.lvs[k], Some(LlvStatus(CREATED, vg.lvs[k])))), Some(lvg),
                      required, true, Resized(lvg, required));
      if e.Expanded? {
        ReplaceKeepsLedger(vgs, i, k, e.capacity);
      }
    }
  }

  lemma {:induction false} SaneStays(vgs: seq<Vg>, vgs': seq<Vg>, op: Op)
    requires AllGrow(vgs, vgs') && Sane(vgs, op)
    ensures Sane(vgs', op)
  {
    forall i | 0 <= i < |vgs'| ensures Alignable(op.required, SafeExtentSize(vgs'[i].extent)) {
      assert Grows(vgs[i], vgs'[i]);
    }
  }

  /** Over any sequence of creates and expansions the logical volumes of a group sum to
      what its status reports as allocated, never exceed it, are all whole numbers of
      extents, and never shrink. */
  lemma {:induction false} LedgerHolds(vgs: seq<Vg>, ops: seq<Op>)
    requires Ledger(vgs) && forall op :: op in ops ==> Sane(vgs, op)
    ensures Ledger(Run(vgs, ops)) && AllGrow(vgs, Run(vgs, ops))
  {
    if ops != [] {
      var init, last := ops[..|ops| - 1], ops[|ops| - 1];
      LedgerHolds(vgs, init);
      var before := Run(vgs, init);
      SaneStays(vgs, before, last);
      match last {
        case Create(required) => CreateKeepsLedger(before, required);
        case Grow(i, k, required) => GrowKeepsLedger(before, i, k, required);
      }
      var after := Run(vgs, ops);
      forall i | 0 <= i < |vgs| ensures Grows(vgs[i], after[i]) {
        assert Grows(vgs[i], before[i]) && Grows(before[i], after[i]);
      }
    }
  }
}
