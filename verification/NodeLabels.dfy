/**
  The three labels the node watcher keeps on nodes, LVMVolumeGroups and
  LocalStorageClasses, as functions of one state, and the fixpoint one pass reaches.
  Every API call succeeds and nobody else writes.
  */
module NodeLabels {
  import opened LocalStorage

  const NODE_LABEL: string := "storage.deckhouse.io/sds-local-volume-node"
  const EVICTION_LABEL: string := "storage.deckhouse.io/sds-local-volume-need-manual-eviction"
  const CANDIDATE_LABEL: string := "storage.deckhouse.io/sds-local-volume-candidate-for-eviction"

  /** An LVMVolumeGroup: its labels and the nodes its status reports. */
  datatype Group = Group(labels: Labels, nodes: seq<string>)
  /** A LocalStorageClass: its labels and the names in spec.lvm.lvmVolumeGroups. */
  datatype Class = Class(labels: Labels, lvgs: seq<string>)

  /** `updates` counts the writes. */
  datatype Fleet = Fleet(nodes: map<string, Labels>, groups: map<string, Group>, classes: map<string, Class>, updates: nat)

  predicate Matches(selector: Labels, labels: Labels) {
    forall key :: key in selector ==> key in labels && labels[key] == selector[key]
  }

  predicate Selected(s: Fleet, selector: Labels, node: string)
    requires node in s.nodes
  {
    Matches(selector, s.nodes[node])
  }

  // ------------------------------------------------------------------ one node's turn

  function LabelNode(s: Fleet, node: string): Fleet
    requires node in s.nodes
  {
    if NODE_LABEL in s.nodes[node] then s
    else s.(nodes := s.nodes[node := s.nodes[node][NODE_LABEL := ""]], updates := s.updates + 1)
  }

  function ClearEviction(s: Fleet, node: string): Fleet
    requires node in s.nodes
  {
    if EVICTION_LABEL !in s.nodes[node] then s
    else s.(nodes := s.nodes[node := s.nodes[node] - {EVICTION_LABEL}], updates := s.updates + 1)
  }

  predicate On(s: Fleet, group: string, node: string) {
    group in s.groups && node in s.groups[group].nodes
  }

  predicate IsCandidate(s: Fleet, group: string) {
    group in s.groups && CANDIDATE_LABEL in s.groups[group].labels
  }

  /** The LVMVolumeGroups that report the node. */
  function Used(s: Fleet, node: string): set<string> {
    set g | g in s.groups && On(s, g, node)
  }

  /** Those of `groups` with the candidate label lose it. */
  function ClearGroups(s: Fleet, groups: set<string>): Fleet {
    s.(groups := map g | g in s.groups ::
         if g in groups && IsCandidate(s, g) then s.groups[g].(labels := s.groups[g].labels - {CANDIDATE_LABEL}) else s.groups[g],
       updates := s.updates + |set g | g in groups && IsCandidate(s, g)|)
  }

  predicate NamesCandidate(s: Fleet, lsc: Class) {
    exists g :: g in lsc.lvgs && IsCandidate(s, g)
  }

  predicate IsMarked(s: Fleet, name: string) {
    name in s.classes && CANDIDATE_LABEL in s.classes[name].labels
  }

  /** Labelled, although none of its LVMVolumeGroups is any more. */
  predicate Recovered(s: Fleet, name: string) {
    IsMarked(s, name) && !NamesCandidate(s, s.classes[name])
  }

  /** Those of `classes` that have recovered lose the candidate label. */
  function ClearClasses(s: Fleet, classes: set<string>): Fleet {
    s.(classes := map c | c in s.classes ::
         if c in classes && Recovered(s, c) then s.classes[c].(labels := s.classes[c].labels - {CANDIDATE_LABEL}) else s.classes[c],
       updates := s.updates + |set c | c in classes && Recovered(s, c)|)
  }

  /** A node the selector matches: no eviction label on it, no candidate label on its
      LVMVolumeGroups, and LocalStorageClasses released where that left none. */
  function ClearNode(s: Fleet, node: string): Fleet
    requires node in s.nodes
  {
    var s1 := ClearEviction(s, node);
    var s2 := ClearGroups(s1, Used(s1, node));
    ClearClasses(s2, s2.classes.Keys)
  }

  predicate NamesOn(s: Fleet, lsc: Class, node: string) {
    exists g :: g in lsc.lvgs && On(s, g, node)
  }

  function UnhealthyClasses(s: Fleet, node: string): set<string> {
    set c | c in s.classes && NamesOn(s, s.classes[c], node)
  }

  predicate IsNamed(s: Fleet, group: string) {
    exists c :: c in s.classes && group in s.classes[c].lvgs
  }

  function UnhealthyGroups(s: Fleet, node: string): set<string> {
    set g | g in s.groups && On(s, g, node) && (IsNamed(s, g) || IsCandidate(s, g))
  }

  function ReleaseNode(s: Fleet, node: string): Fleet
    requires node in s.nodes
  {
    s.(nodes := s.nodes[node := s.nodes[node] - {NODE_LABEL} - {EVICTION_LABEL}], updates := s.updates + 1)
  }

  function EvictNode(s: Fleet, node: string): Fleet
    requires node in s.nodes
  {
    if EVICTION_LABEL in s.nodes[node] then s
    else s.(nodes := s.nodes[node := s.nodes[node][EVICTION_LABEL := ""]], updates := s.updates + 1)
  }

  /** Those of `groups` without the candidate label get it. */
  function MarkGroups(s: Fleet, groups: set<string>): Fleet {
    s.(groups := map g | g in s.groups ::
         if g in groups && !IsCandidate(s, g) then s.groups[g].(labels := s.groups[g].labels[CANDIDATE_LABEL := ""]) else s.groups[g],
       updates := s.updates + |set g | g in groups && !IsCandidate(s, g)|)
  }

  function MarkClasses(s: Fleet, classes: set<string>): Fleet {
    s.(classes := map c | c in s.classes ::
         if c in classes && !IsMarked(s, c) then s.classes[c].(labels := s.classes[c].labels[CANDIDATE_LABEL := ""]) else s.classes[c],
       updates := s.updates + |set c | c in classes && !IsMarked(s, c)|)
  }

  /** A node the selector no longer matches: released if nothing depends on it, else
      marked, with everything that depends on it. */
  function DrainNode(s: Fleet, node: string): Fleet
    requires node in s.nodes
  {
    if NODE_LABEL !in s.nodes[node] then s
    else
      var groups, classes := UnhealthyGroups(s, node), UnhealthyClasses(s, node);
      if groups == {} && classes == {} then ReleaseNode(s, node)
      else MarkClasses(MarkGroups(EvictNode(s, node), groups), classes)
  }

  function Visit(s: Fleet, selector: Labels, node: string): (r: Fleet)
    requires node in s.nodes
    ensures r.nodes.Keys == s.nodes.Keys
  {
    if Selected(s, selector, node) then ClearNode(s, node) else DrainNode(s, node)
  }

  // ------------------------------------------------------------------------ the pass

  function LabelAll(s: Fleet, selector: Labels, order: seq<string>): Fleet
    requires forall n :: n in order ==> n in s.nodes
    ensures LabelAll(s, selector, order).nodes.Keys == s.nodes.Keys
  {
    if order == [] then s
    else
      var before := LabelAll(s, selector, order[..|order| - 1]);
      var last := order[|order| - 1];
      if Selected(before, selector, last) then LabelNode(before, last) else before
  }

  function VisitAll(s: Fleet, selector: Labels, order: seq<string>): Fleet
    requires forall n :: n in order ==> n in s.nodes
    ensures VisitAll(s, selector, order).nodes.Keys == s.nodes.Keys
  {
    if order == [] then s else Visit(VisitAll(s, selector, order[..|order| - 1]), selector, order[|order| - 1])
  }

  /** `first` and `second` are the orders of the two node lists. */
  function Pass(s: Fleet, selector: Labels, first: seq<string>, second: seq<string>): Fleet
    requires forall n :: n in first ==> n in s.nodes
    requires forall n :: n in second ==> n in s.nodes
  {
    VisitAll(LabelAll(s, selector, first), selector, second)
  }

  // -------------------------------------------------------------------- the fixpoint

  /** An LVMVolumeGroup both on a selected node and on one the selector has dropped but
      that still carries the label. */
  predicate Straddles(s: Fleet, selector: Labels, g: string, kept: string, dropped: string) {
    && kept in s.nodes && dropped in s.nodes && On(s, g, kept) && On(s, g, dropped)
    && Selected(s, selector, kept) && !Selected(s, selector, dropped) && NODE_LABEL in s.nodes[dropped]
  }

  /** No such LVMVolumeGroup is wanted on the dropped node. */
  ghost predicate Undisputed(s: Fleet, selector: Labels) {
    forall g, kept, dropped :: Straddles(s, selector, g, kept, dropped) ==> !IsNamed(s, g) && !IsCandidate(s, g)
  }

  /** Some such LVMVolumeGroup is named by a LocalStorageClass. */
  ghost predicate Contested(s: Fleet, selector: Labels) {
    exists g, kept, dropped :: Straddles(s, selector, g, kept, dropped) && IsNamed(s, g)
  }

  predicate AvoidsOwnLabels(selector: Labels) {
    NODE_LABEL !in selector && EVICTION_LABEL !in selector
  }

  ghost predicate Lists(order: seq<string>, s: Fleet) {
    forall n :: n in order <==> n in s.nodes
  }

  /** Every labelled LocalStorageClass names a labelled LVMVolumeGroup. */
  ghost predicate Justified(s: Fleet) {
    forall c :: IsMarked(s, c) ==> NamesCandidate(s, s.classes[c])
  }

  /** Nothing is left to do for this node, as far as its own resources go. */
  ghost predicate Fixed(s: Fleet, selector: Labels, node: string)
    requires node in s.nodes
  {
    if Selected(s, selector, node) then
      && NODE_LABEL in s.nodes[node] && EVICTION_LABEL !in s.nodes[node]
      && forall g :: On(s, g, node) ==> !IsCandidate(s, g)
    else
      NODE_LABEL in s.nodes[node] ==>
        && EVICTION_LABEL in s.nodes[node]
        && UnhealthyGroups(s, node) != {}
        && (forall g :: g in UnhealthyGroups(s, node) ==> IsCandidate(s, g))
        && (forall c :: c in UnhealthyClasses(s, node) ==> IsMarked(s, c))
  }

  /** Labels aside, and on nodes the selector cannot see, s' is s. */
  ghost predicate SameShape(s: Fleet, s': Fleet, selector: Labels) {
    && s'.nodes.Keys == s.nodes.Keys && s'.groups.Keys == s.groups.Keys && s'.classes.Keys == s.classes.Keys
    && (forall n :: n in s.nodes ==> (Selected(s, selector, n) <==> Selected(s', selector, n)))
    && (forall g :: g in s.groups ==> s'.groups[g].nodes == s.groups[g].nodes)
    && (forall c :: c in s.classes ==> s'.classes[c].lvgs == s.classes[c].lvgs)
  }

  /** A selector matches exactly if each of its labels is there with its value. */
  lemma MatchesExactly(selector: Labels, labels: Labels)
    ensures Matches(selector, labels) <==> selector.Items <= labels.Items
  {
    if Matches(selector, labels) {
      forall item | item in selector.Items ensures item in labels.Items {
        assert item.0 in selector && selector[item.0] == item.1;
      }
    }
    if selector.Items <= labels.Items {
      forall key | key in selector ensures key in labels && labels[key] == selector[key] {
        assert (key, selector[key]) in selector.Items;
      }
    }
  }

  lemma ClearNodeEffect(s: Fleet, selector: Labels, node: string)
    requires node in s.nodes && AvoidsOwnLabels(selector)
    ensures var s' := ClearNode(s, node);
            && SameShape(s, s', selector)
            && (forall g :: IsCandidate(s', g) <==> IsCandidate(s, g) && !On(s, g, node))
            && (forall c :: IsMarked(s', c) <==> IsMarked(s, c) && NamesCandidate(s', s'.classes[c]))
            && (forall n :: n in s.nodes && n != node ==> s'.nodes[n] == s.nodes[n])
            && (forall key :: key in s'.nodes[node] <==> key in s.nodes[node] && key != EVICTION_LABEL)
  {
    var s1 := ClearEviction(s, node);
    ClearEffect(s1, Used(s1, node));
    RelabelledNode(s, s1, selector, node);
    NodesDecide(s1, ClearNode(s, node), selector);
  }

  lemma ClearEffect(s: Fleet, groups: set<string>)
    ensures var s2 := ClearGroups(s, groups);
            var s' := ClearClasses(s2, s2.classes.Keys);
            && s'.nodes == s.nodes && s'.groups.Keys == s.groups.Keys && s'.classes.Keys == s.classes.Keys
            && (forall g :: g in s.groups ==> s'.groups[g].nodes == s.groups[g].nodes)
            && (forall c :: c in s.classes ==> s'.classes[c].lvgs == s.classes[c].lvgs)
            && (forall g :: IsCandidate(s', g) <==> IsCandidate(s, g) && g !in groups)
            && (forall c :: IsMarked(s', c) <==> IsMarked(s, c) && NamesCandidate(s', s'.classes[c]))
  {
    ClearGroupsEffect(s, groups);
    ClearClassesEffect(ClearGroups(s, groups));
  }

  lemma ClearGroupsEffect(s: Fleet, groups: set<string>)
    ensures var s' := ClearGroups(s, groups);
            && s'.groups.Keys == s.groups.Keys && s'.nodes == s.nodes && s'.classes == s.classes
            && (forall g :: g in s.groups ==> s'.groups[g].nodes == s.groups[g].nodes)
            && (forall g :: IsCandidate(s', g) <==> IsCandidate(s, g) && g !in groups)
  {
  }

  lemma ClearClassesEffect(s: Fleet)
    ensures var s' := ClearClasses(s, s.classes.Keys);
            && s'.classes.Keys == s.classes.Keys && s'.nodes == s.nodes && s'.groups == s.groups
            && (forall c :: c in s.classes ==> s'.classes[c].lvgs == s.classes[c].lvgs)
            && (forall c :: IsMarked(s', c) <==> IsMarked(s, c) && NamesCandidate(s', s'.classes[c]))
  {
    var s' := ClearClasses(s, s.classes.Keys);
    forall c | c in s.classes ensures NamesCandidate(s, s.classes[c]) <==> NamesCandidate(s', s'.classes[c]) {
      assert forall g :: IsCandidate(s', g) <==> IsCandidate(s, g);
    }
  }

  lemma MarkGroupsEffect(s: Fleet, groups: set<string>)
    requires groups <= s.groups.Keys
    ensures var s' := MarkGroups(s, groups);
            && s'.groups.Keys == s.groups.Keys && s'.nodes == s.nodes && s'.classes == s.classes
            && (forall g :: g in s.groups ==> s'.groups[g].nodes == s.groups[g].nodes)
            && (forall g :: IsCandidate(s', g) <==> IsCandidate(s, g) || g in groups)
  {
  }

  lemma MarkClassesEffect(s: Fleet, classes: set<string>)
    requires classes <= s.classes.Keys
    ensures var s' := MarkClasses(s, classes);
            && s'.classes.Keys == s.classes.Keys && s'.nodes == s.nodes && s'.groups == s.groups
            && (forall c :: c in s.classes ==> s'.classes[c].lvgs == s.classes[c].lvgs)
            && (forall c :: IsMarked(s', c) <==> IsMarked(s, c) || c in classes)
  {
  }

  /** Only the node's own labels change, and the selector does not look at those. */
  lemma RelabelledNode(s: Fleet, s': Fleet, selector: Labels, node: string)
    requires node in s.nodes && AvoidsOwnLabels(selector) && s'.nodes.Keys == s.nodes.Keys
    requires forall n :: n in s.nodes && n != node ==> s'.nodes[n] == s.nodes[n]
    requires forall key :: key != NODE_LABEL && key != EVICTION_LABEL ==>
               (key in s'.nodes[node] <==> key in s.nodes[node]) && (key in s.nodes[node] ==> s'.nodes[node][key] == s.nodes[node][key])
    ensures forall n :: n in s.nodes ==> (Selected(s, selector, n) <==> Selected(s', selector, n))
  {
  }

  lemma DrainNodeEffect(s: Fleet, selector: Labels, node: string)
    requires node in s.nodes && AvoidsOwnLabels(selector) && NODE_LABEL in s.nodes[node]
    requires UnhealthyGroups(s, node) != {} || UnhealthyClasses(s, node) != {}
    ensures var s' := DrainNode(s, node);
            && SameShape(s, s', selector)
            && (forall g :: IsCandidate(s', g) <==> IsCandidate(s, g) || g in UnhealthyGroups(s, node))
            && (forall c :: IsMarked(s', c) <==> IsMarked(s, c) || c in UnhealthyClasses(s, node))
            && (forall n :: n in s.nodes && n != node ==> s'.nodes[n] == s.nodes[n])
            && (forall key :: key in s'.nodes[node] <==> key in s.nodes[node] || key == EVICTION_LABEL)
  {
    var groups, classes := UnhealthyGroups(s, node), UnhealthyClasses(s, node);
    var s1 := EvictNode(s, node);
    MarkEffect(s1, groups, classes);
    RelabelledNode(s, s1, selector, node);
    NodesDecide(s1, DrainNode(s, node), selector);
  }

  lemma NodesDecide(s: Fleet, s': Fleet, selector: Labels)
    requires s'.nodes == s.nodes
    ensures forall n :: n in s.nodes ==> (Selected(s, selector, n) <==> Selected(s', selector, n))
  {
  }

  lemma MarkEffect(s: Fleet, groups: set<string>, classes: set<string>)
    requires groups <= s.groups.Keys && classes <= s.classes.Keys
    ensures var s' := MarkClasses(MarkGroups(s, groups), classes);
            && s'.nodes == s.nodes && s'.groups.Keys == s.groups.Keys && s'.classes.Keys == s.classes.Keys
            && (forall g :: g in s.groups ==> s'.groups[g].nodes == s.groups[g].nodes)
            && (forall c :: c in s.classes ==> s'.classes[c].lvgs == s.classes[c].lvgs)
            && (forall g :: IsCandidate(s', g) <==> IsCandidate(s, g) || g in groups)
            && (forall c :: IsMarked(s', c) <==> IsMarked(s, c) || c in classes)
  {
    MarkGroupsEffect(s, groups);
    MarkClassesEffect(MarkGroups(s, groups), classes);
  }

  lemma ReleaseNodeEffect(s: Fleet, selector: Labels, node: string)
    requires node in s.nodes && AvoidsOwnLabels(selector)
    ensures var s' := ReleaseNode(s, node);
            && SameShape(s, s', selector) && s'.groups == s.groups && s'.classes == s.classes
            && (forall n :: n in s.nodes && n != node ==> s'.nodes[n] == s.nodes[n])
            && NODE_LABEL !in s'.nodes[node]
  {
  }

  lemma VisitKeepsShape(s: Fleet, selector: Labels, node: string)
    requires node in s.nodes && AvoidsOwnLabels(selector)
    ensures SameShape(s, Visit(s, selector, node), selector)
    ensures forall n :: n in s.nodes && n != node ==> Visit(s, selector, node).nodes[n] == s.nodes[n]
  {
    if Selected(s, selector, node) {
      ClearNodeEffect(s, selector, node);
    } else if NODE_LABEL in s.nodes[node] {
      if UnhealthyGroups(s, node) == {} && UnhealthyClasses(s, node) == {} {
        ReleaseNodeEffect(s, selector, node);
      } else {
        DrainNodeEffect(s, selector, node);
      }
    }
  }

  /** A class that names one of the node's LVMVolumeGroups makes that group unhealthy. */
  lemma UnhealthyClassHasUnhealthyGroup(s: Fleet, node: string, c: string)
    requires c in UnhealthyClasses(s, node)
    ensures exists g :: g in s.classes[c].lvgs && g in UnhealthyGroups(s, node)
  {
    var g :| g in s.classes[c].lvgs && On(s, g, node);
    assert IsNamed(s, g);
    assert g in UnhealthyGroups(s, node);
  }

  /** Some LVMVolumeGroup on the node is named by a class or still a candidate. */
  ghost predicate Wanted(s: Fleet, node: string) {
    exists g :: On(s, g, node) && (IsNamed(s, g) || IsCandidate(s, g))
  }

  lemma UnhealthyIsWanted(s: Fleet, node: string)
    ensures Wanted(s, node) <==> UnhealthyGroups(s, node) != {} || UnhealthyClasses(s, node) != {}
  {
    if g :| On(s, g, node) && (IsNamed(s, g) || IsCandidate(s, g)) {
      assert g in UnhealthyGroups(s, node);
    }
    if c :| c in UnhealthyClasses(s, node) {
      UnhealthyClassHasUnhealthyGroup(s, node, c);
    }
    if g :| g in UnhealthyGroups(s, node) {
      assert On(s, g, node);
    }
  }

  ghost predicate SameBut(before: Labels, after: Labels, own: set<string>) {
    forall key :: key !in own ==> (key in after <==> key in before) && (key in before ==> after[key] == before[key])
  }

  ghost predicate SameNodeLabels(s: Fleet, s': Fleet) {
    s'.nodes.Keys == s.nodes.Keys && forall n :: n in s.nodes ==> SameBut(s.nodes[n], s'.nodes[n], {NODE_LABEL, EVICTION_LABEL})
  }

  ghost predicate SameGroupsBut(s: Fleet, s': Fleet) {
    s'.groups.Keys == s.groups.Keys
    && forall g :: g in s.groups ==>
         SameBut(s.groups[g].labels, s'.groups[g].labels, {CANDIDATE_LABEL}) && s'.groups[g].nodes == s.groups[g].nodes
  }

  ghost predicate SameClassesBut(s: Fleet, s': Fleet) {
    s'.classes.Keys == s.classes.Keys
    && forall c :: c in s.classes ==>
         SameBut(s.classes[c].labels, s'.classes[c].labels, {CANDIDATE_LABEL}) && s'.classes[c].lvgs == s.classes[c].lvgs
  }

  /** Nothing but the watcher's own three labels came, went or changed. */
  ghost predicate SameForeign(s: Fleet, s': Fleet) {
    SameNodeLabels(s, s') && SameGroupsBut(s, s') && SameClassesBut(s, s')
  }

  lemma SameForeignThen(a: Fleet, b: Fleet, c: Fleet)
    requires SameForeign(a, b) && SameForeign(b, c)
    ensures SameForeign(a, c)
  {
  }

  lemma ClearsKeepForeign(s: Fleet, groups: set<string>, classes: set<string>)
    ensures SameForeign(s, ClearGroups(s, groups)) && SameForeign(s, ClearClasses(s, classes))
  {
  }

  lemma MarksKeepForeign(s: Fleet, groups: set<string>, classes: set<string>)
    ensures SameForeign(s, MarkGroups(s, groups)) && SameForeign(s, MarkClasses(s, classes))
  {
  }

  lemma RelabelledKeepsForeign(s: Fleet, node: string, labels: Labels, s': Fleet)
    requires node in s.nodes && SameBut(s.nodes[node], labels, {NODE_LABEL, EVICTION_LABEL})
    requires s' == s.(nodes := s.nodes[node := labels], updates := s'.updates)
    ensures SameForeign(s, s')
  {
    assert s'.nodes.Keys == s.nodes.Keys;
  }

  lemma NodeWritesKeepForeign(s: Fleet, node: string)
    requires node in s.nodes
    ensures SameForeign(s, ClearEviction(s, node)) && SameForeign(s, LabelNode(s, node))
    ensures SameForeign(s, EvictNode(s, node)) && SameForeign(s, ReleaseNode(s, node))
  {
    var labels := s.nodes[node];
    assert s.nodes[node := labels] == s.nodes;
    RelabelledKeepsForeign(s, node, labels, s);
    RelabelledKeepsForeign(s, node, labels - {EVICTION_LABEL}, s.(nodes := s.nodes[node := labels - {EVICTION_LABEL}], updates := s.updates + 1));
    RelabelledKeepsForeign(s, node, labels[NODE_LABEL := ""], s.(nodes := s.nodes[node := labels[NODE_LABEL := ""]], updates := s.updates + 1));
    RelabelledKeepsForeign(s, node, labels[EVICTION_LABEL := ""], s.(nodes := s.nodes[node := labels[EVICTION_LABEL := ""]], updates := s.updates + 1));
    RelabelledKeepsForeign(s, node, labels - {NODE_LABEL} - {EVICTION_LABEL}, ReleaseNode(s, node));
  }

  lemma ClearNodeKeepsForeign(s: Fleet, node: string)
    requires node in s.nodes
    ensures SameForeign(s, ClearNode(s, node))
  {
    var s1 := ClearEviction(s, node);
    var s2 := ClearGroups(s1, Used(s1, node));
    NodeWritesKeepForeign(s, node);
    ClearsKeepForeign(s1, Used(s1, node), {});
    ClearsKeepForeign(s2, {}, s2.classes.Keys);
    SameForeignThen(s, s1, s2);
    SameForeignThen(s, s2, ClearNode(s, node));
  }

  lemma DrainNodeKeepsForeign(s: Fleet, node: string)
    requires node in s.nodes
    ensures SameForeign(s, DrainNode(s, node))
  {
    var groups, classes := UnhealthyGroups(s, node), UnhealthyClasses(s, node);
    NodeWritesKeepForeign(s, node);
    var s1 := EvictNode(s, node);
    MarksKeepForeign(s1, groups, {});
    var s2 := MarkGroups(s1, groups);
    MarksKeepForeign(s2, {}, classes);
    SameForeignThen(s, s1, s2);
    SameForeignThen(s, s2, MarkClasses(s2, classes));
  }

  lemma VisitKeepsForeign(s: Fleet, selector: Labels, node: string)
    requires node in s.nodes
    ensures SameForeign(s, Visit(s, selector, node))
  {
    ClearNodeKeepsForeign(s, node);
    DrainNodeKeepsForeign(s, node);
  }

  /** The node's turn leaves nothing to do for it; and it takes the label off it - with the
      eviction label - exactly if the selector dropped it and nothing on it is wanted. */
  lemma VisitFixes(s: Fleet, selector: Labels, node: string)
    requires node in s.nodes && AvoidsOwnLabels(selector)
    requires Selected(s, selector, node) ==> NODE_LABEL in s.nodes[node]
    ensures var s' := Visit(s, selector, node);
            && node in s'.nodes && Fixed(s', selector, node) && (Selected(s, selector, node) ==> Justified(s'))
            && (NODE_LABEL in s.nodes[node] ==>
                  (NODE_LABEL !in s'.nodes[node] <==> !Selected(s, selector, node) && !Wanted(s, node)))
            && (NODE_LABEL in s.nodes[node] && NODE_LABEL !in s'.nodes[node] ==> EVICTION_LABEL !in s'.nodes[node])
            && SameForeign(s, s')
  {
    VisitKeepsForeign(s, selector, node);
    UnhealthyIsWanted(s, node);
    VisitKeepsShape(s, selector, node);
    var s' := Visit(s, selector, node);
    if Selected(s, selector, node) {
      ClearNodeEffect(s, selector, node);
    } else if NODE_LABEL in s.nodes[node] {
      if UnhealthyGroups(s, node) == {} && UnhealthyClasses(s, node) == {} {
        ReleaseNodeEffect(s, selector, node);
      } else {
        DrainNodeEffect(s, selector, node);
        if c :| c in UnhealthyClasses(s, node) {
          UnhealthyClassHasUnhealthyGroup(s, node, c);
        }
        UnhealthySetsStay(s, s', selector, node);
        assert UnhealthyGroups(s', node) == UnhealthyGroups(s, node);
      }
    }
  }

  lemma UnhealthySetsStay(s: Fleet, s': Fleet, selector: Labels, node: string)
    requires SameShape(s, s', selector)
    requires forall g :: On(s, g, node) ==> (IsCandidate(s', g) || IsNamed(s', g) <==> IsCandidate(s, g) || IsNamed(s, g))
    ensures UnhealthyGroups(s', node) == UnhealthyGroups(s, node)
    ensures UnhealthyClasses(s', node) == UnhealthyClasses(s, node)
  {
    forall g ensures On(s', g, node) <==> On(s, g, node) {
    }
    forall c | c in s.classes ensures NamesOn(s', s'.classes[c], node) <==> NamesOn(s, s.classes[c], node) {
    }
  }

  lemma NamedStays(s: Fleet, s': Fleet, selector: Labels, g: string)
    requires SameShape(s, s', selector)
    ensures IsNamed(s', g) <==> IsNamed(s, g)
  {
  }

  /** What another node's turn changes about a fixed node's LVMVolumeGroups: nothing. */
  lemma CandidatesOfFixedStay(s: Fleet, selector: Labels, node: string, other: string, g: string)
    requires node in s.nodes && other in s.nodes && AvoidsOwnLabels(selector) && Undisputed(s, selector)
    requires Fixed(s, selector, other) && On(s, g, other)
    requires Selected(s, selector, other) || NODE_LABEL in s.nodes[other]
    ensures IsCandidate(Visit(s, selector, node), g) <==> IsCandidate(s, g)
  {
    if Selected(s, selector, node) {
      ClearNodeEffect(s, selector, node);
      if !Selected(s, selector, other) && On(s, g, node) {
        assert Straddles(s, selector, g, node, other);
      }
    } else if NODE_LABEL in s.nodes[node] && !(UnhealthyGroups(s, node) == {} && UnhealthyClasses(s, node) == {}) {
      DrainNodeEffect(s, selector, node);
      if Selected(s, selector, other) && On(s, g, node) {
        assert Straddles(s, selector, g, other, node);
      } else if On(s, g, node) && g in UnhealthyGroups(s, node) {
        assert g in UnhealthyGroups(s, other);
      }
    }
  }

  /** One node's turn does not undo another's. */
  lemma VisitKeepsFixed(s: Fleet, selector: Labels, node: string, other: string)
    requires node in s.nodes && other in s.nodes && other != node
    requires AvoidsOwnLabels(selector) && Undisputed(s, selector) && Fixed(s, selector, other)
    ensures var s' := Visit(s, selector, node); other in s'.nodes && Fixed(s', selector, other)
  {
    VisitKeepsShape(s, selector, node);
    var s' := Visit(s, selector, node);
    if Selected(s, selector, other) || NODE_LABEL in s.nodes[other] {
      forall g | On(s, g, other) ensures IsCandidate(s', g) <==> IsCandidate(s, g) {
        CandidatesOfFixedStay(s, selector, node, other, g);
      }
    }
    if !Selected(s, selector, other) && NODE_LABEL in s.nodes[other] {
      forall g | On(s, g, other) ensures IsCandidate(s', g) || IsNamed(s', g) <==> IsCandidate(s, g) || IsNamed(s, g) {
        NamedStays(s, s', selector, g);
      }
      UnhealthySetsStay(s, s', selector, other);
      forall c | c in UnhealthyClasses(s', other) ensures IsMarked(s', c) {
        UnhealthyClassHasUnhealthyGroup(s, other, c);
        assert NamesCandidate(s', s'.classes[c]);
        MarksStay(s, selector, node, c);
      }
    }
  }

  lemma MarksStay(s: Fleet, selector: Labels, node: string, c: string)
    requires node in s.nodes && AvoidsOwnLabels(selector) && IsMarked(s, c)
    requires c in Visit(s, selector, node).classes && NamesCandidate(Visit(s, selector, node), Visit(s, selector, node).classes[c])
    ensures IsMarked(Visit(s, selector, node), c)
  {
    if Selected(s, selector, node) {
      ClearNodeEffect(s, selector, node);
    } else if NODE_LABEL in s.nodes[node] && !(UnhealthyGroups(s, node) == {} && UnhealthyClasses(s, node) == {}) {
      DrainNodeEffect(s, selector, node);
    }
  }

  lemma DrainKeepsJustified(s: Fleet, selector: Labels, node: string)
    requires node in s.nodes && AvoidsOwnLabels(selector) && Justified(s)
    ensures Justified(Visit(s, selector, node))
  {
    var s' := Visit(s, selector, node);
    if Selected(s, selector, node) {
      ClearNodeEffect(s, selector, node);
    } else if NODE_LABEL in s.nodes[node] && !(UnhealthyGroups(s, node) == {} && UnhealthyClasses(s, node) == {}) {
      DrainNodeEffect(s, selector, node);
      forall c | IsMarked(s', c) ensures NamesCandidate(s', s'.classes[c]) {
        if c in UnhealthyClasses(s, node) {
          UnhealthyClassHasUnhealthyGroup(s, node, c);
        } else {
          assert NamesCandidate(s, s.classes[c]);
        }
      }
    }
  }

  lemma NothingToClear(s: Fleet, node: string)
    requires node in s.nodes && EVICTION_LABEL !in s.nodes[node]
    requires (forall g :: On(s, g, node) ==> !IsCandidate(s, g)) && Justified(s)
    ensures ClearNode(s, node) == s
  {
    assert (set g | g in Used(s, node) && IsCandidate(s, g)) == {};
    assert ClearGroups(s, Used(s, node)) == s;
    assert (set c | c in s.classes.Keys && Recovered(s, c)) == {};
    assert ClearClasses(s, s.classes.Keys) == s;
  }

  lemma NothingToMark(s: Fleet, groups: set<string>, classes: set<string>)
    requires (forall g :: g in groups ==> IsCandidate(s, g)) && (forall c :: c in classes ==> IsMarked(s, c))
    ensures MarkGroups(s, groups) == s && MarkClasses(s, classes) == s
  {
    assert (set g | g in groups && !IsCandidate(s, g)) == {};
    assert (set c | c in classes && !IsMarked(s, c)) == {};
  }

  /** A fixed node's turn writes nothing. */
  lemma FixedIsIdle(s: Fleet, selector: Labels, node: string)
    requires node in s.nodes && Fixed(s, selector, node)
    requires Selected(s, selector, node) ==> Justified(s)
    ensures Visit(s, selector, node) == s
  {
    if Selected(s, selector, node) {
      NothingToClear(s, node);
    } else if NODE_LABEL in s.nodes[node] {
      NothingToMark(s, UnhealthyGroups(s, node), UnhealthyClasses(s, node));
    }
  }

  ghost predicate Ready(s: Fleet, selector: Labels) {
    AvoidsOwnLabels(selector) && Undisputed(s, selector) && forall n :: n in s.nodes && Selected(s, selector, n) ==> NODE_LABEL in s.nodes[n]
  }

  lemma LabelNodeEffect(s: Fleet, selector: Labels, node: string)
    requires node in s.nodes && AvoidsOwnLabels(selector)
    ensures var s' := LabelNode(s, node);
            && SameShape(s, s', selector) && s'.groups == s.groups && s'.classes == s.classes
            && NODE_LABEL in s'.nodes[node]
            && forall n :: n in s.nodes && n != node ==> s'.nodes[n] == s.nodes[n]
  {
    RelabelledNode(s, LabelNode(s, node), selector, node);
  }

  lemma {:induction false} LabelAllEffect(s: Fleet, selector: Labels, order: seq<string>)
    requires AvoidsOwnLabels(selector) && forall n :: n in order ==> n in s.nodes
    ensures var s' := LabelAll(s, selector, order);
            && SameShape(s, s', selector) && s'.groups == s.groups && s'.classes == s.classes
            && forall n :: n in order && Selected(s', selector, n) ==> NODE_LABEL in s'.nodes[n]
  {
    if order != [] {
      var init, last := order[..|order| - 1], order[|order| - 1];
      LabelAllEffect(s, selector, init);
      var before := LabelAll(s, selector, init);
      LabelNodeEffect(before, selector, last);
      var s' := LabelAll(s, selector, order);
      forall n | n in order && Selected(s', selector, n) ensures NODE_LABEL in s'.nodes[n] {
        assert n in init || n == last;
      }
    }
  }

  ghost predicate AllFixed(s: Fleet, selector: Labels, order: seq<string>)
    requires forall n :: n in order ==> n in s.nodes
  {
    && (forall n :: n in order ==> Fixed(s, selector, n))
    && ((exists n :: n in order && Selected(s, selector, n)) ==> Justified(s))
  }

  lemma OneMoreFixed(s: Fleet, selector: Labels, order: seq<string>)
    requires Ready(s, selector) && order != [] && forall n :: n in order ==> n in s.nodes
    requires AllFixed(s, selector, order[..|order| - 1])
    ensures AllFixed(Visit(s, selector, order[|order| - 1]), selector, order)
  {
    var init, node := order[..|order| - 1], order[|order| - 1];
    assert forall n :: n in order <==> n in init || n == node by {
      assert order == init + [node];
    }
    var s' := Visit(s, selector, node);
    VisitKeepsShape(s, selector, node);
    VisitFixes(s, selector, node);
    forall n | n in order ensures Fixed(s', selector, n) {
      if n != node {
        VisitKeepsFixed(s, selector, node, n);
      }
    }
    if !Selected(s, selector, node) && exists n :: n in order && Selected(s', selector, n) {
      DrainKeepsJustified(s, selector, node);
    }
  }

  lemma StaysReady(s: Fleet, selector: Labels, node: string)
    requires Ready(s, selector) && node in s.nodes
    ensures Ready(Visit(s, selector, node), selector)
  {
    var s' := Visit(s, selector, node);
    VisitKeepsShape(s, selector, node);
    UndisputedStays(s, selector, node);
    if Selected(s, selector, node) {
      ClearNodeEffect(s, selector, node);
    }
  }

  /** After visiting `order`, its nodes are fixed, and the LocalStorageClasses justified if
      any of them is selected. */
  lemma {:induction false} VisitAllFixes(s: Fleet, selector: Labels, order: seq<string>)
    requires Ready(s, selector) && forall n :: n in order ==> n in s.nodes
    ensures var s' := VisitAll(s, selector, order);
            SameShape(s, s', selector) && Ready(s', selector) && AllFixed(s', selector, order)
  {
    if order != [] {
      var init, last := order[..|order| - 1], order[|order| - 1];
      VisitAllFixes(s, selector, init);
      var before := VisitAll(s, selector, init);
      VisitKeepsShape(before, selector, last);
      ShapeIsTransitive(s, before, VisitAll(s, selector, order), selector);
      StaysReady(before, selector, last);
      OneMoreFixed(before, selector, order);
    }
  }

  lemma ShapeIsTransitive(a: Fleet, b: Fleet, c: Fleet, selector: Labels)
    requires SameShape(a, b, selector) && SameShape(b, c, selector)
    ensures SameShape(a, c, selector)
  {
  }

  /** A turn puts no label back on a dropped node, and none on what straddles unwanted. */
  lemma StraddlersBefore(s: Fleet, selector: Labels, node: string, g: string, kept: string, dropped: string)
    requires node in s.nodes && AvoidsOwnLabels(selector) && Straddles(Visit(s, selector, node), selector, g, kept, dropped)
    ensures Straddles(s, selector, g, kept, dropped) && (IsNamed(Visit(s, selector, node), g) <==> IsNamed(s, g))
    ensures !IsNamed(s, g) && (!IsCandidate(s, g) || node == kept) ==> !IsCandidate(Visit(s, selector, node), g)
  {
    var s' := Visit(s, selector, node);
    VisitKeepsShape(s, selector, node);
    NamedStays(s, s', selector, g);
    if Selected(s, selector, node) {
      ClearNodeEffect(s, selector, node);
    } else if NODE_LABEL in s.nodes[node] && !(UnhealthyGroups(s, node) == {} && UnhealthyClasses(s, node) == {}) {
      DrainNodeEffect(s, selector, node);
    }
  }

  lemma UndisputedStays(s: Fleet, selector: Labels, node: string)
    requires node in s.nodes && AvoidsOwnLabels(selector) && Undisputed(s, selector)
    ensures Undisputed(Visit(s, selector, node), selector)
  {
    var s' := Visit(s, selector, node);
    forall g, kept, dropped | Straddles(s', selector, g, kept, dropped) ensures !IsNamed(s', g) && !IsCandidate(s', g) {
      StraddlersBefore(s, selector, node, g, kept, dropped);
    }
  }

  lemma LabellingKeepsStraddlers(s: Fleet, selector: Labels, order: seq<string>, g: string, kept: string, dropped: string)
    requires AvoidsOwnLabels(selector) && forall n :: n in order ==> n in s.nodes
    ensures Straddles(LabelAll(s, selector, order), selector, g, kept, dropped) <==> Straddles(s, selector, g, kept, dropped)
  {
    LabelAllEffect(s, selector, order);
    if dropped in s.nodes && !Selected(s, selector, dropped) {
      LabelAllSkips(s, selector, order, dropped);
    }
  }

  lemma {:induction false} LabelAllSkips(s: Fleet, selector: Labels, order: seq<string>, node: string)
    requires AvoidsOwnLabels(selector) && forall n :: n in order ==> n in s.nodes
    requires node in s.nodes && !Selected(s, selector, node)
    ensures LabelAll(s, selector, order).nodes[node] == s.nodes[node]
  {
    if order != [] {
      LabelAllSkips(s, selector, order[..|order| - 1], node);
    }
  }

  lemma {:induction false} FixedPassIsIdle(s: Fleet, selector: Labels, first: seq<string>, second: seq<string>)
    requires Ready(s, selector) && (forall n :: n in first || n in second ==> n in s.nodes)
    requires forall n :: n in second ==> Fixed(s, selector, n) && (Selected(s, selector, n) ==> Justified(s))
    ensures LabelAll(s, selector, first) == s && VisitAll(s, selector, second) == s
    decreases |first| + |second|
  {
    if first != [] {
      FixedPassIsIdle(s, selector, first[..|first| - 1], second);
    } else if second != [] {
      FixedPassIsIdle(s, selector, first, second[..|second| - 1]);
      FixedIsIdle(s, selector, second[|second| - 1]);
    }
  }

  /** From whatever labels, if no straddling LVMVolumeGroup is wanted - in particular if
      none straddles - one pass over all nodes in any order reaches a state where another
      pass, in any other order, writes nothing. */
  lemma OnePassSettles(s: Fleet, selector: Labels, first: seq<string>, second: seq<string>, third: seq<string>, fourth: seq<string>)
    requires AvoidsOwnLabels(selector) && Undisputed(s, selector)
    requires Lists(first, s) && Lists(second, s) && Lists(third, s) && Lists(fourth, s)
    ensures var s' := Pass(s, selector, first, second);
            Lists(third, s') && Lists(fourth, s') && Pass(s', selector, third, fourth) == s'
  {
    LabelAllEffect(s, selector, first);
    var labelled := LabelAll(s, selector, first);
    forall g, kept, dropped | Straddles(labelled, selector, g, kept, dropped) ensures !IsNamed(labelled, g) && !IsCandidate(labelled, g) {
      LabellingKeepsStraddlers(s, selector, first, g, kept, dropped);
      NamedStays(s, labelled, selector, g);
    }
    VisitAllFixes(labelled, selector, second);
    var s' := Pass(s, selector, first, second);
    forall n | n in fourth ensures Fixed(s', selector, n) && (Selected(s', selector, n) ==> Justified(s')) {
      assert n in second;
    }
    FixedPassIsIdle(s', selector, third, fourth);
  }

  // --------------------------------------------------------- the exact condition

  /** One pass: the orders of its two node lists. */
  datatype Round = Round(first: seq<string>, second: seq<string>)

  ghost predicate Complete(rounds: seq<Round>, s: Fleet) {
    forall r :: r in rounds ==> Lists(r.first, s) && Lists(r.second, s)
  }

  function Passes(s: Fleet, selector: Labels, rounds: seq<Round>): (r: Fleet)
    requires forall r, n :: r in rounds && (n in r.first || n in r.second) ==> n in s.nodes
    ensures r.nodes.Keys == s.nodes.Keys
  {
    if rounds == [] then s
    else
      var last := rounds[|rounds| - 1];
      Pass(Passes(s, selector, rounds[..|rounds| - 1]), selector, last.first, last.second)
  }

  /** From s to s' nothing began to straddle, and what straddles unnamed lost the candidate
      label if its selected node was `seen`, and did not gain it anyway. */
  ghost predicate Cleans(s: Fleet, s': Fleet, selector: Labels, g: string, kept: string, dropped: string, seen: bool) {
    && Straddles(s, selector, g, kept, dropped) && (IsNamed(s', g) <==> IsNamed(s, g))
    && (!IsNamed(s, g) && (seen || !IsCandidate(s, g)) ==> !IsCandidate(s', g))
  }

  lemma CleansCompose(a: Fleet, b: Fleet, c: Fleet, selector: Labels, g: string, kept: string, dropped: string, first: bool, second: bool)
    requires Cleans(a, b, selector, g, kept, dropped, first) && Cleans(b, c, selector, g, kept, dropped, second)
    ensures Cleans(a, c, selector, g, kept, dropped, first || second)
  {
  }

  lemma VisitCleans(s: Fleet, selector: Labels, node: string, g: string, kept: string, dropped: string)
    requires node in s.nodes && AvoidsOwnLabels(selector) && Straddles(Visit(s, selector, node), selector, g, kept, dropped)
    ensures Cleans(s, Visit(s, selector, node), selector, g, kept, dropped, node == kept)
  {
    StraddlersBefore(s, selector, node, g, kept, dropped);
  }

  lemma {:induction false} VisitAllCleans(s: Fleet, selector: Labels, order: seq<string>, g: string, kept: string, dropped: string)
    requires AvoidsOwnLabels(selector) && (forall n :: n in order ==> n in s.nodes)
    requires Straddles(VisitAll(s, selector, order), selector, g, kept, dropped)
    ensures Cleans(s, VisitAll(s, selector, order), selector, g, kept, dropped, kept in order)
  {
    if order != [] {
      var init, last := order[..|order| - 1], order[|order| - 1];
      VisitCleans(VisitAll(s, selector, init), selector, last, g, kept, dropped);
      VisitAllCleans(s, selector, init, g, kept, dropped);
      CleansCompose(s, VisitAll(s, selector, init), VisitAll(s, selector, order), selector, g, kept, dropped, kept in init, last == kept);
      InitOrLast(order, kept);
    }
  }

  lemma InitOrLast(order: seq<string>, n: string)
    requires order != []
    ensures n in order <==> n in order[..|order| - 1] || order[|order| - 1] == n
  {
    assert order == order[..|order| - 1] + [order[|order| - 1]];
  }

  /** A pass clears what straddles and nobody names: it is undisputed afterwards. */
  lemma UncontestedBecomesUndisputed(s: Fleet, selector: Labels, first: seq<string>, second: seq<string>)
    requires AvoidsOwnLabels(selector) && Lists(first, s) && Lists(second, s) && !Contested(s, selector)
    ensures Undisputed(Pass(s, selector, first, second), selector)
  {
    var labelled, s' := LabelAll(s, selector, first), Pass(s, selector, first, second);
    LabelAllEffect(s, selector, first);
    forall g, kept, dropped | Straddles(s', selector, g, kept, dropped) ensures !IsNamed(s', g) && !IsCandidate(s', g) {
      VisitAllCleans(labelled, selector, second, g, kept, dropped);
      LabellingKeepsStraddlers(s, selector, first, g, kept, dropped);
      NamedStays(s, labelled, selector, g);
    }
  }

  lemma ContestedSurvivesVisit(s: Fleet, selector: Labels, node: string, g: string, kept: string, dropped: string)
    requires node in s.nodes && AvoidsOwnLabels(selector) && Straddles(s, selector, g, kept, dropped) && IsNamed(s, g)
    ensures var s' := Visit(s, selector, node); Straddles(s', selector, g, kept, dropped) && IsNamed(s', g)
  {
    var s' := Visit(s, selector, node);
    VisitKeepsShape(s, selector, node);
    NamedStays(s, s', selector, g);
    if node == dropped {
      assert g in UnhealthyGroups(s, node);
      DrainNodeEffect(s, selector, node);
    }
  }

  lemma {:induction false} ContestedSurvives(s: Fleet, selector: Labels, order: seq<string>, g: string, kept: string, dropped: string)
    requires AvoidsOwnLabels(selector) && (forall n :: n in order ==> n in s.nodes)
    requires Straddles(s, selector, g, kept, dropped) && IsNamed(s, g)
    ensures var s' := VisitAll(s, selector, order); Straddles(s', selector, g, kept, dropped) && IsNamed(s', g)
  {
    if order != [] {
      ContestedSurvives(s, selector, order[..|order| - 1], g, kept, dropped);
      ContestedSurvivesVisit(VisitAll(s, selector, order[..|order| - 1]), selector, order[|order| - 1], g, kept, dropped);
    }
  }

  /** Whatever a turn changes, it counts. */
  lemma VisitCounts(s: Fleet, selector: Labels, node: string)
    requires node in s.nodes
    ensures var s' := Visit(s, selector, node); s'.updates > s.updates || s' == s
  {
    if Selected(s, selector, node) {
      var s1 := ClearEviction(s, node);
      ClearGroupsCounts(s1, Used(s1, node));
      var s2 := ClearGroups(s1, Used(s1, node));
      ClearClassesCounts(s2, s2.classes.Keys);
    } else if NODE_LABEL in s.nodes[node] {
      var groups, classes := UnhealthyGroups(s, node), UnhealthyClasses(s, node);
      if groups != {} || classes != {} {
        var s1 := EvictNode(s, node);
        MarkGroupsCounts(s1, groups);
        MarkClassesCounts(MarkGroups(s1, groups), classes);
      }
    }
  }

  lemma ClearGroupsCounts(s: Fleet, groups: set<string>)
    ensures ClearGroups(s, groups).updates > s.updates || ClearGroups(s, groups) == s
  {
    var changed := set g | g in groups && IsCandidate(s, g);
    if changed == {} {
      assert forall g :: g in groups && IsCandidate(s, g) ==> g in changed;
      assert ClearGroups(s, groups).groups == s.groups;
    }
  }

  lemma ClearClassesCounts(s: Fleet, classes: set<string>)
    ensures ClearClasses(s, classes).updates > s.updates || ClearClasses(s, classes) == s
  {
    var changed := set c | c in classes && Recovered(s, c);
    if changed == {} {
      assert forall c :: c in classes && Recovered(s, c) ==> c in changed;
      assert ClearClasses(s, classes).classes == s.classes;
    }
  }

  lemma MarkGroupsCounts(s: Fleet, groups: set<string>)
    ensures MarkGroups(s, groups).updates > s.updates || MarkGroups(s, groups) == s
  {
    var changed := set g | g in groups && !IsCandidate(s, g);
    if changed == {} {
      assert forall g :: g in groups && !IsCandidate(s, g) ==> g in changed;
      assert MarkGroups(s, groups).groups == s.groups;
    }
  }

  lemma MarkClassesCounts(s: Fleet, classes: set<string>)
    ensures MarkClasses(s, classes).updates > s.updates || MarkClasses(s, classes) == s
  {
    var changed := set c | c in classes && !IsMarked(s, c);
    if changed == {} {
      assert forall c :: c in classes && !IsMarked(s, c) ==> c in changed;
      assert MarkClasses(s, classes).classes == s.classes;
    }
  }

  /** If the visits of a pass write nothing, none of them does. */
  lemma {:induction false} IdlePassIsIdleThroughout(s: Fleet, selector: Labels, order: seq<string>)
    requires forall n :: n in order ==> n in s.nodes
    ensures var s' := VisitAll(s, selector, order);
            s'.updates > s.updates || (s' == s && forall n :: n in order ==> Visit(s, selector, n) == s)
  {
    if order != [] {
      var init, last := order[..|order| - 1], order[|order| - 1];
      IdlePassIsIdleThroughout(s, selector, init);
      VisitCounts(VisitAll(s, selector, init), selector, last);
      assert forall n :: n in order <==> n in init || n == last by {
        assert order == init + [last];
      }
    }
  }

  lemma {:induction false} LabelAllCounts(s: Fleet, selector: Labels, order: seq<string>)
    requires forall n :: n in order ==> n in s.nodes
    ensures LabelAll(s, selector, order).updates >= s.updates
  {
    if order != [] {
      LabelAllCounts(s, selector, order[..|order| - 1]);
    }
  }

  /** No state leaves both nodes of a contested LVMVolumeGroup alone. */
  lemma ContestedIsNeverIdle(s: Fleet, selector: Labels, g: string, kept: string, dropped: string)
    requires AvoidsOwnLabels(selector) && Straddles(s, selector, g, kept, dropped) && IsNamed(s, g)
    ensures Visit(s, selector, kept) != s || Visit(s, selector, dropped) != s
  {
    ClearNodeEffect(s, selector, kept);
    assert g in UnhealthyGroups(s, dropped);
    DrainNodeEffect(s, selector, dropped);
    assert IsCandidate(Visit(s, selector, dropped), g) && !IsCandidate(Visit(s, selector, kept), g);
  }

  lemma ContestedPassWrites(s: Fleet, selector: Labels, first: seq<string>, second: seq<string>)
    requires AvoidsOwnLabels(selector) && Lists(first, s) && Lists(second, s) && Contested(s, selector)
    ensures var s' := Pass(s, selector, first, second); s'.updates > s.updates && Contested(s', selector)
  {
    var g, kept, dropped :| Straddles(s, selector, g, kept, dropped) && IsNamed(s, g);
    var labelled := LabelAll(s, selector, first);
    LabelAllEffect(s, selector, first);
    LabelAllCounts(s, selector, first);
    LabellingKeepsStraddlers(s, selector, first, g, kept, dropped);
    NamedStays(s, labelled, selector, g);
    ContestedIsNeverIdle(labelled, selector, g, kept, dropped);
    IdlePassIsIdleThroughout(labelled, selector, second);
    ContestedSurvives(labelled, selector, second, g, kept, dropped);
  }

  lemma {:induction false} ContestedForEver(s: Fleet, selector: Labels, rounds: seq<Round>)
    requires AvoidsOwnLabels(selector) && Complete(rounds, s) && Contested(s, selector)
    ensures Contested(Passes(s, selector, rounds), selector)
  {
    if rounds != [] {
      var init, last := rounds[..|rounds| - 1], rounds[|rounds| - 1];
      ContestedForEver(s, selector, init);
      assert last in rounds;
      ContestedPassWrites(Passes(s, selector, init), selector, last.first, last.second);
    }
  }

  lemma {:induction false} UncontestedStays(s: Fleet, selector: Labels, rounds: seq<Round>)
    requires AvoidsOwnLabels(selector) && Complete(rounds, s) && !Contested(s, selector)
    ensures var s' := Passes(s, selector, rounds);
            !Contested(s', selector) && (rounds != [] ==> Undisputed(s', selector))
  {
    if rounds != [] {
      var init, last := rounds[..|rounds| - 1], rounds[|rounds| - 1];
      UncontestedStays(s, selector, init);
      assert last in rounds;
      UncontestedBecomesUndisputed(Passes(s, selector, init), selector, last.first, last.second);
    }
  }

  /** Repeated passes come to rest exactly if no LVMVolumeGroup named by a LocalStorageClass
      is both on a selected node and on a dropped one that still carries the label: from the
      third pass on none writes anything, and otherwise every one does. */
  lemma SettlesExactlyIfUncontested(s: Fleet, selector: Labels, rounds: seq<Round>, next: Round)
    requires AvoidsOwnLabels(selector) && Complete(rounds, s) && |rounds| >= 2 && Lists(next.first, s) && Lists(next.second, s)
    ensures var s' := Passes(s, selector, rounds);
            && (Pass(s', selector, next.first, next.second) == s' <==> !Contested(s, selector))
            && (Contested(s, selector) ==> Pass(s', selector, next.first, next.second).updates > s'.updates)
  {
    var init, last := rounds[..|rounds| - 1], rounds[|rounds| - 1];
    assert last in rounds;
    if Contested(s, selector) {
      ContestedForEver(s, selector, rounds);
      ContestedPassWrites(Passes(s, selector, rounds), selector, next.first, next.second);
    } else {
      UncontestedStays(s, selector, init);
      OnePassSettles(Passes(s, selector, init), selector, last.first, last.second, next.first, next.second);
    }
  }

  // --------------------------------------------------------------- one update each

  /** The nodes, LVMVolumeGroups and LocalStorageClasses that are not what they were. */
  function Changed<K, V(==)>(m: map<K, V>, m': map<K, V>): set<K>
    requires m'.Keys == m.Keys
  {
    set k | k in m && m'[k] != m[k]
  }

  ghost predicate CountsChanges(s: Fleet, s': Fleet) {
    && s'.nodes.Keys == s.nodes.Keys && s'.groups.Keys == s.groups.Keys && s'.classes.Keys == s.classes.Keys
    && s'.updates == s.updates + |Changed(s.nodes, s'.nodes)| + |Changed(s.groups, s'.groups)| + |Changed(s.classes, s'.classes)|
  }

  lemma NodeWritesCount(s: Fleet, node: string)
    requires node in s.nodes
    ensures CountsChanges(s, LabelNode(s, node)) && CountsChanges(s, ClearEviction(s, node)) && CountsChanges(s, EvictNode(s, node))
    ensures NODE_LABEL in s.nodes[node] ==> CountsChanges(s, ReleaseNode(s, node))
  {
    OneNodeCounts(s, LabelNode(s, node), node);
    OneNodeCounts(s, ClearEviction(s, node), node);
    OneNodeCounts(s, EvictNode(s, node), node);
    OneNodeCounts(s, ReleaseNode(s, node), node);
  }

  lemma OneNodeCounts(s: Fleet, s': Fleet, node: string)
    requires node in s.nodes && node in s'.nodes && s'.nodes == s.nodes[node := s'.nodes[node]]
    requires s'.groups == s.groups && s'.classes == s.classes
    ensures s'.updates == s.updates + (if s'.nodes[node] != s.nodes[node] then 1 else 0) ==> CountsChanges(s, s')
  {
    assert Changed(s.nodes, s'.nodes) == if s'.nodes[node] != s.nodes[node] then {node} else {};
    assert Changed(s.groups, s'.groups) == {} && Changed(s.classes, s'.classes) == {};
  }

  lemma GroupWritesCount(s: Fleet, groups: set<string>)
    requires groups <= s.groups.Keys
    ensures CountsChanges(s, ClearGroups(s, groups)) && CountsChanges(s, MarkGroups(s, groups))
  {
    var a, b := ClearGroups(s, groups), MarkGroups(s, groups);
    assert Changed(s.groups, a.groups) == set g | g in groups && IsCandidate(s, g);
    assert Changed(s.groups, b.groups) == set g | g in groups && !IsCandidate(s, g);
    assert Changed(s.nodes, s.nodes) == {} && Changed(s.classes, s.classes) == {};
  }

  lemma ClassWritesCount(s: Fleet, classes: set<string>)
    requires classes <= s.classes.Keys
    ensures CountsChanges(s, ClearClasses(s, classes)) && CountsChanges(s, MarkClasses(s, classes))
  {
    var a, b := ClearClasses(s, classes), MarkClasses(s, classes);
    assert Changed(s.classes, a.classes) == set c | c in classes && Recovered(s, c);
    assert Changed(s.classes, b.classes) == set c | c in classes && !IsMarked(s, c);
    assert Changed(s.nodes, s.nodes) == {} && Changed(s.groups, s.groups) == {};
  }

  lemma ClearNodeCounts(s: Fleet, node: string)
    requires node in s.nodes
    ensures CountsChanges(s, ClearNode(s, node))
  {
    NodeWritesCount(s, node);
    var s1 := ClearEviction(s, node);
    var s2 := ClearGroups(s1, Used(s1, node));
    GroupWritesCount(s1, Used(s1, node));
    ClassWritesCount(s2, s2.classes.Keys);
    CountsAdd(s, s1, s2, ClearNode(s, node));
  }

  lemma MarkingCounts(s: Fleet, node: string, groups: set<string>, classes: set<string>)
    requires node in s.nodes && groups <= s.groups.Keys && classes <= s.classes.Keys
    ensures CountsChanges(s, MarkClasses(MarkGroups(EvictNode(s, node), groups), classes))
  {
    NodeWritesCount(s, node);
    var s1 := EvictNode(s, node);
    GroupWritesCount(s1, groups);
    ClassWritesCount(MarkGroups(s1, groups), classes);
    CountsAdd(s, s1, MarkGroups(s1, groups), MarkClasses(MarkGroups(s1, groups), classes));
  }

  lemma NothingCounts(s: Fleet)
    ensures CountsChanges(s, s)
  {
    assert Changed(s.nodes, s.nodes) == {} && Changed(s.groups, s.groups) == {} && Changed(s.classes, s.classes) == {};
  }

  /** A turn issues one update for each object it changes and none for any other. */
  lemma VisitCountsChanges(s: Fleet, selector: Labels, node: string)
    requires node in s.nodes
    ensures CountsChanges(s, Visit(s, selector, node))
  {
    if Selected(s, selector, node) {
      ClearNodeCounts(s, node);
    } else if NODE_LABEL in s.nodes[node] {
      NodeWritesCount(s, node);
      MarkingCounts(s, node, UnhealthyGroups(s, node), UnhealthyClasses(s, node));
    } else {
      NothingCounts(s);
    }
  }

  /** First the node is written, then groups, then classes. */
  lemma CountsAdd(s: Fleet, s1: Fleet, s2: Fleet, s3: Fleet)
    requires CountsChanges(s, s1) && CountsChanges(s1, s2) && CountsChanges(s2, s3)
    requires s1.groups == s.groups && s1.classes == s.classes && s2.nodes == s1.nodes && s2.classes == s.classes
    requires s3.nodes == s1.nodes && s3.groups == s2.groups
    ensures CountsChanges(s, s3)
  {
    assert Changed(s.groups, s1.groups) == {} && Changed(s.classes, s1.classes) == {};
    assert Changed(s1.nodes, s2.nodes) == {} && Changed(s1.classes, s2.classes) == {};
    assert Changed(s2.nodes, s3.nodes) == {} && Changed(s2.groups, s3.groups) == {};
  }

  // ------------------------------------------------------------- what every pass keeps

  /** Marked for manual eviction although it no longer carries the node label. */
  predicate Stale(s: Fleet, node: string) {
    node in s.nodes && EVICTION_LABEL in s.nodes[node] && NODE_LABEL !in s.nodes[node]
  }

  ghost predicate Keeps(s: Fleet, s': Fleet, n: string) {
    SameForeign(s, s') && (Stale(s', n) ==> Stale(s, n))
  }

  lemma KeepsThen(a: Fleet, b: Fleet, c: Fleet, n: string)
    requires Keeps(a, b, n) && Keeps(b, c, n)
    ensures Keeps(a, c, n)
  {
    SameForeignThen(a, b, c);
  }

  lemma ClearNodeLeavesNoneStale(s: Fleet, node: string, n: string)
    requires node in s.nodes
    ensures Stale(ClearNode(s, node), n) ==> Stale(s, n)
  {
    assert ClearNode(s, node).nodes == ClearEviction(s, node).nodes;
  }

  lemma DrainNodeLeavesNoneStale(s: Fleet, node: string, n: string)
    requires node in s.nodes
    ensures Stale(DrainNode(s, node), n) ==> Stale(s, n)
  {
    var s' := DrainNode(s, node);
    assert s'.nodes == s.nodes || s'.nodes == ReleaseNode(s, node).nodes || s'.nodes == EvictNode(s, node).nodes;
  }

  lemma VisitKeeps(s: Fleet, selector: Labels, node: string, n: string)
    requires node in s.nodes
    ensures Keeps(s, Visit(s, selector, node), n)
  {
    if Selected(s, selector, node) {
      ClearNodeKeepsForeign(s, node);
      ClearNodeLeavesNoneStale(s, node, n);
    } else {
      DrainNodeKeepsForeign(s, node);
      DrainNodeLeavesNoneStale(s, node, n);
    }
  }

  lemma LabelNodeKeeps(s: Fleet, node: string, n: string)
    requires node in s.nodes
    ensures Keeps(s, s, n) && Keeps(s, LabelNode(s, node), n)
  {
    NodeWritesKeepForeign(s, node);
  }

  lemma {:induction false} LabelAllKeeps(s: Fleet, selector: Labels, order: seq<string>, n: string)
    requires forall n :: n in order ==> n in s.nodes
    ensures Keeps(s, LabelAll(s, selector, order), n)
  {
    if order != [] {
      var before, last := LabelAll(s, selector, order[..|order| - 1]), order[|order| - 1];
      LabelAllKeeps(s, selector, order[..|order| - 1], n);
      LabelNodeKeeps(before, last, n);
      KeepsThen(s, before, LabelAll(s, selector, order), n);
    }
  }

  lemma {:induction false} VisitAllKeeps(s: Fleet, selector: Labels, order: seq<string>, n: string)
    requires forall n :: n in order ==> n in s.nodes
    ensures Keeps(s, VisitAll(s, selector, order), n)
  {
    if order != [] {
      var before, last := VisitAll(s, selector, order[..|order| - 1]), order[|order| - 1];
      VisitAllKeeps(s, selector, order[..|order| - 1], n);
      VisitKeeps(before, selector, last, n);
      KeepsThen(s, before, VisitAll(s, selector, order), n);
    }
  }

  /** Over any passes in any orders: a node that is rid of the node label is rid of the
      eviction label, unless it carried that without the node label from the start; and
      nobody else's label, on any of the three kinds, is touched. */
  lemma {:induction false} PassesKeep(s: Fleet, selector: Labels, rounds: seq<Round>, n: string)
    requires forall r, n :: r in rounds && (n in r.first || n in r.second) ==> n in s.nodes
    ensures Keeps(s, Passes(s, selector, rounds), n)
  {
    if rounds != [] {
      var init, last := rounds[..|rounds| - 1], rounds[|rounds| - 1];
      PassesKeep(s, selector, init, n);
      assert last in rounds;
      var before := Passes(s, selector, init);
      var labelled := LabelAll(before, selector, last.first);
      LabelAllKeeps(before, selector, last.first, n);
      VisitAllKeeps(labelled, selector, last.second, n);
      KeepsThen(s, before, labelled, n);
      KeepsThen(s, labelled, Passes(s, selector, rounds), n);
    }
  }
}
