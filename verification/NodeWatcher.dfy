/**
  The node watcher's nested loops over nodes, LVMVolumeGroups and LocalStorageClasses,
  proved to do what module NodeLabels says. Maps are walked in no particular order.
  */
module NodeWatcher {
  import opened LocalStorage
  import opened NodeLabels

  lemma OneEntryDiffers<T>(before: map<string, T>, after: map<string, T>, key: string, value: T)
    requires after.Keys == before.Keys && key in before && after[key] == value
    requires forall k :: k in before && k != key ==> after[k] == before[k]
    ensures after == before[key := value]
  {
  }

  lemma CountOneMoreGroup(s: Fleet, done: set<string>, g: string)
    requires g in s.groups && g !in done
    ensures ClearGroups(s, done + {g}).updates == ClearGroups(s, done).updates + if IsCandidate(s, g) then 1 else 0
  {
    var before, after := (set h | h in done && IsCandidate(s, h)), set h | h in done + {g} && IsCandidate(s, h);
    assert after == if IsCandidate(s, g) then before + {g} else before;
  }

  lemma ClearOneMoreGroup(s: Fleet, done: set<string>, g: string)
    requires g in s.groups && g !in done
    ensures var t, t' := ClearGroups(s, done), ClearGroups(s, done + {g});
            && t.groups.Keys == s.groups.Keys && t.groups[g] == s.groups[g]
            && (IsCandidate(t, g) <==> IsCandidate(s, g))
            && t' == if !IsCandidate(t, g) then t
               else t.(groups := t.groups[g := t.groups[g].(labels := t.groups[g].labels - {CANDIDATE_LABEL})], updates := t.updates + 1)
  {
    CountOneMoreGroup(s, done, g);
    OneEntryDiffers(ClearGroups(s, done).groups, ClearGroups(s, done + {g}).groups, g, ClearGroups(s, done + {g}).groups[g]);
  }

  lemma CountOneMoreClass(s: Fleet, done: set<string>, c: string)
    requires c in s.classes && c !in done
    ensures ClearClasses(s, done + {c}).updates == ClearClasses(s, done).updates + if Recovered(s, c) then 1 else 0
  {
    var before, after := (set d | d in done && Recovered(s, d)), set d | d in done + {c} && Recovered(s, d);
    assert after == if Recovered(s, c) then before + {c} else before;
  }

  lemma ClearOneMoreClass(s: Fleet, done: set<string>, c: string)
    requires c in s.classes && c !in done
    ensures var t, t' := ClearClasses(s, done), ClearClasses(s, done + {c});
            && t.classes.Keys == s.classes.Keys && t.classes[c] == s.classes[c] && t.groups == s.groups
            && (Recovered(t, c) <==> Recovered(s, c))
            && t' == if !Recovered(t, c) then t
               else t.(classes := t.classes[c := t.classes[c].(labels := t.classes[c].labels - {CANDIDATE_LABEL})], updates := t.updates + 1)
  {
    SameCandidates(ClearClasses(s, done), s, s.classes[c]);
    CountOneMoreClass(s, done, c);
    OneEntryDiffers(ClearClasses(s, done).classes, ClearClasses(s, done + {c}).classes, c, ClearClasses(s, done + {c}).classes[c]);
  }

  lemma CountMarkedGroup(s: Fleet, done: set<string>, g: string)
    requires g in s.groups && g !in done
    ensures MarkGroups(s, done + {g}).updates == MarkGroups(s, done).updates + if IsCandidate(s, g) then 0 else 1
  {
    var before, after := (set h | h in done && !IsCandidate(s, h)), set h | h in done + {g} && !IsCandidate(s, h);
    assert after == if IsCandidate(s, g) then before else before + {g};
  }

  lemma MarkOneMoreGroup(s: Fleet, done: set<string>, g: string)
    requires g in s.groups && g !in done
    ensures var t, t' := MarkGroups(s, done), MarkGroups(s, done + {g});
            && t.groups.Keys == s.groups.Keys && t.groups[g] == s.groups[g]
            && t' == if IsCandidate(s, g) then t
               else t.(groups := t.groups[g := s.groups[g].(labels := s.groups[g].labels[CANDIDATE_LABEL := ""])], updates := t.updates + 1)
  {
    CountMarkedGroup(s, done, g);
    OneEntryDiffers(MarkGroups(s, done).groups, MarkGroups(s, done + {g}).groups, g, MarkGroups(s, done + {g}).groups[g]);
  }

  lemma CountMarkedClass(s: Fleet, done: set<string>, c: string)
    requires c in s.classes && c !in done
    ensures MarkClasses(s, done + {c}).updates == MarkClasses(s, done).updates + if IsMarked(s, c) then 0 else 1
  {
    var before, after := (set d | d in done && !IsMarked(s, d)), set d | d in done + {c} && !IsMarked(s, d);
    assert after == if IsMarked(s, c) then before else before + {c};
  }

  lemma MarkOneMoreClass(s: Fleet, done: set<string>, c: string)
    requires c in s.classes && c !in done
    ensures var t, t' := MarkClasses(s, done), MarkClasses(s, done + {c});
            && t.classes.Keys == s.classes.Keys && t.classes[c] == s.classes[c]
            && t' == if IsMarked(s, c) then t
               else t.(classes := t.classes[c := s.classes[c].(labels := s.classes[c].labels[CANDIDATE_LABEL := ""])], updates := t.updates + 1)
  {
    CountMarkedClass(s, done, c);
    OneEntryDiffers(MarkClasses(s, done).classes, MarkClasses(s, done + {c}).classes, c, MarkClasses(s, done + {c}).classes[c]);
  }

  lemma NothingMore(s: Fleet)
    ensures ClearGroups(s, {}) == s && ClearClasses(s, {}) == s && MarkGroups(s, {}) == s && MarkClasses(s, {}) == s
  {
    assert (set g: string | g in {} && !IsCandidate(s, g)) == {} && (set c: string | c in {} && !IsMarked(s, c)) == {};
    assert (set g: string | g in {} && IsCandidate(s, g)) == {} && (set c: string | c in {} && Recovered(s, c)) == {};
    assert ClearGroups(s, {}).groups == s.groups && MarkGroups(s, {}).groups == s.groups;
    assert ClearClasses(s, {}).classes == s.classes && MarkClasses(s, {}).classes == s.classes;
  }

  lemma SameCandidates(s: Fleet, s': Fleet, lsc: Class)
    requires s.groups == s'.groups
    ensures NamesCandidate(s, lsc) <==> NamesCandidate(s', lsc)
  {
    assert forall g :: IsCandidate(s, g) <==> IsCandidate(s', g);
  }

  method UsedIn(lvgs: seq<string>, used: set<string>) returns (named: set<string>)
    ensures named == set g | g in used && g in lvgs
  {
    named := {};
    for k := 0 to |lvgs|
      invariant named == set g | g in used && g in lvgs[..k]
    {
      assert lvgs[..k + 1] == lvgs[..k] + [lvgs[k]];
      if lvgs[k] in used {
        named := named + {lvgs[k]};
      }
    }
    assert lvgs[..|lvgs|] == lvgs;
  }

  class Watcher {
    var nodes: map<string, Labels>
    var groups: map<string, Group>
    var classes: map<string, Class>
    var updates: nat

    function Value(): Fleet
      reads this
    {
      Fleet(nodes, groups, classes, updates)
    }

    constructor (s: Fleet)
      ensures Value() == s
    {
      nodes, groups, classes, updates := s.nodes, s.groups, s.classes, s.updates;
    }

    method UpdateNode(node: string, labels: Labels)
      modifies this`nodes, this`updates
      ensures Value() == old(Value()).(nodes := old(nodes)[node := labels], updates := old(updates) + 1)
    {
      nodes := nodes[node := labels];
      updates := updates + 1;
    }

    method UpdateGroup(group: string, labels: Labels)
      requires group in groups
      modifies this`groups, this`updates
      ensures Value() == old(Value()).(groups := old(groups)[group := old(groups)[group].(labels := labels)], updates := old(updates) + 1)
    {
      groups := groups[group := groups[group].(labels := labels)];
      updates := updates + 1;
    }

    method UpdateClass(name: string, labels: Labels)
      requires name in classes
      modifies this`classes, this`updates
      ensures Value() == old(Value()).(classes := old(classes)[name := old(classes)[name].(labels := labels)], updates := old(updates) + 1)
    {
      classes := classes[name := classes[name].(labels := labels)];
      updates := updates + 1;
    }

    method LabelNodesWithLocalCsiIfNeeded(selector: Labels, order: seq<string>)
      requires forall n :: n in order ==> n in nodes
      modifies this
      ensures Value() == LabelAll(old(Value()), selector, order)
    {
      for i := 0 to |order|
        invariant forall n :: n in order[..i] ==> n in old(nodes)
        invariant Value() == LabelAll(old(Value()), selector, order[..i])
      {
        assert order[..i + 1][..i] == order[..i];
        assert order[i] in order;
        if !Matches(selector, nodes[order[i]]) || NODE_LABEL in nodes[order[i]] {
          continue;
        }
        UpdateNode(order[i], nodes[order[i]][NODE_LABEL := ""]);
      }
      assert order[..|order|] == order;
    }

    /** The LVMVolumeGroups that report the node. */
    method UsedLvgs(node: string) returns (used: set<string>)
      ensures used == Used(Value(), node)
    {
      used := {};
      var todo := groups.Keys;
      while todo != {}
        invariant todo <= groups.Keys
        invariant used == set g | g in groups && g !in todo && On(Value(), g, node)
        decreases |todo|
      {
        var g :| g in todo;
        todo := todo - {g};
        ghost var before := used;
        for k := 0 to |groups[g].nodes|
          invariant used == if node in groups[g].nodes[..k] then before + {g} else before
        {
          if groups[g].nodes[k] == node {
            used := used + {g};
          }
        }
        assert groups[g].nodes[..|groups[g].nodes|] == groups[g].nodes;
      }
    }

    method ClearCandidate(g: string)
      requires g in groups
      modifies this`groups, this`updates
      ensures Value() == if !IsCandidate(old(Value()), g) then old(Value()) else
                old(Value()).(groups := old(groups)[g := old(groups)[g].(labels := old(groups)[g].labels - {CANDIDATE_LABEL})],
                              updates := old(updates) + 1)
    {
      if CANDIDATE_LABEL in groups[g].labels {
        UpdateGroup(g, groups[g].labels - {CANDIDATE_LABEL});
      }
    }

    method ClearCandidates(used: set<string>)
      requires used <= groups.Keys
      modifies this`groups, this`updates
      ensures Value() == ClearGroups(old(Value()), used)
    {
      ghost var start := Value();
      var todo := used;
      ghost var done: set<string> := {};
      NothingMore(start);
      while todo != {}
        invariant todo <= used && done == used - todo
        invariant Value() == ClearGroups(start, done)
        decreases |todo|
      {
        var g :| g in todo;
        todo := todo - {g};
        ClearOneMoreGroup(start, done, g);
        done := done + {g};
        ClearCandidate(g);
      }
      assert done == used;
    }

    method HasCandidate(lvgs: seq<string>) returns (found: bool)
      ensures found <==> exists g :: g in lvgs && IsCandidate(Value(), g)
    {
      ghost var s := Value();
      found := false;
      for k := 0 to |lvgs|
        invariant found <==> exists g :: g in lvgs[..k] && IsCandidate(s, g)
      {
        assert lvgs[..k + 1] == lvgs[..k] + [lvgs[k]];
        var candidate := lvgs[k] in groups && CANDIDATE_LABEL in groups[lvgs[k]].labels;
        assert candidate <==> IsCandidate(s, lvgs[k]);
        if candidate {
          found := true;
        }
      }
      assert lvgs[..|lvgs|] == lvgs;
    }

    method ReleaseIfRecovered(c: string)
      requires c in classes
      modifies this`classes, this`updates
      ensures Value() == if !Recovered(old(Value()), c) then old(Value()) else
                old(Value()).(classes := old(classes)[c := old(classes)[c].(labels := old(classes)[c].labels - {CANDIDATE_LABEL})],
                              updates := old(updates) + 1)
    {
      if CANDIDATE_LABEL !in classes[c].labels {
        return;
      }
      var unhealthy := HasCandidate(classes[c].lvgs);
      if !unhealthy {
        UpdateClass(c, classes[c].labels - {CANDIDATE_LABEL});
      }
    }

    method ReleaseRecovered()
      modifies this`classes, this`updates
      ensures Value() == ClearClasses(old(Value()), old(Value()).classes.Keys)
    {
      ghost var start := Value();
      var todo := classes.Keys;
      ghost var done: set<string> := {};
      NothingMore(start);
      while todo != {}
        invariant todo <= start.classes.Keys && done == start.classes.Keys - todo
        invariant Value() == ClearClasses(start, done)
        decreases |todo|
      {
        var c :| c in todo;
        todo := todo - {c};
        ClearOneMoreClass(start, done, c);
        done := done + {c};
        ReleaseIfRecovered(c);
      }
      assert done == start.classes.Keys;
    }

    method ClearManualEvictionLabelsIfNeeded(node: string)
      requires node in nodes
      modifies this
      ensures Value() == ClearNode(old(Value()), node)
    {
      if EVICTION_LABEL in nodes[node] {
        UpdateNode(node, nodes[node] - {EVICTION_LABEL});
      }
      ghost var s1 := Value();
      assert s1 == ClearEviction(old(Value()), node);
      var used := UsedLvgs(node);
      ClearCandidates(used);
      ghost var s2 := Value();
      assert s2 == ClearGroups(s1, Used(s1, node));
      ReleaseRecovered();
    }

    method GetManuallyEvictedLvgsAndLscs(node: string) returns (unhealthyGroups: set<string>, unhealthyClasses: set<string>)
      ensures unhealthyGroups == UnhealthyGroups(Value(), node)
      ensures unhealthyClasses == UnhealthyClasses(Value(), node)
    {
      var used := UsedLvgs(node);
      unhealthyGroups, unhealthyClasses := {}, {};
      var todo := classes.Keys;
      while todo != {}
        invariant todo <= classes.Keys
        invariant forall g :: g in unhealthyGroups <==> g in used && exists c :: c in classes && c !in todo && g in classes[c].lvgs
        invariant forall c :: c in unhealthyClasses <==> c in classes && c !in todo && NamesOn(Value(), classes[c], node)
        decreases |todo|
      {
        var c :| c in todo;
        todo := todo - {c};
        var named := UsedIn(classes[c].lvgs, used);
        assert forall g :: g in named <==> g in classes[c].lvgs && On(Value(), g, node);
        assert named != {} <==> NamesOn(Value(), classes[c], node);
        if named != {} {
          unhealthyGroups := unhealthyGroups + named;
          unhealthyClasses := unhealthyClasses + {c};
        }
      }
      assert forall g :: g in unhealthyGroups <==> g in used && IsNamed(Value(), g);
      var candidates := CandidatesAmong(used);
      unhealthyGroups := unhealthyGroups + candidates;
    }

    method CandidatesAmong(used: set<string>) returns (candidates: set<string>)
      requires used <= groups.Keys
      ensures candidates == set g | g in used && IsCandidate(Value(), g)
    {
      candidates := {};
      var todo := used;
      while todo != {}
        invariant todo <= used
        invariant candidates == set g | g in used && g !in todo && IsCandidate(Value(), g)
        decreases |todo|
      {
        var g :| g in todo;
        todo := todo - {g};
        if CANDIDATE_LABEL in groups[g].labels {
          candidates := candidates + {g};
        }
      }
    }

    method MarkLvgs(marked: set<string>)
      requires marked <= groups.Keys
      modifies this`groups, this`updates
      ensures Value() == MarkGroups(old(Value()), marked)
    {
      ghost var start := Value();
      var todo := marked;
      ghost var done: set<string> := {};
      NothingMore(start);
      while todo != {}
        invariant todo <= marked && done == marked - todo
        invariant Value() == MarkGroups(start, done)
        decreases |todo|
      {
        var g :| g in todo;
        todo := todo - {g};
        MarkOneMoreGroup(start, done, g);
        done := done + {g};
        if CANDIDATE_LABEL in groups[g].labels {
          continue;
        }
        UpdateGroup(g, groups[g].labels[CANDIDATE_LABEL := ""]);
      }
      assert done == marked;
    }

    method MarkLscs(marked: set<string>)
      requires marked <= classes.Keys
      modifies this`classes, this`updates
      ensures Value() == MarkClasses(old(Value()), marked)
    {
      ghost var start := Value();
      var todo := marked;
      ghost var done: set<string> := {};
      NothingMore(start);
      while todo != {}
        invariant todo <= marked && done == marked - todo
        invariant Value() == MarkClasses(start, done)
        decreases |todo|
      {
        var c :| c in todo;
        todo := todo - {c};
        MarkOneMoreClass(start, done, c);
        done := done + {c};
        if CANDIDATE_LABEL in classes[c].labels {
          continue;
        }
        UpdateClass(c, classes[c].labels[CANDIDATE_LABEL := ""]);
      }
      assert done == marked;
    }

    method DrainOrRelease(node: string)
      requires node in nodes
      modifies this
      ensures Value() == DrainNode(old(Value()), node)
    {
      if NODE_LABEL !in nodes[node] {
        return;
      }
      var lvgs, lscs := GetManuallyEvictedLvgsAndLscs(node);
      if lvgs == {} && lscs == {} {
        UpdateNode(node, nodes[node] - {NODE_LABEL} - {EVICTION_LABEL});
        return;
      }
      if EVICTION_LABEL !in nodes[node] {
        UpdateNode(node, nodes[node][EVICTION_LABEL := ""]);
      }
      assert Value() == EvictNode(old(Value()), node);
      MarkLvgs(lvgs);
      MarkLscs(lscs);
    }

    method ReconcileNode(selector: Labels, node: string)
      requires node in nodes
      modifies this
      ensures Value() == Visit(old(Value()), selector, node)
    {
      if Matches(selector, nodes[node]) {
        ClearManualEvictionLabelsIfNeeded(node);
      } else {
        DrainOrRelease(node);
      }
    }

    method ReconcileLocalCsiLabels(selector: Labels, order: seq<string>)
      requires forall n :: n in order ==> n in nodes
      modifies this
      ensures Value() == VisitAll(old(Value()), selector, order)
    {
      for i := 0 to |order|
        invariant forall n :: n in order[..i] ==> n in old(nodes)
        invariant Value() == VisitAll(old(Value()), selector, order[..i])
      {
        assert order[..i + 1][..i] == order[..i];
        assert order[i] in order;
        ReconcileNode(selector, order[i]);
      }
      assert order[..|order|] == order;
    }

    method ReconcileLocalCsiNodes(selector: Labels, first: seq<string>, second: seq<string>)
      requires forall n :: n in first ==> n in nodes
      requires forall n :: n in second ==> n in nodes
      modifies this
      ensures Value() == Pass(old(Value()), selector, first, second)
    {
      LabelNodesWithLocalCsiIfNeeded(selector, first);
      ReconcileLocalCsiLabels(selector, second);
    }
  }
}
