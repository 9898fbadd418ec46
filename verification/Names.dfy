/** Byte-wise order on names and the sorting of named targets by it. */
module Names {
  import opened Wrappers

  predicate Less(a: string, b: string) {
    if b == "" then false
    else if a == "" then true
    else if a[0] != b[0] then a[0] < b[0]
    else Less(a[1..], b[1..])
  }

  lemma {:induction false} LessIsIrreflexive(a: string)
    ensures !Less(a, a)
  {
    if a != "" {
      LessIsIrreflexive(a[1..]);
    }
  }

  lemma {:induction false} LessIsTotal(a: string, b: string)
    ensures a != b ==> Less(a, b) || Less(b, a)
    ensures !(Less(a, b) && Less(b, a))
  {
    if a != "" && b != "" && a[0] == b[0] {
      LessIsTotal(a[1..], b[1..]);
      assert a == [a[0]] + a[1..] && b == [b[0]] + b[1..];
    }
  }

  lemma {:induction false} LessIsTransitive(a: string, b: string, c: string)
    requires Less(a, b) && Less(b, c)
    ensures Less(a, c)
  {
    if a != "" && a[0] == b[0] && b[0] == c[0] {
      LessIsTransitive(a[1..], b[1..], c[1..]);
    }
  }

  /** A resolved LVMVolumeGroup with its thin pool. */
  datatype Target = Target(name: string, thin: Option<string>)

  ghost predicate StrictlySorted(s: seq<Target>) {
    forall i, j :: 0 <= i < j < |s| ==> Less(s[i].name, s[j].name)
  }

  ghost predicate DistinctNames(s: seq<Target>) {
    forall i, j :: 0 <= i < j < |s| ==> s[i].name != s[j].name
  }

  function Insert(s: seq<Target>, t: Target): seq<Target> {
    if s == [] || Less(t.name, s[0].name) then [t] + s else [s[0]] + Insert(s[1..], t)
  }

  function Sort(s: seq<Target>): seq<Target> {
    if s == [] then [] else Insert(Sort(s[1..]), s[0])
  }

  lemma {:induction false} InsertKeeps(s: seq<Target>, t: Target)
    requires StrictlySorted(s) && forall x :: x in s ==> x.name != t.name
    ensures StrictlySorted(Insert(s, t)) && multiset(Insert(s, t)) == multiset(s) + multiset{t}
  {
    if s != [] {
      var rest := Insert(s[1..], t);
      assert s == [s[0]] + s[1..];
      if Less(t.name, s[0].name) {
        forall x | x in s ensures Less(t.name, x.name) {
          if x != s[0] {
            LessIsTransitive(t.name, s[0].name, x.name);
          }
        }
        HeadBefore(t, s);
      } else {
        InsertKeeps(s[1..], t);
        LessIsTotal(t.name, s[0].name);
        assert t.name != s[0].name by {
          assert s[0] in s;
        }
        forall x | x in rest ensures Less(s[0].name, x.name) {
          assert x in multiset(rest);
          if x != t {
            assert x in multiset(s[1..]);
          }
        }
        HeadBefore(s[0], rest);
      }
    }
  }

  lemma HeadBefore(head: Target, rest: seq<Target>)
    requires StrictlySorted(rest) && forall x :: x in rest ==> Less(head.name, x.name)
    ensures StrictlySorted([head] + rest)
  {
    var s := [head] + rest;
    forall i, j | 0 <= i < j < |s| ensures Less(s[i].name, s[j].name) {
      assert s[j] == rest[j - 1] && s[j] in rest;
      if i > 0 {
        assert s[i] == rest[i - 1];
      }
    }
  }

  /** Sorting distinct names loses nothing, adds nothing and leaves no two in disorder. */
  lemma {:induction false} SortSorts(s: seq<Target>)
    requires DistinctNames(s)
    ensures StrictlySorted(Sort(s)) && multiset(Sort(s)) == multiset(s)
    ensures forall t :: t in Sort(s) <==> t in s
  {
    if s != [] {
      SortSorts(s[1..]);
      forall x | x in Sort(s[1..]) ensures x.name != s[0].name {
        assert x in multiset(Sort(s[1..]));
        assert x in s[1..];
      }
      InsertKeeps(Sort(s[1..]), s[0]);
      assert s == [s[0]] + s[1..];
    }
    forall t ensures t in Sort(s) <==> t in s {
      assert t in multiset(Sort(s)) <==> t in multiset(s);
    }
  }

  /** A set of targets has at most one strictly sorted listing. */
  lemma {:induction false} SortedListingIsUnique(a: seq<Target>, b: seq<Target>)
    requires StrictlySorted(a) && StrictlySorted(b) && forall t :: t in a <==> t in b
    ensures a == b
  {
    assert b != [] ==> b[0] in a;
    if a != [] {
      assert a[0] in b && b != [];
      HeadIsLeast(a, b[0]);
      HeadIsLeast(b, a[0]);
      LessIsTotal(a[0].name, b[0].name);
      assert a[0] == b[0];
      forall t ensures t in a[1..] <==> t in b[1..] {
        TailWithoutHead(a, t);
        TailWithoutHead(b, t);
      }
      SortedListingIsUnique(a[1..], b[1..]);
      assert a == [a[0]] + a[1..] && b == [b[0]] + b[1..];
    }
  }

  lemma HeadIsLeast(s: seq<Target>, t: Target)
    requires StrictlySorted(s) && t in s
    ensures t == s[0] || Less(s[0].name, t.name)
  {
  }

  lemma TailWithoutHead(s: seq<Target>, t: Target)
    requires StrictlySorted(s) && s != []
    ensures t in s[1..] <==> t in s && t != s[0]
  {
    LessIsIrreflexive(s[0].name);
    assert s == [s[0]] + s[1..];
  }
}
