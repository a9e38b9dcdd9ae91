/** Bringing the traits of a resource provider in line with the spec. */
module Traits {
  import opened Basics
  import opened Slices

  // ---------------------------------------------------------------- order

  predicate Leq(a: string, b: string) {
    a == "" || (b != "" && (a[0] < b[0] || (a[0] == b[0] && Leq(a[1..], b[1..]))))
  }

  lemma {:induction false} LeqTotal(a: string, b: string)
    ensures Leq(a, b) || Leq(b, a)
    ensures Leq(a, b) && Leq(b, a) ==> a == b
  {
    if a != "" && b != "" && a[0] == b[0] {
      LeqTotal(a[1..], b[1..]);
      assert a == [a[0]] + a[1..] && b == [b[0]] + b[1..];
    }
  }

  lemma {:induction false} LeqTransitive(a: string, b: string, c: string)
    requires Leq(a, b) && Leq(b, c)
    ensures Leq(a, c)
  {
    if a != "" && a[0] == b[0] == c[0] {
      LeqTransitive(a[1..], b[1..], c[1..]);
    }
  }

  ghost predicate IsSorted(s: seq<string>) {
    forall i, j :: 0 <= i < j < |s| ==> Leq(s[i], s[j])
  }

  function Insert(x: string, s: seq<string>): seq<string> {
    if s == [] || Leq(x, s[0]) then [x] + s else [s[0]] + Insert(x, s[1..])
  }

  /** The sorted list; `SortedUnique` shows that any correct sort yields it. */
  function SortedOf(s: seq<string>): seq<string> {
    if s == [] then [] else Insert(s[0], SortedOf(s[1..]))
  }

  lemma {:induction false} InsertSorted(x: string, s: seq<string>)
    requires IsSorted(s)
    ensures IsSorted(Insert(x, s)) && multiset(Insert(x, s)) == multiset(s) + multiset{x}
  {
    if s == [] {
    } else if Leq(x, s[0]) {
      forall j | 0 <= j < |s| ensures Leq(x, s[j]) {
        if j > 0 { LeqTransitive(x, s[0], s[j]); }
      }
    } else {
      LeqTotal(x, s[0]);
      InsertSorted(x, s[1..]);
      assert s == [s[0]] + s[1..];
      var t := Insert(x, s[1..]);
      forall j | 0 <= j < |t| ensures Leq(s[0], t[j]) {
        assert t[j] in multiset(t);
        assert t[j] == x || t[j] in s[1..];
      }
    }
  }

  lemma {:induction false} SortedOfSorts(s: seq<string>)
    ensures IsSorted(SortedOf(s)) && multiset(SortedOf(s)) == multiset(s)
  {
    if s == [] {
    } else {
      var x, rest := s[0], s[1..];
      SortedOfSorts(rest);
      InsertSorted(x, SortedOf(rest));
      assert multiset(s) == multiset(rest) + multiset{x} by {
        assert s == [x] + rest;
      }
    }
  }

  lemma SameLeast(a: seq<string>, b: seq<string>)
    requires IsSorted(a) && IsSorted(b) && multiset(a) == multiset(b) && a != [] && b != []
    ensures a[0] == b[0]
  {
    assert a[0] in multiset(b) && b[0] in multiset(a);
    LeqTotal(a[0], b[0]);
    var i :| 0 <= i < |b| && b[i] == a[0];
    var j :| 0 <= j < |a| && a[j] == b[0];
  }

  lemma RestOf(a: seq<string>)
    requires a != []
    ensures multiset(a[1..]) == multiset(a) - multiset{a[0]}
  {
    assert a == [a[0]] + a[1..];
  }

  lemma {:induction false} SortedUnique(a: seq<string>, b: seq<string>)
    requires IsSorted(a) && IsSorted(b) && multiset(a) == multiset(b)
    ensures a == b
  {
    assert |a| == |multiset(a)| == |multiset(b)| == |b|;
    if a != [] {
      SameLeast(a, b);
      RestOf(a);
      RestOf(b);
      SortedUnique(a[1..], b[1..]);
      assert a == [a[0]] + a[1..] && b == [b[0]] + b[1..];
    }
  }

  lemma SortedMembers(s: seq<string>)
    ensures forall x :: x in SortedOf(s) <==> x in s
  {
    SortedOfSorts(s);
    forall x ensures x in SortedOf(s) <==> x in s {
      assert x in SortedOf(s) <==> x in multiset(SortedOf(s));
    }
  }

  // --------------------------------------------------------------- target

  const CUSTOM_PREFIX := "CUSTOM_"

  predicate IsCustom(t: string) { CUSTOM_PREFIX <= t }

  function CustomTraitsOf(traits: seq<string>): (r: seq<string>)
    ensures forall t :: t in r <==> t in traits && IsCustom(t)
  {
    if traits == [] then []
    else
      assert traits == [traits[0]] + traits[1..];
      (if IsCustom(traits[0]) then [traits[0]] else []) + CustomTraitsOf(traits[1..])
  }

  /** Appends those of `more` that are not there yet. */
  function AppendMissing(s: seq<string>, more: seq<string>): (r: seq<string>)
    ensures s <= r
    ensures forall t :: t in r <==> t in s || t in more
    decreases |more|
  {
    if more == [] then s
    else
      assert more == [more[0]] + more[1..];
      AppendMissing(if more[0] in s then s else s + [more[0]], more[1..])
  }

  function Unsorted(current: seq<string>, spec: seq<string>): seq<string> {
    var applied := CustomTraitsOf(current);
    AppendMissing(NotIn(NotIn(spec, applied), SortedOf(current)), NotIn(applied, spec))
  }

  function Target(current: seq<string>, spec: seq<string>): seq<string> {
    SortedOf(Unsorted(current, spec))
  }

  /** An update is sent exactly when the sorted current traits differ from the target. */
  predicate NeedsUpdate(current: seq<string>, spec: seq<string>) {
    SortedOf(current) != Target(current, spec)
  }

  /** As the controller computes it: two filters, two loops, two sorts. */
  method ComputeTarget(current: seq<string>, spec: seq<string>) returns (target: seq<string>, update: bool)
    ensures target == Target(current, spec)
    ensures update == NeedsUpdate(current, spec)
  {
    var applied := CustomTraitsOf(current);
    var toAdd := Difference(applied, spec);
    var toRemove := Difference(spec, applied);
    var sorted := SortedOf(current);
    target := [];
    for i := 0 to |sorted|
      invariant target == NotIn(toRemove, sorted[..i])
    {
      TakeNext(sorted, i);
      NotInConcat(toRemove, sorted[..i], [sorted[i]]);
      if sorted[i] !in toRemove {
        target := target + [sorted[i]];
      }
    }
    assert sorted[..|sorted|] == sorted;
    ghost var goal := Unsorted(current, spec);
    for j := 0 to |toAdd|
      invariant AppendMissing(target, toAdd[j..]) == goal
    {
      assert toAdd[j..][1..] == toAdd[j + 1..];
      if toAdd[j] !in target {
        target := target + [toAdd[j]];
      }
    }
    target := SortedOf(target);
    update := sorted != target;
  }

  /** The target holds exactly the traits in Placement that are not custom and the traits of
      the spec, in order. */
  lemma TargetIsExact(current: seq<string>, spec: seq<string>)
    ensures forall t :: t in Target(current, spec) <==> (t in current && !IsCustom(t)) || t in spec
    ensures IsSorted(Target(current, spec))
  {
    SortedMembers(current);
    SortedMembers(Unsorted(current, spec));
    SortedOfSorts(Unsorted(current, spec));
  }

  lemma {:induction false} NotInNothing(s1: seq<string>, s2: seq<string>)
    requires forall t :: t in s2 ==> t !in s1
    ensures NotIn(s1, s2) == s2
  {
    if s2 != [] {
      NotInNothing(s1, s2[1..]);
      assert s2 == [s2[0]] + s2[1..];
    }
  }

  lemma {:induction false} NothingMissing(s: seq<string>, more: seq<string>)
    requires forall t :: t in more ==> t in s
    ensures AppendMissing(s, more) == s
  {
    if more != [] {
      NothingMissing(s, more[1..]);
    }
  }

  /** Running again on the result sends no update, whatever the spec holds: repeated names
      and names without the custom prefix included. */
  lemma TargetIsFixed(current: seq<string>, spec: seq<string>)
    ensures Target(Target(current, spec), spec) == Target(current, spec)
    ensures !NeedsUpdate(Target(current, spec), spec)
  {
    var target := Target(current, spec);
    TargetIsExact(current, spec);
    SortedOfSorts(target);
    SortedUnique(SortedOf(target), target);
    var applied := CustomTraitsOf(target);
    var toRemove := NotIn(spec, applied);
    NotInNothing(toRemove, target);
    NothingMissing(target, NotIn(applied, spec));
  }

  /** An update is sent exactly when some custom trait in Placement is not in the spec or some
      trait of the spec is not in Placement. */
  lemma UpdateExactly(current: seq<string>, spec: seq<string>)
    ensures NeedsUpdate(current, spec)
            <==> exists t :: (t in current && IsCustom(t) && t !in spec) || (t in spec && t !in current)
  {
    TargetIsExact(current, spec);
    SortedMembers(current);
    SortedOfSorts(current);
    SortedOfSorts(Unsorted(current, spec));
    if !exists t :: (t in current && IsCustom(t) && t !in spec) || (t in spec && t !in current) {
      var applied := CustomTraitsOf(current);
      NotInNothing(NotIn(spec, applied), SortedOf(current));
      NothingMissing(SortedOf(current), NotIn(applied, spec));
      SortedUnique(SortedOf(SortedOf(current)), SortedOf(current)) by { SortedOfSorts(SortedOf(current)); }
    }
  }
}
