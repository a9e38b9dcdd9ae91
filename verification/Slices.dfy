/** List helpers used by several controllers. */
module Slices {

  /** The elements of `s2` that are not in `s1`, in order and with repetitions. */
  function NotIn(s1: seq<string>, s2: seq<string>): (r: seq<string>)
    ensures forall x :: x in r <==> x in s2 && x !in s1
  {
    if s2 == [] then []
    else
      assert s2 == [s2[0]] + s2[1..];
      (if s2[0] in s1 then [] else [s2[0]]) + NotIn(s1, s2[1..])
  }

  lemma {:induction false} NotInConcat(s1: seq<string>, a: seq<string>, b: seq<string>)
    ensures NotIn(s1, a + b) == NotIn(s1, a) + NotIn(s1, b)
  {
    if a == [] {
      assert a + b == b;
    } else {
      assert (a + b)[1..] == a[1..] + b;
      NotInConcat(s1, a[1..], b);
    }
  }

  method Difference(s1: seq<string>, s2: seq<string>) returns (diff: seq<string>)
    ensures diff == NotIn(s1, s2)
  {
    diff := [];
    for i := 0 to |s2|
      invariant diff == NotIn(s1, s2[..i])
    {
      assert s2[..i + 1] == s2[..i] + [s2[i]];
      NotInConcat(s1, s2[..i], [s2[i]]);
      if s2[i] !in s1 {
        diff := diff + [s2[i]];
      }
    }
    assert s2[..|s2|] == s2;
  }

  /** Equality of two lists up to order. */
  predicate SameElements(a: seq<string>, b: seq<string>) {
    multiset(a) == multiset(b)
  }

  function CountOf(counts: map<string, int>, s: string): int {
    if s in counts then counts[s] else 0
  }

  /** `counts` holds, for every string, how often it occurs in `a` less how often in `b`. */
  ghost predicate Counts(counts: map<string, int>, a: seq<string>, b: seq<string>) {
    forall s :: CountOf(counts, s) == multiset(a)[s] as int - multiset(b)[s] as int
  }

  lemma CountsStep(counts: map<string, int>, a: seq<string>, b: seq<string>, x: string, c: map<string, int>)
    requires Counts(counts, a, b)
    ensures c == counts[x := CountOf(counts, x) + 1] ==> Counts(c, a + [x], b)
    ensures c == counts[x := CountOf(counts, x) - 1] ==> Counts(c, a, b + [x])
  {
  }

  method CountAll(a: seq<string>) returns (counts: map<string, int>)
    ensures Counts(counts, a, [])
  {
    counts := map[];
    for i := 0 to |a|
      invariant Counts(counts, a[..i], [])
    {
      assert a[..i + 1] == a[..i] + [a[i]];
      CountsStep(counts, a[..i], [], a[i], counts[a[i] := CountOf(counts, a[i]) + 1]);
      counts := counts[a[i] := CountOf(counts, a[i]) + 1];
    }
    assert a[..|a|] == a;
  }

  /** Counting both lists decides equality of the two multisets. */
  method SlicesEqualUnordered(a: seq<string>, b: seq<string>) returns (equal: bool)
    ensures equal <==> SameElements(a, b)
  {
    if |a| != |b| {
      assert |multiset(a)| != |multiset(b)|;
      return false;
    }
    var counts := CountAll(a);
    for j := 0 to |b|
      invariant Counts(counts, a, b[..j])
      invariant forall s :: CountOf(counts, s) >= 0
    {
      assert b[..j + 1] == b[..j] + [b[j]];
      CountsStep(counts, a, b[..j], b[j], counts[b[j] := CountOf(counts, b[j]) - 1]);
      counts := counts[b[j] := CountOf(counts, b[j]) - 1];
      if counts[b[j]] < 0 {
        assert CountOf(counts, b[j]) < 0;
        Excess(a, b, j + 1, b[j]);
        return false;
      }
    }
    assert b[..|b|] == b;
    SameSize(a, b, counts);
    return true;
  }

  lemma Excess(a: seq<string>, b: seq<string>, j: nat, x: string)
    requires j <= |b| && multiset(b[..j])[x] > multiset(a)[x]
    ensures !SameElements(a, b)
  {
    assert b == b[..j] + b[j..];
  }

  lemma SameSize(a: seq<string>, b: seq<string>, counts: map<string, int>)
    requires |a| == |b| && Counts(counts, a, b)
    requires forall s :: CountOf(counts, s) >= 0
    ensures SameElements(a, b)
  {
    var x, y := multiset(a), multiset(b);
    assert y <= x by {
      forall s ensures y[s] <= x[s] { assert CountOf(counts, s) >= 0; }
    }
    assert x == y + (x - y);
    assert |x - y| == 0;
  }
}
