/** Small value types and string helpers shared by every component. */
module Basics {

  datatype Option<+T> = None | Some(value: T)

  /** The text before the first dot; all of it when there is none. */
  function ShortName(s: string): (r: string)
    ensures '.' !in r
    ensures r == s || r + "." <= s
  {
    if s == "" || s[0] == '.' then ""
    else [s[0]] + ShortName(s[1..])
  }

  predicate ContainsText(s: string, sub: string)
    decreases |s|
  {
    sub <= s || (|s| > 0 && ContainsText(s[1..], sub))
  }

  ghost predicate Occurs(sub: string, s: string) { exists before, after :: s == before + sub + after }

  lemma {:induction false} ContainsExactly(s: string, sub: string)
    ensures ContainsText(s, sub) <==> Occurs(sub, s)
    decreases |s|
  {
    if sub <= s {
      assert s == [] + sub + s[|sub|..];
    } else {
      if |s| > 0 {
        ContainsExactly(s[1..], sub);
        if before, after :| s[1..] == before + sub + after {
          assert s == ([s[0]] + before) + sub + after;
        }
      }
      if before, after :| s == before + sub + after {
        assert before == [] ==> before + sub == sub;
        assert s[1..] == before[1..] + sub + after;
      }
    }
  }

  /** The set of elements of a sequence. */
  function Elements<T(==, !new)>(s: seq<T>): (r: set<T>)
    ensures |r| <= |s|
    ensures forall x :: x in r <==> x in s
  {
    if s == [] then {} else
    assert s == [s[0]] + s[1..];
    {s[0]} + Elements(s[1..])
  }

  ghost predicate Distinct<T>(s: seq<T>) {
    forall i, j :: 0 <= i < j < |s| ==> s[i] != s[j]
  }

  lemma TakeNext<T>(s: seq<T>, i: nat)
    requires i < |s|
    ensures s[..i + 1] == s[..i] + [s[i]]
    ensures s[..i + 1][..i] == s[..i] && s[..i + 1][i] == s[i]
  {
  }

  function Max(a: int, b: int): int { if a < b then b else a }

  function Min(a: int, b: int): int { if a < b then a else b }
}
