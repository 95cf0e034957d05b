/** Sequences without repetition, and taking one element out: the chains, the queue and the served clients. */
module Sequences {
  predicate NoRepeats<T(==)>(s: seq<T>) {
    forall i, j | 0 <= i < j < |s| :: s[i] != s[j]
  }

  /** Where `x` first is from place `k` on, or the length if it is not there. */
  function IndexFrom<T(==)>(s: seq<T>, x: T, k: nat): (i: nat)
    requires k <= |s|
    ensures k <= i <= |s| && (i < |s| ==> s[i] == x) && forall j | k <= j < i :: s[j] != x
    decreases |s| - k
  {
    if k == |s| || s[k] == x then k else IndexFrom(s, x, k + 1)
  }

  function IndexOf<T(==)>(s: seq<T>, x: T): (i: nat)
    ensures i <= |s| && (i < |s| ==> s[i] == x) && (i < |s| <==> x in s)
  {
    IndexFrom(s, x, 0)
  }

  function Without<T(==)>(s: seq<T>, x: T): seq<T> {
    var k := IndexOf(s, x);
    if k < |s| then s[..k] + s[k + 1..] else s
  }

  lemma WithoutAt<T>(s: seq<T>, x: T, k: nat)
    requires NoRepeats(s) && k < |s| && s[k] == x
    ensures Without(s, x) == s[..k] + s[k + 1..]
  {
    assert IndexOf(s, x) == k;
  }

  lemma WithoutEnds<T>(s: seq<T>)
    requires NoRepeats(s) && s != []
    ensures Without(s, s[0]) == s[1..] && Without(s, s[|s| - 1]) == s[..|s| - 1]
  {
    WithoutAt(s, s[0], 0);
    WithoutAt(s, s[|s| - 1], |s| - 1);
  }

  /** Taking an element out of distinct ones takes out that one, all of it and nothing else. */
  lemma WithoutExactly<T>(s: seq<T>, x: T)
    requires NoRepeats(s)
    ensures NoRepeats(Without(s, x)) && x !in Without(s, x)
    ensures forall y | y in s && y != x :: y in Without(s, x)
    ensures forall y | y in Without(s, x) :: y in s
    ensures |Without(s, x)| == |s| - if x in s then 1 else 0
  {
    var k := IndexOf(s, x);
    if k < |s| {
      var w := Without(s, x);
      forall y | y in s && y != x
        ensures y in w
      {
        var i :| 0 <= i < |s| && s[i] == y;
        assert w[if i < k then i else i - 1] == y;
      }
    }
  }

  /** What is left keeps its order. */
  lemma WithoutKeepsOrder<T>(s: seq<T>, x: T, y: T, z: T)
    requires NoRepeats(s) && y in Without(s, x) && z in Without(s, x)
    ensures IndexOf(Without(s, x), y) < IndexOf(Without(s, x), z) <==> IndexOf(s, y) < IndexOf(s, z)
  {
    PlaceWithout(s, x, y);
    PlaceWithout(s, x, z);
  }

  lemma PlaceWithout<T>(s: seq<T>, x: T, y: T)
    requires NoRepeats(s) && y in Without(s, x)
    ensures IndexOf(s, y) == IndexOf(Without(s, x), y) + if IndexOf(Without(s, x), y) < IndexOf(s, x) then 0 else 1
  {
    var w, k := Without(s, x), IndexOf(s, x);
    var i := IndexOf(w, y);
    assert w[i] == s[if i < k then i else i + 1];
    assert s[IndexOf(s, y)] == y;
  }

  /** Taking out undoes putting in at either end. */
  lemma WithoutUndoes<T>(s: seq<T>, x: T)
    requires x !in s
    ensures Without([x] + s, x) == s && Without(s + [x], x) == s
  {
    assert forall i | 0 <= i < |s| :: (s + [x])[i] == s[i];
    assert IndexOf(s + [x], x) == |s| && (s + [x])[..|s|] == s;
    assert IndexOf([x] + s, x) == 0 && ([x] + s)[1..] == s;
  }
}
