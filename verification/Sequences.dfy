/** Facts about sequences that several components share. */
module Sequences {
  predicate NoDuplicates<T(==)>(s: seq<T>) {
    forall i, j :: 0 <= i < j < |s| ==> s[i] != s[j]
  }

  function SetOf<T(==)>(s: seq<T>): set<T> {
    set x | x in s
  }

  /** The program's test for repetitions. */
  predicate Repeats<T(==)>(s: seq<T>) {
    |s| != |SetOf(s)|
  }

  /** A sequence repeats nothing exactly when it is as long as the set of its elements. */
  lemma {:induction false} DistinctBySize<T>(s: seq<T>)
    ensures |SetOf(s)| <= |s|
    ensures |SetOf(s)| == |s| <==> NoDuplicates(s)
  {
    if s != [] {
      var front, last := s[..|s| - 1], s[|s| - 1];
      DistinctBySize(front);
      assert s == front + [last];
      assert SetOf(s) == SetOf(front) + {last};
      if last in front {
        assert SetOf(s) == SetOf(front);
        var i :| 0 <= i < |front| && front[i] == last;
        assert s[i] == s[|s| - 1];
      } else {
        assert NoDuplicates(s) <==> NoDuplicates(front) by {
          if NoDuplicates(front) {
            forall i, j | 0 <= i < j < |s| ensures s[i] != s[j] {
              if j == |s| - 1 { assert s[i] == front[i]; } else { assert s[i] == front[i] && s[j] == front[j]; }
            }
          }
          if NoDuplicates(s) {
            forall i, j | 0 <= i < j < |front| ensures front[i] != front[j] {
              assert s[i] == front[i] && s[j] == front[j];
            }
          }
        }
      }
    }
  }

  /** The first position whose element qualifies, or the length when none does. */
  function IndexWhere<A>(p: A -> bool, s: seq<A>): (i: nat)
    ensures i <= |s| && (i < |s| ==> p(s[i]))
    ensures forall j :: 0 <= j < i ==> !p(s[j])
  {
    if s == [] || p(s[0]) then 0 else 1 + IndexWhere(p, s[1..])
  }

  lemma SubsetSize<T>(a: set<T>, b: set<T>)
    requires a <= b
    ensures |a| <= |b|
  {
    assert b == a + (b - a);
  }

  function Map<A, B>(f: A -> B, s: seq<A>): (r: seq<B>)
    ensures |r| == |s|
    ensures forall i :: 0 <= i < |s| ==> r[i] == f(s[i])
  {
    seq(|s|, i requires 0 <= i < |s| => f(s[i]))
  }

  function Filter<A>(p: A -> bool, s: seq<A>): (r: seq<A>)
    ensures forall x :: x in r ==> x in s && p(x)
    ensures forall x :: x in s && p(x) ==> x in r
  {
    if s == [] then []
    else
      var rest := Filter(p, s[..|s| - 1]);
      if p(s[|s| - 1]) then rest + [s[|s| - 1]] else rest
  }

  /** Where the elements qualify. */
  function Positions<A>(p: A -> bool, s: seq<A>): set<nat> { set i: nat | i < |s| && p(s[i]) }

  lemma {:induction false} FilterSize<A>(p: A -> bool, s: seq<A>)
    ensures |Filter(p, s)| == |Positions(p, s)|
  {
    if s != [] {
      var n := |s| - 1;
      FilterSize(p, s[..n]);
      assert Positions(p, s) == Positions(p, s[..n]) + if p(s[n]) then {n} else {};
    }
  }

  /** A permutation of a sequence still permutes it once the same element is taken out of both. */
  lemma WithoutOne<A>(front: seq<A>, x: A, b: seq<A>, k: nat)
    requires multiset(front + [x]) == multiset(b) && k < |b| && b[k] == x
    ensures multiset(front) == multiset(b[..k] + b[k + 1..])
  {
    var before, after := b[..k], b[k + 1..];
    assert b == before + [x] + after;
    assert multiset(front + [x]) == multiset(front) + multiset{x};
    assert multiset(b) == multiset(before) + multiset{x} + multiset(after);
    assert multiset(before + after) == multiset(before) + multiset(after);
    forall y ensures multiset(front)[y] == multiset(before + after)[y] {
      assert multiset(front + [x])[y] == multiset(b)[y];
    }
  }

  lemma MapWithoutOne<A, B>(f: A -> B, s: seq<A>, k: nat)
    requires k < |s|
    ensures multiset(Map(f, s)) == multiset(Map(f, s[..k] + s[k + 1..])) + multiset{f(s[k])}
  {
    var before, after := Map(f, s[..k]), Map(f, s[k + 1..]);
    assert Map(f, s) == before + [f(s[k])] + after;
    assert Map(f, s[..k] + s[k + 1..]) == before + after;
  }

  lemma {:induction false} MapOfPermutation<A, B>(f: A -> B, a: seq<A>, b: seq<A>)
    requires multiset(a) == multiset(b)
    ensures multiset(Map(f, a)) == multiset(Map(f, b))
  {
    if a == [] {
      assert |multiset(b)| == |b|;
    } else {
      hide Map;
      var front, x := a[..|a| - 1], a[|a| - 1];
      assert a == front + [x] && x in multiset(a);
      var k :| 0 <= k < |b| && b[k] == x;
      WithoutOne(front, x, b, k);
      MapOfPermutation(f, front, b[..k] + b[k + 1..]);
      assert a[..|a| - 1] + a[|a|..] == front;
      MapWithoutOne(f, a, |a| - 1);
      MapWithoutOne(f, b, k);
    }
  }

  lemma {:induction false} FilterCounts<A>(p: A -> bool, s: seq<A>)
    ensures |Filter(p, s)| == multiset(Map(p, s))[true]
  {
    if s != [] {
      var front := s[..|s| - 1];
      FilterCounts(p, front);
      assert Map(p, s) == Map(p, front) + [p(s[|s| - 1])];
    }
  }

  lemma FilterOfPermutation<A>(p: A -> bool, a: seq<A>, b: seq<A>)
    requires multiset(a) == multiset(b)
    ensures |Filter(p, a)| == |Filter(p, b)|
  {
    FilterCounts(p, a);
    FilterCounts(p, b);
    MapOfPermutation(p, a, b);
  }
}
