/** Orders on text and the sorted listings they determine. */
module Ordering {
  import opened Sequences

  /** Code-point order on strings. */
  predicate TextLeq(a: string, b: string) {
    a == "" || (b != "" && (a[0] < b[0] || (a[0] == b[0] && TextLeq(a[1..], b[1..]))))
  }

  lemma {:induction false} TextTotal(a: string, b: string)
    ensures TextLeq(a, b) || TextLeq(b, a)
  {
    if a != "" && b != "" && a[0] == b[0] { TextTotal(a[1..], b[1..]); }
  }

  lemma {:induction false} TextAntisymmetric(a: string, b: string)
    requires TextLeq(a, b) && TextLeq(b, a)
    ensures a == b
  {
    if a != "" { TextAntisymmetric(a[1..], b[1..]); }
  }

  lemma {:induction false} TextTransitive(a: string, b: string, c: string)
    requires TextLeq(a, b) && TextLeq(b, c)
    ensures TextLeq(a, c)
  {
    if a != "" && a[0] == b[0] && b[0] == c[0] { TextTransitive(a[1..], b[1..], c[1..]); }
  }

  /** Text comes first when it is the beginning of the other, or has the smaller character where they first differ. */
  lemma {:induction false} TextLeqMeans(a: string, b: string)
    ensures TextLeq(a, b) <==> a <= b || exists i :: FirstDifference(a, b, i) && a[i] < b[i]
  {
    if a != "" && b != "" && a[0] == b[0] {
      TextLeqMeans(a[1..], b[1..]);
      assert a <= b <==> a[1..] <= b[1..] by {
        assert a == [a[0]] + a[1..] && b == [b[0]] + b[1..];
      }
      if i :| FirstDifference(a[1..], b[1..], i) && a[1..][i] < b[1..][i] {
        forall j | 0 <= j < i + 1 ensures a[j] == b[j] { if j > 0 { assert a[1..][j - 1] == b[1..][j - 1]; } }
        assert FirstDifference(a, b, i + 1);
      }
      if i :| FirstDifference(a, b, i) && a[i] < b[i] {
        assert forall j :: 0 <= j < i - 1 ==> a[1..][j] == a[j + 1] && b[1..][j] == b[j + 1];
        assert FirstDifference(a[1..], b[1..], i - 1);
      }
    } else if a != "" && b != "" {
      assert a[0] != b[0] && FirstDifference(a, b, 0);
    }
  }

  predicate FirstDifference(a: string, b: string, i: int) {
    0 <= i < |a| && i < |b| && a[i] != b[i] && forall j :: 0 <= j < i ==> a[j] == b[j]
  }

  predicate Ascending(s: seq<string>) {
    forall i, j :: 0 <= i < j < |s| ==> TextLeq(s[i], s[j]) && s[i] != s[j]
  }

  function Insert(x: string, s: seq<string>): (r: seq<string>)
    ensures forall y :: y in r <==> y == x || y in s
  {
    if s == [] || TextLeq(x, s[0]) then [x] + s else [s[0]] + Insert(x, s[1..])
  }

  lemma {:induction false} InsertKeepsAscending(x: string, s: seq<string>)
    requires Ascending(s) && x !in s
    ensures Ascending(Insert(x, s))
  {
    if s == [] {
    } else if TextLeq(x, s[0]) {
      forall j | 0 <= j < |s| ensures TextLeq(x, s[j]) {
        if j > 0 { TextTransitive(x, s[0], s[j]); }
      }
    } else {
      TextTotal(x, s[0]);
      InsertKeepsAscending(x, s[1..]);
      var r := Insert(x, s[1..]);
      forall j | 0 <= j < |r| ensures TextLeq(s[0], r[j]) && s[0] != r[j] {
        assert r[j] in r;
        if r[j] != x { var k :| 0 <= k < |s[1..]| && s[1..][k] == r[j]; assert s[k + 1] == r[j]; }
      }
    }
  }

  /** The keys in ascending order. */
  method SortedKeys(keys: set<string>) returns (s: seq<string>)
    ensures Ascending(s) && SetOf(s) == keys
  {
    s := [];
    var todo := keys;
    while todo != {}
      invariant todo <= keys && Ascending(s) && SetOf(s) == keys - todo
      decreases todo
    {
      var x :| x in todo;
      assert x !in SetOf(s);
      InsertKeepsAscending(x, s);
      assert SetOf(Insert(x, s)) == SetOf(s) + {x};
      s, todo := Insert(x, s), todo - {x};
    }
  }

  lemma SomethingListed(s: seq<string>)
    requires s != []
    ensures SetOf(s) != {}
  {
    assert s[0] in SetOf(s);
  }

  /** A set has only one ascending listing. */
  lemma {:induction false} AscendingIsUnique(a: seq<string>, b: seq<string>)
    requires Ascending(a) && Ascending(b) && SetOf(a) == SetOf(b)
    ensures a == b
  {
    if a == [] {
      if b != [] { SomethingListed(b); }
    } else {
      assert a[0] in SetOf(a) && a[0] in b;
      assert b != [] && b[0] in SetOf(b) && b[0] in a;
      var i :| 0 <= i < |b| && b[i] == a[0];
      var j :| 0 <= j < |a| && a[j] == b[0];
      if i > 0 && j > 0 { TextAntisymmetric(a[0], b[0]); }
      assert a[0] == b[0];
      forall x ensures x in SetOf(a[1..]) <==> x in SetOf(a) && x != a[0] { Rest(a, x); }
      forall x ensures x in SetOf(b[1..]) <==> x in SetOf(b) && x != b[0] { Rest(b, x); }
      AscendingIsUnique(a[1..], b[1..]);
    }
  }

  lemma Rest(s: seq<string>, x: string)
    requires Ascending(s) && s != []
    ensures x in SetOf(s[1..]) <==> x in SetOf(s) && x != s[0]
  {
    if x in s[1..] {
      var i :| 0 <= i < |s[1..]| && s[1..][i] == x;
      assert s[i + 1] == x;
    }
    if x in s && x != s[0] {
      var i :| 0 <= i < |s| && s[i] == x;
      assert s[1..][i - 1] == x;
    }
  }

  lemma {:induction false} SelectionAscends(p: string -> bool, s: seq<string>)
    requires Ascending(s)
    ensures Ascending(Filter(p, s))
  {
    hide TextLeq;
    if s != [] {
      var front := s[..|s| - 1];
      SelectionAscends(p, front);
      forall x | x in Filter(p, front) ensures TextLeq(x, s[|s| - 1]) && x != s[|s| - 1] {
        var i :| 0 <= i < |front| && front[i] == x;
      }
      assert forall i :: 0 <= i < |Filter(p, front)| ==> Filter(p, front)[i] in Filter(p, front);
    }
  }
}
