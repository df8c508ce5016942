/** Word-token containment over normalised text. */
module Normalization {
  import opened Sequences
  import opened Validation
  import opened Cleaning

  /** The program's `normalize_text`: case, accents, punctuation and spacing. */
  datatype Normalizer = Normalizer(text: string -> string)

  /** The maximal runs of non-blank characters. */
  function Words(s: string): (w: seq<string>)
    ensures forall t :: t in w ==> t != ""
  {
    if s == "" then []
    else if s[|s| - 1] == ' ' then Words(s[..|s| - 1])
    else
      var start := WordStart(s);
      Words(s[..start]) + [s[start..]]
  }

  /** Where the last word of a text that does not end in a blank begins. */
  function WordStart(s: string): (i: nat)
    requires s != "" && s[|s| - 1] != ' '
    ensures i < |s|
  {
    if |s| == 1 || s[|s| - 2] == ' ' then |s| - 1 else WordStart(s[..|s| - 1])
  }

  function Tokens(n: Normalizer, value: string): seq<string> { Words(n.text(value)) }

  predicate OccursAt(haystack: seq<string>, needle: seq<string>, i: nat) {
    i + |needle| <= |haystack| && haystack[i..i + |needle|] == needle
  }

  predicate ContainsTerm(n: Normalizer, text: string, term: string) {
    var haystack, needle := Tokens(n, text), Tokens(n, term);
    needle != [] && exists i :: 0 <= i <= |haystack| && OccursAt(haystack, needle, i)
  }

  /** A term occurs when its words stand one after the other somewhere among the words of the text. */
  lemma ContainsMeans(n: Normalizer, text: string, term: string)
    ensures ContainsTerm(n, text, term) <==>
      Words(n.text(term)) != []
      && exists before, after :: Words(n.text(text)) == before + Words(n.text(term)) + after
  {
    hide Words;
    var haystack, needle := Tokens(n, text), Tokens(n, term);
    if ContainsTerm(n, text, term) {
      var i :| 0 <= i <= |haystack| && OccursAt(haystack, needle, i);
      assert haystack == haystack[..i] + needle + haystack[i + |needle|..];
    }
    if before, after :| haystack == before + needle + after {
      assert OccursAt(haystack, needle, |before|);
    }
  }

  /** Words are what the blanks leave: none in nothing, one in a text without blanks, and those on either side of
      a blank. */
  lemma WordsMeans(a: string, b: string)
    ensures Words("") == []
    ensures a != "" && ' ' !in a ==> Words(a) == [a]
    ensures Words(a + " " + b) == Words(a) + Words(b)
  {
    hide WordStart;
    if a != "" && ' ' !in a { WordStartsAtOnce(a); }
    WordsAcross(a, b);
  }

  lemma {:induction false} WordsAcross(a: string, b: string)
    ensures Words(a + " " + b) == Words(a) + Words(b)
  {
    hide WordStart;
    var s := a + " " + b;
    if b == "" {
      assert s[..|s| - 1] == a && s[|s| - 1] == ' ';
    } else if b[|b| - 1] == ' ' {
      WordsAcross(a, b[..|b| - 1]);
      assert s[..|s| - 1] == a + " " + b[..|b| - 1] && s[|s| - 1] == ' ';
    } else {
      var i := WordStart(b);
      StartAfterBlank(a, b);
      assert s[|s| - 1] == b[|b| - 1];
      assert s[..|a| + 1 + i] == a + " " + b[..i] && s[|a| + 1 + i..] == b[i..];
      WordsAcross(a, b[..i]);
    }
  }

  lemma {:induction false} WordStartsAtOnce(a: string)
    requires a != "" && ' ' !in a
    ensures a[|a| - 1] != ' ' && WordStart(a) == 0
  {
    if |a| > 1 {
      assert a[|a| - 2] in a;
      WordStartsAtOnce(a[..|a| - 1]);
    }
  }

  lemma {:induction false} StartAfterBlank(a: string, b: string)
    requires b != "" && b[|b| - 1] != ' '
    ensures WordStart(a + " " + b) == |a| + 1 + WordStart(b)
  {
    var s := a + " " + b;
    if |b| > 1 && b[|b| - 2] != ' ' {
      assert s[..|s| - 1] == a + " " + b[..|b| - 1];
      StartAfterBlank(a, b[..|b| - 1]);
    }
  }

  // ----- Keeping the first spelling of every term

  function Readable(u: Unicode, value: string): string { Collapse(u, value) }

  function Norm(u: Unicode, n: Normalizer, value: string): string { n.text(Readable(u, value)) }

  function Norms(u: Unicode, n: Normalizer, values: seq<string>): (r: seq<string>)
    ensures |r| == |values|
  { Map((value: string) => Norm(u, n, value), values) }

  /** The first of the values that stands for a term the earlier ones do not. */
  predicate IsFirst(u: Unicode, n: Normalizer, values: seq<string>, i: nat) {
    i < |values| && Norm(u, n, values[i]) != "" && Norm(u, n, values[i]) !in Norms(u, n, values[..i])
  }

  /** Where the kept terms came from: exactly the first spellings, in order. */
  ghost predicate FirstSpellings(u: Unicode, n: Normalizer, values: seq<string>, kept: seq<string>, from: seq<nat>) {
    && |from| == |kept|
    && (forall k :: 0 <= k < |from| ==> IsFirst(u, n, values, from[k]) && kept[k] == Readable(u, values[from[k]]))
    && (forall k, l :: 0 <= k < l < |from| ==> from[k] < from[l])
    && (forall i: nat :: IsFirst(u, n, values, i) ==> i in from)
  }

  method DedupeTerms(u: Unicode, n: Normalizer, values: seq<string>)
    returns (kept: seq<string>)
    ensures exists from :: FirstSpellings(u, n, values, kept, from)
  {
    hide Norm, Readable;
    ghost var from: seq<nat> := [];
    kept := [];
    var seen: set<string> := {};
    for i := 0 to |values|
      invariant seen == set t | t in Norms(u, n, values[..i]) && t != ""
      invariant |from| == |kept| && forall k :: 0 <= k < |from| ==> from[k] < i
      invariant forall k :: 0 <= k < |from| ==>
        IsFirst(u, n, values, from[k]) && kept[k] == Readable(u, values[from[k]])
      invariant forall k, l :: 0 <= k < l < |from| ==> from[k] < from[l]
      invariant forall j: nat :: j < i && IsFirst(u, n, values, j) ==> j in from
    {
      assert Norms(u, n, values[..i + 1]) == Norms(u, n, values[..i]) + [Norm(u, n, values[i])];
      var term := Norm(u, n, values[i]);
      if term != "" && term !in seen {
        seen := seen + {term};
        kept, from := kept + [Readable(u, values[i])], from + [i];
      }
    }
    assert FirstSpellings(u, n, values, kept, from);
  }

  lemma {:induction false} FirstOfTerm(u: Unicode, n: Normalizer, values: seq<string>, i: nat) returns (j: nat)
    requires i < |values| && Norm(u, n, values[i]) != ""
    ensures j <= i && IsFirst(u, n, values, j) && Norm(u, n, values[j]) == Norm(u, n, values[i])
  {
    hide Norm;
    var before := Norms(u, n, values[..i]);
    if Norm(u, n, values[i]) in before {
      var k :| 0 <= k < |before| && before[k] == Norm(u, n, values[i]);
      j := FirstOfTerm(u, n, values, k);
    } else {
      j := i;
    }
  }

  /** Every term is kept exactly once, and no blank one is. */
  lemma KeptOnce(u: Unicode, n: Normalizer, values: seq<string>, kept: seq<string>, from: seq<nat>, term: string)
    requires FirstSpellings(u, n, values, kept, from) && term != "" && term in Norms(u, n, values)
    ensures exists k :: 0 <= k < |from| && Norm(u, n, values[from[k]]) == term
    ensures forall k, l :: 0 <= k < l < |from| ==> Norm(u, n, values[from[k]]) != Norm(u, n, values[from[l]])
  {
    hide Norm, Readable;
    var i :| 0 <= i < |values| && Norms(u, n, values)[i] == term;
    var j := FirstOfTerm(u, n, values, i);
    var k :| 0 <= k < |from| && from[k] == j;
    forall k, l | 0 <= k < l < |from| ensures Norm(u, n, values[from[k]]) != Norm(u, n, values[from[l]]) {
      assert from[k] < from[l];
      assert Norms(u, n, values[..from[l]])[from[k]] == Norm(u, n, values[from[k]]);
    }
  }
}
