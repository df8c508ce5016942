/** White-space normalisation of text taken from a source. */
module Cleaning {
  import opened Validation

  /** The leading run of characters that are not white space. */
  function Word(u: Unicode, s: string): (w: string)
    ensures w <= s && forall c :: c in w ==> !u.isSpace(c)
    ensures s != "" && !u.isSpace(s[0]) ==> w != ""
  {
    if s == "" || u.isSpace(s[0]) then "" else [s[0]] + Word(u, s[1..])
  }

  /** The maximal runs of characters that are not white space. */
  function Fields(u: Unicode, s: string): (w: seq<string>)
    ensures forall f :: f in w ==> f != "" && forall c :: c in f ==> !u.isSpace(c)
  {
    if s == "" then []
    else if u.isSpace(s[0]) then Fields(u, s[1..])
    else [Word(u, s)] + Fields(u, s[|Word(u, s)|..])
  }

  function Joined(words: seq<string>): string {
    if words == [] then ""
    else if |words| == 1 then words[0]
    else words[0] + " " + Joined(words[1..])
  }

  /** `" ".join(text.split())`. */
  function Collapse(u: Unicode, s: string): string { Joined(Fields(u, s)) }

  /** `s.rsplit(c, 1)[-1]`. */
  function AfterLast(s: string, c: char): string {
    if s == "" || s[|s| - 1] == c then "" else AfterLast(s[..|s| - 1], c) + [s[|s| - 1]]
  }

  lemma {:induction false} JoinedEnds(u: Unicode, words: seq<string>)
    requires forall f :: f in words ==> f != "" && forall c :: c in f ==> !u.isSpace(c)
    ensures Trimmed(u, Joined(words))
    ensures words != [] ==> Joined(words) != ""
  {
    if words == [] {
    } else if |words| == 1 {
      assert words[0] in words;
    } else {
      assert words[0] in words;
      assert forall f :: f in words[1..] ==> f in words;
      JoinedEnds(u, words[1..]);
      assert words[0][0] in words[0];
      assert Joined(words)[0] == words[0][0];
    }
  }

  /** Collapsed text needs no further stripping, so an identifier equals the text it came from. */
  lemma CollapsedIdIsItself(u: Unicode, s: string)
    ensures Trimmed(u, Collapse(u, s))
    ensures ExternalId(u, Collapse(u, s)).Some? ==> ExternalId(u, Collapse(u, s)).value == Collapse(u, s)
  {
    JoinedEnds(u, Fields(u, s));
    StripTrims(u, Collapse(u, s));
  }

  /** The part after the last such character, or the whole text when there is none. */
  lemma {:induction false} AfterLastMeans(s: string, c: char)
    ensures var r := AfterLast(s, c);
      c !in r && (r == s || exists before :: s == before + [c] + r)
  {
    if s != "" && s[|s| - 1] != c {
      var front, rest := s[..|s| - 1], AfterLast(s[..|s| - 1], c);
      AfterLastMeans(front, c);
      if rest != front {
        var before :| front == before + [c] + rest;
        assert s == before + [c] + (rest + [s[|s| - 1]]);
      }
    } else if s != "" {
      assert s == s[..|s| - 1] + [c] + "";
    }
  }

  /** The runs of visible characters are those on either side of a blank; text without blanks is one run. */
  lemma {:induction false} FieldsMean(u: Unicode, a: string, c: char, b: string)
    requires u.isSpace(c)
    ensures Fields(u, a + [c] + b) == Fields(u, a) + Fields(u, b)
    decreases |a|
  {
    var s := a + [c] + b;
    if a == "" {
      assert s == [c] + b && s[1..] == b;
    } else if u.isSpace(a[0]) {
      assert s[1..] == a[1..] + [c] + b;
      FieldsMean(u, a[1..], c, b);
    } else {
      var w := Word(u, a);
      WordStops(u, a, [c] + b);
      assert a + ([c] + b) == s;
      assert s[|w|..] == a[|w|..] + [c] + b;
      FieldsMean(u, a[|w|..], c, b);
    }
  }

  lemma {:induction false} WordStops(u: Unicode, a: string, rest: string)
    requires rest != "" && u.isSpace(rest[0])
    ensures Word(u, a + rest) == Word(u, a)
  {
    if a != "" && !u.isSpace(a[0]) {
      WordStops(u, a[1..], rest);
      assert (a + rest)[1..] == a[1..] + rest;
    } else if a == "" {
      assert a + rest == rest;
    }
  }

  lemma {:induction false} OneField(u: Unicode, s: string)
    requires s != "" && forall c :: c in s ==> !u.isSpace(c)
    ensures Fields(u, s) == [s] && Collapse(u, s) == s
  {
    WholeWord(u, s);
    assert s[|s|..] == "";
  }

  lemma {:induction false} WholeWord(u: Unicode, s: string)
    requires forall c :: c in s ==> !u.isSpace(c)
    ensures Word(u, s) == s
  {
    if s != "" {
      assert s[0] in s && forall c :: c in s[1..] ==> c in s;
      WholeWord(u, s[1..]);
    }
  }

  /** Cleaned text has single blanks between its words and none at its ends. */
  lemma CollapseExample(u: Unicode)
    requires u.isSpace(' ') && !u.isSpace('a') && !u.isSpace('b')
    ensures Collapse(u, " a  b ") == "a b"
  {
    OneField(u, "a");
    OneField(u, "b");
    FieldsMean(u, "", ' ', "a  b ");
    FieldsMean(u, "a", ' ', " b ");
    FieldsMean(u, "", ' ', "b ");
    FieldsMean(u, "b", ' ', "");
    assert "" + [' '] + "a  b " == " a  b " && "a" + [' '] + " b " == "a  b " && "" + [' '] + "b " == " b ";
    assert "b" + [' '] + "" == "b " && Fields(u, "") == [];
    var words := Fields(u, " a  b ");
    assert words == ["a", "b"] && words[1..] == ["b"];
  }
}
