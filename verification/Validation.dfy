/** Shared validation of canonical slugs and opaque external identifiers. */
module Validation {
  import opened Wrappers

  /** The Unicode classes the program consults: white space and the C* categories. */
  datatype Unicode = Unicode(isSpace: char -> bool, isControl: char -> bool)

  predicate SlugChar(c: char) { 'a' <= c <= 'z' || '0' <= c <= '9' }

  /** Lower-case alphanumeric words joined by single hyphens. */
  predicate Slug(s: string) {
    && s != ""
    && (forall i :: 0 <= i < |s| ==> SlugChar(s[i]) || s[i] == '-')
    && (forall i :: 0 <= i < |s| && s[i] == '-' ==> 0 < i < |s| - 1 && s[i + 1] != '-')
  }

  function StripLeft(u: Unicode, s: string): string {
    if s != "" && u.isSpace(s[0]) then StripLeft(u, s[1..]) else s
  }

  function StripRight(u: Unicode, s: string): string {
    if s != "" && u.isSpace(s[|s| - 1]) then StripRight(u, s[..|s| - 1]) else s
  }

  function Strip(u: Unicode, s: string): string { StripRight(u, StripLeft(u, s)) }

  predicate Trimmed(u: Unicode, s: string) {
    s == "" || (!u.isSpace(s[0]) && !u.isSpace(s[|s| - 1]))
  }

  lemma {:induction false} StripRightKeepsStart(u: Unicode, s: string)
    ensures var r := StripRight(u, s);
      && |r| <= |s| && r == s[..|r|] && (r == "" || !u.isSpace(r[|r| - 1]))
  {
    if s != "" && u.isSpace(s[|s| - 1]) { StripRightKeepsStart(u, s[..|s| - 1]); }
  }

  lemma {:induction false} StripLeftStops(u: Unicode, s: string)
    ensures var r := StripLeft(u, s); r == "" || !u.isSpace(r[0])
  {
    if s != "" && u.isSpace(s[0]) { StripLeftStops(u, s[1..]); }
  }

  /** Stripping yields trimmed text and changes exactly what is not trimmed. */
  lemma StripTrims(u: Unicode, s: string)
    ensures Trimmed(u, Strip(u, s))
    ensures Strip(u, s) == s <==> Trimmed(u, s)
  {
    StripLeftStops(u, s);
    StripRightKeepsStart(u, StripLeft(u, s));
  }

  const MAX_EXTERNAL_ID_LENGTH := 256

  function ExternalId(u: Unicode, value: string): Option<string> {
    var cleaned := Strip(u, value);
    if cleaned == "" || |cleaned| > MAX_EXTERNAL_ID_LENGTH || exists c :: c in cleaned && u.isControl(c)
    then None else Some(cleaned)
  }

  /** Stripping takes white space off both ends, and nothing else. */
  lemma StripMeans(u: Unicode, s: string)
    ensures exists a, b ::
      s == a + Strip(u, s) + b && (forall c :: c in a ==> u.isSpace(c)) && (forall c :: c in b ==> u.isSpace(c))
  {
    var a := TakenLeft(u, s);
    var b := TakenRight(u, StripLeft(u, s));
    assert s == a + Strip(u, s) + b;
  }

  lemma {:induction false} TakenLeft(u: Unicode, s: string) returns (a: string)
    ensures s == a + StripLeft(u, s) && forall c :: c in a ==> u.isSpace(c)
  {
    a := "";
    if s != "" && u.isSpace(s[0]) {
      var rest := TakenLeft(u, s[1..]);
      a := [s[0]] + rest;
    }
  }

  lemma {:induction false} TakenRight(u: Unicode, s: string) returns (b: string)
    ensures s == StripRight(u, s) + b && forall c :: c in b ==> u.isSpace(c)
  {
    b := "";
    if s != "" && u.isSpace(s[|s| - 1]) {
      var rest := TakenRight(u, s[..|s| - 1]);
      b := rest + [s[|s| - 1]];
    }
  }

  /** An identifier is trimmed text of 1 to 256 characters without control characters. */
  lemma ExternalIdMeans(u: Unicode, value: string)
    ensures ExternalId(u, value).Some? <==>
      Strip(u, value) != "" && |Strip(u, value)| <= 256 && forall c :: c in Strip(u, value) ==> !u.isControl(c)
    ensures ExternalId(u, value).Some? ==> ExternalId(u, value).value == Strip(u, value)
  {
  }

  /** A slug consists of lower-case letters, digits and hyphens, which neither begin nor end it nor stand together. */
  lemma SlugMeans(s: string)
    ensures Slug(s) <==>
      && s != "" && s[0] != '-' && s[|s| - 1] != '-'
      && (forall c :: c in s ==> 'a' <= c <= 'z' || '0' <= c <= '9' || c == '-')
      && (forall i :: 0 <= i < |s| - 1 ==> s[i] != '-' || s[i + 1] != '-')
  {
    assert forall i :: 0 <= i < |s| ==> s[i] in s;
  }
}
