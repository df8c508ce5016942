/** The versioned `aw1:` identity key of an opportunity. */
module Identity {
  import opened Wrappers
  import opened Domain
  import opened Validation
  import opened Percent

  const KEY_PREFIX := "aw1:"

  function Quote(s: string): string { Escape(Utf8.Encode(s)) }

  function EncodeKey(u: Unicode, k: LotKey): Option<string> {
    var auction, lot := ExternalId(u, k.auction), ExternalId(u, k.lot);
    if !Slug(k.source) || auction.None? || lot.None? then None
    else Some(KEY_PREFIX + Quote(k.source) + ":" + Quote(auction.value) + ":" + Quote(lot.value))
  }

  function Split(s: string): (parts: seq<string>)
    ensures parts != []
  {
    if s == "" then [""]
    else
      var rest := Split(s[1..]);
      if s[0] == ':' then [""] + rest else [[s[0]] + rest[0]] + rest[1..]
  }

  /** One non-empty component, or nothing when its escapes or its UTF-8 are malformed. */
  function DecodeComponent(c: string): Option<string> {
    if c == "" || !Escaped(c) then None
    else
      var text := Utf8.Decode(Unescape(c));
      if text == Some("") then None else text
  }

  function DecodeKey(u: Unicode, key: string): Option<LotKey> {
    if !(KEY_PREFIX <= key) then None
    else
      var parts := Split(key[|KEY_PREFIX|..]);
      if |parts| != 3 then None
      else
        var source, auction, lot := DecodeComponent(parts[0]), DecodeComponent(parts[1]), DecodeComponent(parts[2]);
        if source.None? || auction.None? || lot.None? then None
        else
          var k := LotKey(source.value, auction.value, lot.value);
          if EncodeKey(u, k) == Some(key) then Some(k) else None
  }

  lemma {:induction false} SplitPlain(s: string)
    requires ':' !in s
    ensures Split(s) == [s]
  {
    if s != "" {
      SplitPlain(s[1..]);
      assert s == [s[0]] + s[1..];
    }
  }

  lemma {:induction false} SplitFirst(first: string, rest: string)
    requires ':' !in first
    ensures Split(first + ":" + rest) == [first] + Split(rest)
  {
    var s := first + ":" + rest;
    if first == "" {
      assert s[1..] == rest;
    } else {
      SplitFirst(first[1..], rest);
      assert s[1..] == first[1..] + ":" + rest;
      assert first == [first[0]] + first[1..];
    }
  }

  lemma {:induction false} SplitPartsPlain(s: string)
    ensures forall p :: p in Split(s) ==> ':' !in p
    ensures |Split(s)| == 1 ==> s == Split(s)[0]
    ensures |Split(s)| > 1 ==> exists rest :: s == Split(s)[0] + ":" + rest && Split(rest) == Split(s)[1..]
  {
    if s != "" {
      SplitPartsPlain(s[1..]);
      var parts := Split(s[1..]);
      if s[0] == ':' {
        assert s == "" + ":" + s[1..];
      } else {
        assert s == [s[0]] + s[1..];
        if |parts| > 1 {
          var rest :| s[1..] == parts[0] + ":" + rest && Split(rest) == parts[1..];
          assert s == ([s[0]] + parts[0]) + ":" + rest;
        }
      }
    }
  }

  lemma SplitJoin(s: string)
    requires |Split(s)| == 3
    ensures s == Split(s)[0] + ":" + Split(s)[1] + ":" + Split(s)[2]
  {
    hide Split;
    var parts := Split(s);
    SplitPartsPlain(s);
    var rest :| s == parts[0] + ":" + rest && Split(rest) == parts[1..];
    SplitPartsPlain(rest);
    assert Split(rest)[0] == parts[1] && Split(rest)[1..] == [parts[2]];
    var last :| rest == parts[1] + ":" + last && Split(last) == [parts[2]];
    SplitPartsPlain(last);
    assert s == parts[0] + ":" + (parts[1] + ":" + parts[2]);
  }

  lemma QuoteDecodes(s: string)
    requires s != ""
    ensures DecodeComponent(Quote(s)) == Some(s)
    ensures ':' !in Quote(s) && Quote(s) != "" && Escaped(Quote(s)) && Canonical(Quote(s))
  {
    UnescapeEscape(Utf8.Encode(s));
    Utf8.DecodeEncode(s);
  }

  lemma ExternalIdIsIdempotent(u: Unicode, value: string)
    requires ExternalId(u, value).Some?
    ensures var id := ExternalId(u, value).value;
      id != "" && id == Strip(u, value) && Trimmed(u, id) && ExternalId(u, id) == Some(id)
  {
    StripTrims(u, value);
    StripTrims(u, Strip(u, value));
  }

  /** Three components without colons come back from the key they make. */
  lemma KeyParts(a: string, b: string, c: string)
    requires ':' !in a && ':' !in b && ':' !in c
    ensures var key := KEY_PREFIX + a + ":" + b + ":" + c;
      KEY_PREFIX <= key && Split(key[|KEY_PREFIX|..]) == [a, b, c]
  {
    hide Split;
    SplitFirst(a, b + ":" + c);
    SplitFirst(b, c);
    SplitPlain(c);
    var key, body := KEY_PREFIX + a + ":" + b + ":" + c, a + ":" + (b + ":" + c);
    assert key == KEY_PREFIX + body;
    assert key[|KEY_PREFIX|..] == body;
  }

  /** Decoding a key gives back the source and the trimmed ids it was made from. */
  lemma DecodeEncodedKey(u: Unicode, k: LotKey)
    requires EncodeKey(u, k).Some?
    ensures DecodeKey(u, EncodeKey(u, k).value)
         == Some(LotKey(k.source, Strip(u, k.auction), Strip(u, k.lot)))
  {
    ExternalIdIsIdempotent(u, k.auction);
    ExternalIdIsIdempotent(u, k.lot);
    var auction, lot := Strip(u, k.auction), Strip(u, k.lot);
    QuoteDecodes(k.source);
    QuoteDecodes(auction);
    QuoteDecodes(lot);
    KeyParts(Quote(k.source), Quote(auction), Quote(lot));
  }

  /** A key decodes to an identity exactly when it is that identity's own encoding and the
      identity is trimmed. */
  lemma DecodesOnlyItsEncoding(u: Unicode, key: string, k: LotKey)
    ensures DecodeKey(u, key) == Some(k) <==>
      EncodeKey(u, k) == Some(key) && Trimmed(u, k.auction) && Trimmed(u, k.lot)
  {
    if EncodeKey(u, k) == Some(key) {
      DecodeEncodedKey(u, k);
      StripTrims(u, k.auction);
      StripTrims(u, k.lot);
    }
  }

  /** Two identities share a key exactly when they agree after trimming. */
  lemma EncodingIsInjective(u: Unicode, a: LotKey, b: LotKey)
    requires EncodeKey(u, a).Some? && EncodeKey(u, b).Some?
    ensures EncodeKey(u, a) == EncodeKey(u, b) <==>
      a.source == b.source && Strip(u, a.auction) == Strip(u, b.auction) && Strip(u, a.lot) == Strip(u, b.lot)
  {
    DecodeEncodedKey(u, a);
    DecodeEncodedKey(u, b);
  }

  /** A component in the one accepted spelling: canonical escapes of well-formed UTF-8. */
  predicate CanonicalComponent(c: string) {
    DecodeComponent(c).Some? && Canonical(c)
  }

  lemma QuoteOfComponent(c: string)
    requires DecodeComponent(c).Some?
    ensures Quote(DecodeComponent(c).value) == c <==> Canonical(c)
  {
    Utf8.EncodeDecode(Unescape(c));
    EscapeUnescape(c);
  }

  predicate ValidTrimmedId(u: Unicode, id: string) {
    ExternalId(u, id) == Some(id)
  }

  /** Re-encoding decoded components gives back the key exactly when they are canonical and valid. */
  lemma KeyOfCanonicalParts(u: Unicode, body: string, k: LotKey)
    requires |Split(body)| == 3
    requires DecodeComponent(Split(body)[0]) == Some(k.source)
    requires DecodeComponent(Split(body)[1]) == Some(k.auction)
    requires DecodeComponent(Split(body)[2]) == Some(k.lot)
    ensures EncodeKey(u, k) == Some(KEY_PREFIX + body) <==>
      && Canonical(Split(body)[0]) && Canonical(Split(body)[1]) && Canonical(Split(body)[2])
      && Slug(k.source) && ValidTrimmedId(u, k.auction) && ValidTrimmedId(u, k.lot)
  {
    hide Canonical, Slug, ExternalId, Split, DecodeComponent, Quote;
    var parts := Split(body);
    SplitJoin(body);
    QuoteOfComponent(parts[0]);
    QuoteOfComponent(parts[1]);
    QuoteOfComponent(parts[2]);
    assert KEY_PREFIX + body == KEY_PREFIX + parts[0] + ":" + parts[1] + ":" + parts[2];
    if EncodeKey(u, k) == Some(KEY_PREFIX + body) {
      ExternalIdIsIdempotent(u, k.auction);
      ExternalIdIsIdempotent(u, k.lot);
      DecodeEncodedKey(u, k);
      var auction, lot := Strip(u, k.auction), Strip(u, k.lot);
      QuoteDecodes(auction);
      QuoteDecodes(lot);
      SourceIsPlain(k.source);
      KeyParts(Quote(k.source), Quote(auction), Quote(lot));
      assert (KEY_PREFIX + body)[|KEY_PREFIX|..] == body;
    }
  }

  lemma SourceIsPlain(source: string)
    requires Slug(source)
    ensures ':' !in Quote(source) && DecodeComponent(Quote(source)) == Some(source)
  {
    QuoteDecodes(source);
  }

  /** The accepted keys, without reference to the encoder: three canonical components that
      spell a slug and two valid trimmed ids. */
  lemma AcceptedKeys(u: Unicode, key: string)
    ensures DecodeKey(u, key).Some? <==>
      && KEY_PREFIX <= key
      && var parts := Split(key[|KEY_PREFIX|..]);
      && |parts| == 3
      && CanonicalComponent(parts[0]) && CanonicalComponent(parts[1]) && CanonicalComponent(parts[2])
      && Slug(DecodeComponent(parts[0]).value)
      && ValidTrimmedId(u, DecodeComponent(parts[1]).value)
      && ValidTrimmedId(u, DecodeComponent(parts[2]).value)
  {
    hide Canonical, Escaped, Slug, ExternalId, Split, EncodeKey;
    if KEY_PREFIX <= key {
      var body := key[|KEY_PREFIX|..];
      var parts := Split(body);
      assert key == KEY_PREFIX + body;
      if |parts| == 3 && DecodeComponent(parts[0]).Some? && DecodeComponent(parts[1]).Some?
         && DecodeComponent(parts[2]).Some? {
        var k := LotKey(DecodeComponent(parts[0]).value, DecodeComponent(parts[1]).value,
                        DecodeComponent(parts[2]).value);
        KeyOfCanonicalParts(u, body, k);
      }
    }
  }

  /** What a key looks like. */
  lemma KeyExample(u: Unicode)
    requires u.isSpace(' ') && forall c :: c in "7a:b" ==> !u.isSpace(c) && !u.isControl(c)
    requires !u.isControl(' ')
    ensures EncodeKey(u, LotKey("castells", " a 7", "a:b")) == Some("aw1:castells:a%207:a%3Ab")
  {
    hide Slug, Quote;
    StrippedExample(u);
    SlugExample();
    QuoteExamples();
    assert "aw1:" + "castells" + ":" + "a%207" + ":" + "a%3Ab" == "aw1:castells:a%207:a%3Ab";
  }

  lemma StrippedExample(u: Unicode)
    requires u.isSpace(' ') && forall c :: c in "7a:b" ==> !u.isSpace(c) && !u.isControl(c)
    requires !u.isControl(' ')
    ensures ExternalId(u, " a 7") == Some("a 7") && ExternalId(u, "a:b") == Some("a:b")
  {
    assert "7a:b"[0] == '7' && "7a:b"[1] == 'a' && "7a:b"[2] == ':' && "7a:b"[3] == 'b';
    assert " a 7"[1..] == "a 7" && StripLeft(u, "a 7") == "a 7" && StripRight(u, "a 7") == "a 7";
  }

  lemma SlugExample()
    ensures Slug("castells")
  {
  }

  lemma QuoteExamples()
    ensures Quote("castells") == "castells" && Quote("a 7") == "a%207" && Quote("a:b") == "a%3Ab"
  {
    hide Quote;
    PlainQuoted("castells");
    LettersQuoted();
    MarkQuoted();
    QuotedTogether("a", " 7");
    QuotedTogether(" ", "7");
    QuotedTogether("a", ":b");
    QuotedTogether(":", "b");
    assert "a" + " 7" == "a 7" && " " + "7" == " 7" && "a" + ":b" == "a:b" && ":" + "b" == ":b";
    assert "a" + ("%20" + "7") == "a%207" && "a" + ("%3A" + "b") == "a%3Ab";
  }

  lemma LettersQuoted()
    ensures Quote("a") == "a" && Quote("b") == "b" && Quote("7") == "7"
  {
    hide Quote;
    PlainQuoted("a");
    PlainQuoted("b");
    PlainQuoted("7");
  }

  lemma MarkQuoted()
    ensures Quote(" ") == "%20" && Quote(":") == "%3A"
  {
    assert " "[1..] == "" && ":"[1..] == "";
    assert Utf8.Encode(" ") == [0x20] && Utf8.Encode(":") == [0x3A];
    EscapeMeans(0x20);
    EscapeMeans(0x3A);
  }

  lemma {:induction false} PlainQuoted(s: string)
    requires forall c :: c in s ==> c < 0x80 as char && Unreserved(c)
    ensures Quote(s) == s
  {
    if s != "" {
      assert forall c :: c in s[1..] ==> c in s;
      PlainQuoted(s[1..]);
      QuotedTogether([s[0]], s[1..]);
      assert [s[0]] + s[1..] == s && [s[0]][1..] == "";
      assert s[0] in s;
      EscapeMeans(s[0] as int);
    }
  }

  lemma QuotedTogether(a: string, b: string)
    ensures Quote(a + b) == Quote(a) + Quote(b)
  {
    Utf8.EncodeBoth(a, b);
    EscapeBoth(Utf8.Encode(a), Utf8.Encode(b));
  }
}
