/** UTF-8 as section 3 of RFC 3629 defines it, with a strict decoder. */
module Utf8 {
  import opened Wrappers

  type Byte = b: int | 0 <= b < 0x100

  /** The numbers that are Unicode scalar values: no surrogates. */
  predicate IsScalar(n: int) {
    0 <= n < 0xD800 || 0xE000 <= n < 0x11_0000
  }

  // Continuation bytes carry six bits each.
  function High(n: nat): nat { n / 0x40 }
  function Low(n: nat): (r: nat)
    ensures r < 0x40
  { n % 0x40 }
  function Join(high: nat, low: nat): nat { high * 0x40 + low }

  lemma SplitJoin(high: nat, low: nat)
    requires low < 0x40
    ensures High(Join(high, low)) == high && Low(Join(high, low)) == low
  {
  }

  lemma JoinSplit(n: nat)
    ensures Join(High(n), Low(n)) == n
  {
  }

  function EncodeChar(c: char): (b: seq<Byte>)
    ensures 1 <= |b| <= 4
  {
    var n := c as int;
    if n < 0x80 then [n]
    else if n < 0x800 then [0xC0 + High(n), 0x80 + Low(n)]
    else if n < 0x1_0000 then [0xE0 + High(High(n)), 0x80 + Low(High(n)), 0x80 + Low(n)]
    else [0xF0 + High(High(High(n))), 0x80 + Low(High(High(n))), 0x80 + Low(High(n)), 0x80 + Low(n)]
  }

  function Encode(s: string): seq<Byte> {
    if s == "" then [] else EncodeChar(s[0]) + Encode(s[1..])
  }

  predicate Continues(b: Byte) { 0x80 <= b < 0xC0 }

  function Bits(b: Byte): nat
    requires Continues(b)
  { (b as int) - 0x80 }

  datatype Scalar = Scalar(c: char, width: nat)

  /** The first character, unless the bytes are truncated, overlong, a surrogate or out of range. */
  function DecodeFirst(b: seq<Byte>): (r: Option<Scalar>)
    requires b != []
    ensures r.Some? ==> 1 <= r.value.width <= |b|
  {
    var lead := b[0] as int;
    if lead < 0x80 then Some(Scalar(lead as char, 1))
    else if 0xC0 <= lead < 0xE0 && |b| >= 2 && Continues(b[1]) then
      Ranged(Join(lead - 0xC0, Bits(b[1])), 0x80, 2)
    else if 0xE0 <= lead < 0xF0 && |b| >= 3 && Continues(b[1]) && Continues(b[2]) then
      Ranged(Join(Join(lead - 0xE0, Bits(b[1])), Bits(b[2])), 0x800, 3)
    else if 0xF0 <= lead < 0xF8 && |b| >= 4 && Continues(b[1]) && Continues(b[2]) && Continues(b[3]) then
      Ranged(Join(Join(Join(lead - 0xF0, Bits(b[1])), Bits(b[2])), Bits(b[3])), 0x1_0000, 4)
    else None
  }

  function Ranged(n: int, least: int, width: nat): Option<Scalar> {
    if n >= least && IsScalar(n) then Some(Scalar(n as char, width)) else None
  }

  function Decode(b: seq<Byte>): Option<string> {
    if b == [] then Some("")
    else
      var first := DecodeFirst(b);
      if first.None? then None
      else
        var rest := Decode(b[first.value.width..]);
        if rest.None? then None else Some([first.value.c] + rest.value)
  }

  lemma HighBounds(n: nat, bound: nat)
    requires n < bound * 0x40
    ensures High(n) < bound
  {
  }

  lemma FirstOfEncoded(c: char, rest: seq<Byte>)
    ensures DecodeFirst(EncodeChar(c) + rest) == Some(Scalar(c, |EncodeChar(c)|))
  {
    hide Join, High, Low;
    var n, b := c as int, EncodeChar(c) + rest;
    JoinSplit(n);
    if n < 0x80 {
    } else if n < 0x800 {
      HighBounds(n, 0x20);
      assert Bits(b[1]) == Low(n);
    } else if n < 0x1_0000 {
      JoinSplit(High(n));
      HighBounds(n, 0x400);
      HighBounds(High(n), 0x10);
      assert Bits(b[1]) == Low(High(n)) && Bits(b[2]) == Low(n);
    } else {
      JoinSplit(High(n));
      JoinSplit(High(High(n)));
      HighBounds(n, 0x8000);
      HighBounds(High(n), 0x200);
      HighBounds(High(High(n)), 8);
      assert Bits(b[1]) == Low(High(High(n))) && Bits(b[2]) == Low(High(n)) && Bits(b[3]) == Low(n);
    }
  }

  lemma FirstIsShortest(b: seq<Byte>)
    requires b != [] && DecodeFirst(b).Some?
    ensures var first := DecodeFirst(b).value; EncodeChar(first.c) == b[..first.width]
  {
    hide Join, High, Low;
    var lead := b[0] as int;
    if 0xC0 <= lead < 0xE0 {
      SplitJoin(lead - 0xC0, Bits(b[1]));
      JoinBounds(lead - 0xC0, Bits(b[1]), 0x20);
    } else if 0xE0 <= lead < 0xF0 {
      var high := Join(lead - 0xE0, Bits(b[1]));
      SplitJoin(lead - 0xE0, Bits(b[1]));
      SplitJoin(high, Bits(b[2]));
      JoinBounds(lead - 0xE0, Bits(b[1]), 0x10);
      JoinBounds(high, Bits(b[2]), 0x400);
    } else if 0xF0 <= lead < 0xF8 {
      var high := Join(lead - 0xF0, Bits(b[1]));
      SplitJoin(lead - 0xF0, Bits(b[1]));
      SplitJoin(high, Bits(b[2]));
      SplitJoin(Join(high, Bits(b[2])), Bits(b[3]));
    }
  }

  lemma JoinBounds(high: nat, low: nat, bound: nat)
    requires high < bound && low < 0x40
    ensures Join(high, low) < bound * 0x40
  {
  }

  /** Decoding undoes encoding. */
  lemma {:induction false} DecodeEncode(s: string)
    ensures Decode(Encode(s)) == Some(s)
  {
    if s != "" {
      FirstOfEncoded(s[0], Encode(s[1..]));
      DecodeEncode(s[1..]);
      assert s == [s[0]] + s[1..];
      assert (EncodeChar(s[0]) + Encode(s[1..]))[|EncodeChar(s[0])|..] == Encode(s[1..]);
    }
  }

  /** The strict decoder accepts nothing but encodings. */
  lemma {:induction false} EncodeDecode(b: seq<Byte>)
    requires Decode(b).Some?
    ensures Encode(Decode(b).value) == b
  {
    hide DecodeFirst, EncodeChar;
    if b != [] {
      FirstIsShortest(b);
      var first := DecodeFirst(b).value;
      var rest := Decode(b[first.width..]).value;
      EncodeDecode(b[first.width..]);
      var s := [first.c] + rest;
      assert Decode(b).value == s && s[0] == first.c && s[1..] == rest;
      assert b == b[..first.width] + b[first.width..];
    }
  }

  /** One, two, three and four bytes: the examples of RFC 3629 and one astral character. */
  lemma Examples()
    ensures Encode("A") == [0x41]
    ensures Encode("\U{0391}") == [0xCE, 0x91]
    ensures Encode("\U{65E5}") == [0xE6, 0x97, 0xA5]
    ensures Encode("\U{233B4}") == [0xF0, 0xA3, 0x8E, 0xB4]
  {
    assert "A"[1..] == "" && "\U{0391}"[1..] == "" && "\U{65E5}"[1..] == "" && "\U{233B4}"[1..] == "";
  }

  lemma {:induction false} EncodeBoth(a: string, b: string)
    ensures Encode(a + b) == Encode(a) + Encode(b)
  {
    if a == "" {
      assert a + b == b;
    } else {
      assert (a + b)[1..] == a[1..] + b;
      EncodeBoth(a[1..], b);
    }
  }
}
