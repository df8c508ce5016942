/** Percent-encoding of byte strings, sections 2.1 and 2.3 of RFC 3986. */
module Percent {
  import opened Utf8

  predicate Unreserved(c: char) {
    'A' <= c <= 'Z' || 'a' <= c <= 'z' || '0' <= c <= '9' || c == '-' || c == '.' || c == '_' || c == '~'
  }

  predicate HexDigit(c: char) {
    '0' <= c <= '9' || 'A' <= c <= 'F' || 'a' <= c <= 'f'
  }

  predicate UpperHexDigit(c: char) {
    '0' <= c <= '9' || 'A' <= c <= 'F'
  }

  function HexValue(c: char): (v: int)
    requires HexDigit(c)
    ensures 0 <= v < 16
  {
    if c <= '9' then c as int - '0' as int
    else if c <= 'F' then c as int - 'A' as int + 10
    else c as int - 'a' as int + 10
  }

  function HexChar(v: int): (c: char)
    requires 0 <= v < 16
    ensures UpperHexDigit(c) && HexValue(c) == v
  {
    if v < 10 then ('0' as int + v) as char else ('A' as int + (v - 10)) as char
  }

  function EscapeByte(b: Byte): string {
    if b < 0x80 && Unreserved(b as char) then [b as char]
    else ['%', HexChar(b / 16), HexChar(b % 16)]
  }

  /** Every byte that is not an unreserved character becomes an upper-case escape. */
  function Escape(bytes: seq<Byte>): string {
    if bytes == [] then "" else EscapeByte(bytes[0]) + Escape(bytes[1..])
  }

  /** Repetitions of an unreserved character or an escape with hex digits of either case. */
  predicate Escaped(s: string) {
    s == "" ||
    if s[0] == '%' then |s| >= 3 && HexDigit(s[1]) && HexDigit(s[2]) && Escaped(s[3..])
    else Unreserved(s[0]) && Escaped(s[1..])
  }

  function Unescape(s: string): seq<Byte>
    requires Escaped(s)
  {
    if s == "" then []
    else if s[0] == '%' then [HexValue(s[1]) * 16 + HexValue(s[2])] + Unescape(s[3..])
    else [s[0] as int] + Unescape(s[1..])
  }

  /** Escapes are upper case and never stand for an unreserved character. */
  predicate Canonical(s: string)
    requires Escaped(s)
  {
    s == "" ||
    if s[0] == '%' then
      var b := HexValue(s[1]) * 16 + HexValue(s[2]);
      UpperHexDigit(s[1]) && UpperHexDigit(s[2]) && !(b < 0x80 && Unreserved(b as char)) && Canonical(s[3..])
    else Canonical(s[1..])
  }

  lemma {:induction false} UnescapeEscape(bytes: seq<Byte>)
    ensures Escaped(Escape(bytes)) && Unescape(Escape(bytes)) == bytes
    ensures Canonical(Escape(bytes))
    ensures ':' !in Escape(bytes)
    ensures bytes != [] ==> Escape(bytes) != ""
  {
    if bytes != [] {
      UnescapeEscape(bytes[1..]);
      var first, rest := EscapeByte(bytes[0]), Escape(bytes[1..]);
      assert Escape(bytes)[|first|..] == rest;
    }
  }

  lemma UpperHexIsUnique(c: char)
    requires HexDigit(c)
    ensures HexChar(HexValue(c)) == c <==> UpperHexDigit(c)
  {
  }

  /** Escaping again gives the same text exactly for canonical escapes. */
  lemma {:induction false} EscapeUnescape(s: string)
    requires Escaped(s)
    ensures Escape(Unescape(s)) == s <==> Canonical(s)
  {
    if s != "" {
      var bytes := Unescape(s);
      var width := if s[0] == '%' then 3 else 1;
      assert bytes[1..] == Unescape(s[width..]);
      EscapeUnescape(s[width..]);
      FirstEscape(s);
      hide EscapeByte, HexValue, UpperHexDigit, Unreserved;
      var first, rest := EscapeByte(bytes[0]), Escape(bytes[1..]);
      assert Escape(bytes) == first + rest && s == s[..width] + s[width..];
      if first == s[..width] {
        assert (first + rest)[width..] == rest && (first + s[width..])[width..] == s[width..];
      } else {
        assert |first| == 1 || |first| == width;
      }
    }
  }

  predicate FirstCanonical(s: string)
    requires s != "" && Escaped(s)
  {
    s[0] == '%' ==>
      var b := HexValue(s[1]) * 16 + HexValue(s[2]);
      UpperHexDigit(s[1]) && UpperHexDigit(s[2]) && !(b < 0x80 && Unreserved(b as char))
  }

  /** The first byte is spelt again as it was exactly when it was canonical. */
  lemma FirstEscape(s: string)
    requires s != "" && Escaped(s)
    ensures var first, width := EscapeByte(Unescape(s)[0]), if s[0] == '%' then 3 else 1;
      && (first == s[..width] <==> FirstCanonical(s))
      && (|first| == 3 || (|first| == 1 && first[0] != '%'))
      && (width == 1 ==> first == s[..1])
  {
    if s[0] == '%' {
      var b := Unescape(s)[0];
      UpperHexIsUnique(s[1]);
      UpperHexIsUnique(s[2]);
      assert b / 16 == HexValue(s[1]) && b % 16 == HexValue(s[2]);
    }
  }

  /** The characters that need no escape, and the digits of an escape. */
  lemma PlainCharacters(c: char)
    ensures Unreserved(c) <==>
      c in "ABCDEFGHIJKLMNOPQRSTUVWXYZ" || c in "abcdefghijklmnopqrstuvwxyz" || c in "0123456789" || c in "-._~"
  {
    Between(c, 'A', "ABCDEFGHIJKLMNOPQRSTUVWXYZ");
    Between(c, 'a', "abcdefghijklmnopqrstuvwxyz");
    Between(c, '0', "0123456789");
    var marks := "-._~";
    assert marks[0] == '-' && marks[1] == '.' && marks[2] == '_' && marks[3] == '~';
  }

  /** A run of consecutive characters holds what lies between its ends. */
  lemma Between(c: char, first: char, run: string)
    requires 0 < |run| <= 26 && first < 0x80 as char
    requires forall i :: 0 <= i < |run| ==> run[i] as int == first as int + i
    ensures c in run <==> first as int <= c as int < first as int + |run|
  {
    if first as int <= c as int < first as int + |run| { assert run[c as int - first as int] == c; }
  }

  /** Any other byte is written as a percent sign and two upper-case hexadecimal digits. */
  lemma EscapeMeans(b: Byte)
    ensures b < 0x80 && Unreserved(b as char) ==> Escape([b]) == [b as char]
    ensures !(b < 0x80 && Unreserved(b as char)) ==>
      Escape([b]) == ['%', "0123456789ABCDEF"[b / 16], "0123456789ABCDEF"[b % 16]]
  {
    assert [b][1..] == [];
    HexDigits(b / 16);
    HexDigits(b % 16);
  }

  lemma HexDigits(v: int)
    requires 0 <= v < 16
    ensures HexChar(v) == "0123456789ABCDEF"[v]
  {
  }

  lemma {:induction false} EscapeBoth(a: seq<Byte>, b: seq<Byte>)
    ensures Escape(a + b) == Escape(a) + Escape(b)
  {
    if a == [] {
      assert a + b == b;
    } else {
      assert (a + b)[1..] == a[1..] + b;
      EscapeBoth(a[1..], b);
    }
  }
}
