/** Printing an amount as a price label, and reading amounts back from labels. */
module Prices {
  import opened Wrappers
  import opened Validation
  import opened Cleaning

  predicate IsDigit(c: char) { '0' <= c <= '9' }

  predicate AllDigits(s: string) { forall c :: c in s ==> IsDigit(c) }

  function DigitOf(d: nat): (c: char)
    requires d < 10
    ensures IsDigit(c) && ValueOf(c) == d
  { '0' + d as char }

  function ValueOf(c: char): nat
    requires IsDigit(c)
  { (c - '0') as nat }

  function Digits(n: nat): (s: string)
    ensures s != "" && AllDigits(s)
  {
    if n < 10 then [DigitOf(n)] else Digits(n / 10) + [DigitOf(n % 10)]
  }

  function Number(s: string): nat
    requires AllDigits(s)
  {
    if s == "" then 0 else 10 * Number(s[..|s| - 1]) + ValueOf(s[|s| - 1])
  }

  /** Digits in groups of three from the right. */
  function Group(s: string, separator: char): string {
    if |s| <= 3 then s else Group(s[..|s| - 3], separator) + [separator] + s[|s| - 3..]
  }

  /** `s.replace(old, "")` for one character. */
  function Without(s: string, c: char): string {
    if s == "" then "" else Without(s[..|s| - 1], c) + if s[|s| - 1] == c then "" else [s[|s| - 1]]
  }

  /** `s.replace(a, b)` for single characters. */
  function Swap(s: string, a: char, b: char): (r: string)
    ensures |r| == |s| && forall i :: 0 <= i < |s| ==> r[i] == if s[i] == a then b else s[i]
  {
    seq(|s|, i requires 0 <= i < |s| => if s[i] == a then b else s[i])
  }

  predicate Integral(v: real) { v == v.Floor as real }

  /** Hundredths, a tie going to the even neighbour. */
  function Cents(v: real): (c: nat)
    requires v >= 0.0
  {
    var scaled := v * 100.0;
    var low := scaled.Floor;
    var rest := scaled - low as real;
    if rest > 0.5 || (rest == 0.5 && low % 2 == 1) then low + 1 else low
  }

  function TwoDigits(n: nat): string
    requires n < 100
  { [DigitOf(n / 10), DigitOf(n % 10)] }

  /** Commas and points exchanged, by way of a placeholder. */
  function Exchange(s: string): (r: string)
    ensures |r| == |s| && forall i :: 0 <= i < |s| ==>
      r[i] == if s[i] == ',' || s[i] == '\0' then '.' else if s[i] == '.' then ',' else s[i]
  {
    Swap(Swap(Swap(s, ',', '\0'), '.', ','), '\0', '.')
  }

  /** Thousands with commas and decimals with a point, then the two separators exchanged. */
  function FormatAmount(v: real): string
    requires v >= 0.0
  {
    var raw := if Integral(v) then Group(Digits(v.Floor), ',')
               else Group(Digits(Cents(v) / 100), ',') + "." + TwoDigits(Cents(v) % 100);
    Exchange(raw)
  }

  function PriceLabel(v: real, currency: string): string
    requires v >= 0.0
  {
    if currency == "UYU" then "$ " + FormatAmount(v) else currency + " " + FormatAmount(v)
  }

  /** `s.replace("UYU", "")`. */
  function WithoutUyu(s: string): string {
    if s == "" then ""
    else if "UYU" <= s then WithoutUyu(s[3..])
    else [s[0]] + WithoutUyu(s[1..])
  }

  function Separators(raw: string): string {
    if ',' in raw && '.' in raw then Swap(Without(raw, '.'), ',', '.')
    else if ',' in raw then Swap(raw, ',', '.')
    else if '.' in raw && |AfterLast(raw, '.')| == 3 then Without(raw, '.')
    else raw
  }

  /** Reading an amount from clean text; `parse` is the decimal parser. */
  function DecimalValue(u: Unicode, parse: string -> Option<real>, text: string): Option<real> {
    var raw := Separators(Strip(u, WithoutUyu(Without(text, '$'))));
    match parse(raw)
    case Some(v) => if v >= 0.0 then Some(v) else None
    case None => None
  }

  /** The parser reads plain numerals as what they say, and no text with a blank inside. */
  ghost predicate ReadsNumerals(u: Unicode, parse: string -> Option<real>) {
    && u.isSpace(' ') && (forall c :: IsDigit(c) || 'A' <= c <= 'Z' ==> !u.isSpace(c))
    && (forall s :: Whole(s) ==> parse(s) == Some(Number(s) as real))
    && (forall s, t :: TwoPlaceNumeral(s, t) ==> ReadsAs(parse, s, t))
    && (forall s :: ' ' in s && Trimmed(u, s) ==> parse(s).None?)
  }

  predicate Whole(s: string) { s != "" && AllDigits(s) }

  predicate TwoPlaceNumeral(s: string, t: string) { Whole(s) && |t| == 2 && AllDigits(t) }

  predicate ReadsAs(parse: string -> Option<real>, s: string, t: string)
    requires TwoPlaceNumeral(s, t)
  {
    parse(s + "." + t) == Some(Number(s) as real + Number(t) as real / 100.0)
  }

  // ----- Digits and groups

  lemma {:induction false} NumberOfDigits(n: nat)
    ensures Number(Digits(n)) == n
  {
    if n >= 10 {
      NumberOfDigits(n / 10);
      assert Digits(n)[..|Digits(n)| - 1] == Digits(n / 10);
    }
  }

  lemma {:induction false} WithoutBoth(a: string, b: string, c: char)
    ensures Without(a + b, c) == Without(a, c) + Without(b, c)
  {
    if b == "" {
      assert a + b == a;
    } else {
      assert (a + b)[..|a + b| - 1] == a + b[..|b| - 1];
      WithoutBoth(a, b[..|b| - 1], c);
    }
  }

  lemma {:induction false} WithoutAbsent(s: string, c: char)
    requires c !in s
    ensures Without(s, c) == s
  {
    if s != "" { WithoutAbsent(s[..|s| - 1], c); }
  }

  lemma JoinedWithout(a: string, b: string)
    ensures Without(a + ['.'] + b, '.') == Without(a, '.') + Without(b, '.')
  {
    WithoutBoth(a + ['.'], b, '.');
    WithoutBoth(a, ['.'], '.');
    assert ['.'][..0] == "" && Without(['.'], '.') == "" + "";
  }

  /** Removing the separators undoes the grouping. */
  lemma {:induction false} UngroupGroup(s: string)
    requires AllDigits(s)
    ensures Without(Group(s, '.'), '.') == s
  {
    if |s| <= 3 {
      WithoutAbsent(s, '.');
    } else {
      var front, last := s[..|s| - 3], s[|s| - 3..];
      assert forall c :: c in front || c in last ==> c in s;
      UngroupGroup(front);
      WithoutAbsent(last, '.');
      JoinedWithout(Group(front, '.'), last);
    }
  }

  /** Grouping puts its separator before every third digit from the right, and nowhere else. */
  lemma {:induction false} GroupEveryThree(s: string, i: nat)
    requires AllDigits(s) && i < |Group(s, '.')|
    ensures var g := Group(s, '.'); g[|g| - 1 - i] == '.' <==> i % 4 == 3
  {
    if |s| <= 3 {
      assert s[|s| - 1 - i] in s;
    } else {
      var front, last := s[..|s| - 3], s[|s| - 3..];
      assert forall c :: c in front || c in last ==> c in s;
      if i >= 4 { GroupEveryThree(front, i - 4); }
      hide Group;
      var rest := Group(front, '.');
      assert Group(s, '.') == rest + ['.'] + last by { GroupOnce(s); }
      FromTheRight(rest, last, i);
    }
  }

  lemma GroupOnce(s: string)
    requires |s| > 3
    ensures Group(s, '.') == Group(s[..|s| - 3], '.') + ['.'] + s[|s| - 3..]
  {
  }

  lemma FromTheRight(rest: string, last: string, i: nat)
    requires |last| == 3 && AllDigits(last) && i < |rest| + 4
    ensures var g := rest + ['.'] + last;
      g[|g| - 1 - i] == if i < 3 then last[2 - i] else if i == 3 then '.' else rest[|rest| - 1 - (i - 4)]
    ensures i < 3 ==> last[2 - i] != '.'
  {
    if i < 3 { assert last[2 - i] in last; }
  }

  /** Cents are the nearest whole number of hundredths, and the even one of two that are equally near. */
  lemma CentsMeans(v: real)
    requires v >= 0.0
    ensures -0.5 <= v * 100.0 - Cents(v) as real <= 0.5
    ensures v * 100.0 - Cents(v) as real == 0.5 || v * 100.0 - Cents(v) as real == -0.5 ==> Cents(v) % 2 == 0
  {
  }

  lemma DigitsMean(n: nat)
    ensures Number(Digits(n)) == n && (Digits(n)[0] == '0' ==> n == 0)
  {
    NumberOfDigits(n);
    NoLeadingZero(n);
  }

  lemma {:induction false} NoLeadingZero(n: nat)
    ensures Digits(n)[0] == '0' ==> n == 0
  {
    if n >= 10 { NoLeadingZero(n / 10); }
  }

  predicate Plain(s: string) { ',' !in s && '.' !in s }

  /** How the two separators are read: with both, points group and the comma is decimal; a comma alone is decimal;
      a point alone groups when three digits follow it and is decimal otherwise. */
  lemma SeparatorsMean(a: string, b: string, c: string)
    requires Plain(a) && Plain(b) && Plain(c)
    ensures Separators(a) == a
    ensures Separators(a + "," + b) == a + "." + b
    ensures Separators(a + "." + b) == if |b| == 3 then a + b else a + "." + b
    ensures Separators(a + "." + b + "," + c) == a + b + "." + c
  {
    hide Without, AfterLast, Swap;
    PointGone(a, b);
    AfterPoint(a, b);
    CommaSwapped(a, b);
    CommaSwapped(a + b, c);
    var one, comma, both := a + "." + b, a + "," + b, a + "." + b + "," + c;
    assert one[|a|] == '.' && comma[|a|] == ',' && both[|a|] == '.' && both[|a| + 1 + |b|] == ',';
    assert both == a + "." + (b + "," + c) && a + (b + "," + c) == a + b + "," + c;
    PointGone(a, b + "," + c);
  }

  lemma CommaSwapped(a: string, b: string)
    requires Plain(a) && Plain(b)
    ensures Swap(a + "," + b, ',', '.') == a + "." + b
  {
    var s := a + "," + b;
    forall i | 0 <= i < |s| ensures Swap(s, ',', '.')[i] == (a + "." + b)[i] {
      if i < |a| { assert a[i] in a; } else if i > |a| { assert b[i - |a| - 1] in b; }
    }
  }

  lemma PointGone(a: string, b: string)
    requires '.' !in a && '.' !in b
    ensures Without(a + "." + b, '.') == a + b
  {
    JoinedWithout(a, b);
    WithoutAbsent(a, '.');
    WithoutAbsent(b, '.');
  }

  lemma {:induction false} AfterPoint(a: string, b: string)
    requires '.' !in b
    ensures AfterLast(a + "." + b, '.') == b
  {
    if b == "" {
      assert a + "." + b == a + ".";
    } else {
      var front := b[..|b| - 1];
      AfterPoint(a, front);
      assert (a + "." + b)[..|a + "." + b| - 1] == a + "." + front;
    }
  }

  lemma {:induction false} UyuGone(a: string, b: string)
    requires 'U' !in a
    ensures WithoutUyu(a + "UYU" + b) == a + WithoutUyu(b)
  {
    var s := a + "UYU" + b;
    if a == "" {
      assert s == "UYU" + b && "UYU" <= s && s[3..] == b;
    } else {
      assert a[0] in a && s[0] == a[0] && s[1..] == a[1..] + "UYU" + b;
      assert forall c :: c in a[1..] ==> c in a;
      UyuGone(a[1..], b);
    }
  }

  /** The local currency is taken out of an amount however it is written, and a negative one is none. */
  lemma LocalMarksIgnored(u: Unicode, parse: string -> Option<real>)
    requires u.isSpace(' ') && !u.isSpace('5')
    ensures DecimalValue(u, parse, "UYU 5") == DecimalValue(u, parse, "5") == DecimalValue(u, parse, "$ 5")
    ensures parse("5").Some? && parse("5").value < 0.0 ==> DecimalValue(u, parse, "5") == None
    ensures parse("5").Some? && parse("5").value >= 0.0 ==> DecimalValue(u, parse, "5") == parse("5")
  {
    hide Without, WithoutUyu, Separators, Strip;
    WithoutAbsent("UYU 5", '$');
    WithoutAbsent("5", '$');
    DollarGone("5");
    UyuGone("", " 5");
    assert "" + "UYU" + " 5" == "UYU 5" && "$ 5" == "$ " + "5";
    UyuFree(" 5");
    UyuFree("5");
    StripBlank(u, "5");
    StripTrims(u, "5");
    SeparatorsMean("5", "", "");
    assert "" + " 5" == " 5" && WithoutUyu("UYU 5") == " 5" && WithoutUyu("5") == "5";
    assert Strip(u, " " + "5") == "5" && " " + "5" == " 5" && Trimmed(u, "5") && Strip(u, "5") == "5";
    assert Separators("5") == "5";
  }

  predicate Grouped(s: string) { forall c :: c in s ==> IsDigit(c) || c == '.' }

  lemma {:induction false} GroupShape(s: string)
    requires AllDigits(s) && s != ""
    ensures Grouped(Group(s, '.')) && Group(s, '.') != "" && IsDigit(Group(s, '.')[0])
    ensures '.' in Group(s, '.') <==> |s| > 3
    ensures |s| > 3 ==> |AfterLast(Group(s, '.'), '.')| == 3
    ensures IsDigit(Group(s, '.')[|Group(s, '.')| - 1])
  {
    if |s| > 3 {
      var front, last := s[..|s| - 3], s[|s| - 3..];
      GroupShape(front);
      ThreeAfterPoint(Group(front, '.') + ".", last);
      assert '.' in Group(front, '.') + ".";
    }
  }

  lemma ThreeAfterPoint(a: string, last: string)
    requires a != "" && a[|a| - 1] == '.' && |last| == 3 && AllDigits(last)
    ensures |AfterLast(a + last, '.')| == 3
  {
    assert last[0] in last && last[1] in last && last[2] in last;
    OneAfterPoint(a, [last[0]]);
    assert a + last[..1] == a + [last[0]];
    AfterPointGrows(a + last[..1], last[1]);
    assert (a + last[..1]) + [last[1]] == a + last[..2];
    AfterPointGrows(a + last[..2], last[2]);
    assert (a + last[..2]) + [last[2]] == a + last;
  }

  lemma OneAfterPoint(a: string, d: string)
    requires a != "" && a[|a| - 1] == '.' && |d| == 1 && IsDigit(d[0])
    ensures AfterLast(a + d, '.') == d
  {
    AfterPointGrows(a, d[0]);
    assert a + [d[0]] == a + d && AfterLast(a, '.') == "";
  }

  lemma AfterPointGrows(s: string, c: char)
    requires c != '.'
    ensures AfterLast(s + [c], '.') == AfterLast(s, '.') + [c]
  {
    assert (s + [c])[..|s|] == s;
  }

  lemma {:induction false} SwapGroup(s: string)
    requires AllDigits(s)
    ensures Exchange(Group(s, ',')) == Group(s, '.')
  {
    hide Exchange;
    if |s| <= 3 {
      assert forall i :: 0 <= i < |s| ==> s[i] in s;
    } else {
      var front, last := s[..|s| - 3], s[|s| - 3..];
      assert forall c :: c in front || c in last ==> c in s;
      SwapGroup(front);
      assert forall i :: 0 <= i < |last| ==> last[i] in last;
      assert Exchange(Group(front, ',') + [','] + last) == Exchange(Group(front, ',')) + ['.'] + last;
    }
  }

  /** What an amount prints as: grouped whole part, and two decimals unless it is whole. */
  lemma FormattedAs(v: real)
    requires v >= 0.0
    ensures FormatAmount(v) ==
      if Integral(v) then Group(Digits(v.Floor), '.')
      else Group(Digits(Cents(v) / 100), '.') + "," + TwoDigits(Cents(v) % 100)
  {
    if Integral(v) {
      SwapGroup(Digits(v.Floor));
    } else {
      var whole, cents := Digits(Cents(v) / 100), TwoDigits(Cents(v) % 100);
      SwapGroup(whole);
      SwapTail(Group(whole, ','), cents);
    }
  }

  lemma SwapTail(a: string, cents: string)
    requires |cents| == 2 && AllDigits(cents)
    ensures Exchange(a + "." + cents) == Exchange(a) + "," + cents
  {
    hide Exchange;
    assert cents[0] in cents && cents[1] in cents;
  }

  // ----- Reading a label back

  lemma SeparatorsOfWhole(n: nat)
    ensures Separators(Group(Digits(n), '.')) == Digits(n)
  {
    var digits := Digits(n);
    GroupShape(digits);
    UngroupGroup(digits);
  }

  lemma SeparatorsOfCents(n: nat, t: string)
    requires |t| == 2 && AllDigits(t)
    ensures Separators(Group(Digits(n), '.') + "," + t) == Digits(n) + "." + t
  {
    hide Group, Without, Swap, Digits;
    var digits := Digits(n);
    var grouped := Group(digits, '.');
    GroupShape(digits);
    var raw := grouped + "," + t;
    assert raw[|grouped|] == ',';
    assert forall c :: c in t ==> IsDigit(c);
    assert raw == grouped + ("," + t);
    SwapComma(digits, t);
    if '.' in grouped {
      PointsGone(digits, "," + t);
    } else {
      NoPoints(digits);
    }
  }

  lemma PointsGone(digits: string, rest: string)
    requires AllDigits(digits) && '.' !in rest
    ensures Without(Group(digits, '.') + rest, '.') == digits + rest
  {
    hide Group;
    UngroupGroup(digits);
    WithoutBoth(Group(digits, '.'), rest, '.');
    WithoutAbsent(rest, '.');
  }

  lemma NoPoints(digits: string)
    requires AllDigits(digits) && '.' !in Group(digits, '.')
    ensures Group(digits, '.') == digits
  {
    UngroupGroup(digits);
    WithoutAbsent(Group(digits, '.'), '.');
  }

  lemma SwapComma(digits: string, t: string)
    requires AllDigits(digits) && |t| == 2 && AllDigits(t)
    ensures Swap(digits + "," + t, ',', '.') == digits + "." + t
  {
    assert forall i :: 0 <= i < |digits| ==> digits[i] in digits;
    assert t[0] in t && t[1] in t;
  }

  /** The amount printed: digits and separators between two digits. */
  predicate AmountText(a: string) {
    a != "" && IsDigit(a[0]) && IsDigit(a[|a| - 1]) && forall c :: c in a ==> IsDigit(c) || c == '.' || c == ','
  }

  lemma FormattedIsAmount(v: real)
    requires v >= 0.0
    ensures AmountText(FormatAmount(v))
  {
    FormattedAs(v);
    if Integral(v) {
      GroupShape(Digits(v.Floor));
    } else {
      var whole, t := Digits(Cents(v) / 100), TwoDigits(Cents(v) % 100);
      GroupShape(whole);
      assert forall c :: c in t ==> c == t[0] || c == t[1];
    }
  }

  lemma {:induction false} UyuFree(s: string)
    requires forall c :: c in s ==> c != 'U'
    ensures WithoutUyu(s) == s
  {
    if s != "" {
      assert s[0] in s && "UYU"[0] == 'U';
      assert forall c :: c in s[1..] ==> c in s;
      UyuFree(s[1..]);
    }
  }

  lemma DollarGone(a: string)
    requires '$' !in a
    ensures Without("$ " + a, '$') == " " + a
  {
    assert "$ " + a == "$" + (" " + a);
    WithoutBoth("$", " " + a, '$');
    WithoutAbsent(" " + a, '$');
    assert "$"[..0] == "" && Without("$", '$') == "";
  }

  lemma StripBlank(u: Unicode, a: string)
    requires u.isSpace(' ') && a != "" && Trimmed(u, a)
    ensures Strip(u, " " + a) == a
  {
    StripTrims(u, a);
    assert (" " + a)[1..] == a;
    assert StripLeft(u, " " + a) == StripLeft(u, a);
  }

  lemma LocalLabelStripped(u: Unicode, a: string)
    requires AmountText(a) && u.isSpace(' ') && forall c :: IsDigit(c) ==> !u.isSpace(c)
    ensures Strip(u, WithoutUyu(Without("$ " + a, '$'))) == a
  {
    hide Without, WithoutUyu, Strip;
    DollarGone(a);
    UyuFree(" " + a);
    StripBlank(u, a);
  }

  function Rounded(v: real): real
    requires v >= 0.0
  { if Integral(v) then v else Cents(v) as real / 100.0 }

  lemma SpacesAsUsual(u: Unicode, parse: string -> Option<real>)
    requires ReadsNumerals(u, parse)
    ensures u.isSpace(' ') && forall c :: IsDigit(c) ==> !u.isSpace(c)
  {
  }

  lemma ReadsWhole(u: Unicode, parse: string -> Option<real>, n: nat)
    requires ReadsNumerals(u, parse)
    ensures parse(Digits(n)) == Some(n as real)
  {
    NumberOfDigits(n);
    assert Whole(Digits(n));
  }

  lemma ReadsCents(u: Unicode, parse: string -> Option<real>, c: nat)
    requires ReadsNumerals(u, parse)
    ensures parse(Digits(c / 100) + "." + TwoDigits(c % 100)) == Some(c as real / 100.0)
  {
    hide Digits, Number, ReadsNumerals;
    var s, t := Digits(c / 100), TwoDigits(c % 100);
    NumberOfDigits(c / 100);
    NumberOfTwoDigits(c % 100);
    assert forall x :: x in t ==> IsDigit(x);
    assert TwoPlaceNumeral(s, t);
    ReadsOne(u, parse, s, t);
    TwoPlaces(c);
  }

  lemma ReadsOne(u: Unicode, parse: string -> Option<real>, s: string, t: string)
    requires ReadsNumerals(u, parse) && TwoPlaceNumeral(s, t)
    ensures ReadsAs(parse, s, t)
  {
  }

  lemma LocalLabelReads(u: Unicode, parse: string -> Option<real>, v: real)
    requires v >= 0.0 && ReadsNumerals(u, parse)
    ensures DecimalValue(u, parse, PriceLabel(v, "UYU")) == Some(Rounded(v))
  {
    hide FormatAmount, Strip, WithoutUyu, Without, Separators, AmountText, Integral, Cents, Group, ReadsNumerals;
    FormattedAs(v);
    FormattedIsAmount(v);
    SpacesAsUsual(u, parse);
    LocalLabelStripped(u, FormatAmount(v));
    if Integral(v) {
      SeparatorsOfWhole(v.Floor);
      WholeIsItself(v);
      ReadsWhole(u, parse, v.Floor);
    } else {
      SeparatorsOfCents(Cents(v) / 100, TwoDigits(Cents(v) % 100));
      ReadsCents(u, parse, Cents(v));
    }
  }

  lemma WholeIsItself(v: real)
    requires v >= 0.0 && Integral(v)
    ensures v.Floor >= 0 && v.Floor as real == v
  {
  }

  lemma TwoPlaces(c: nat)
    ensures (c / 100) as real + (c % 100) as real / 100.0 == c as real / 100.0
  {
    assert c == c / 100 * 100 + c % 100;
    assert c as real == (c / 100) as real * 100.0 + (c % 100) as real;
  }

  lemma NumberOfTwoDigits(n: nat)
    requires n < 100
    ensures Number(TwoDigits(n)) == n
  {
    var t := TwoDigits(n);
    assert t[..1] == [t[0]] && t[..1][..0] == "";
    assert Number(t[..1]) == ValueOf(t[0]);
  }

  predicate CurrencyCode(c: string) { |c| == 3 && forall i :: 0 <= i < 3 ==> 'A' <= c[i] <= 'Z' }

  lemma ForeignLabelKept(u: Unicode, currency: string, a: string)
    requires CurrencyCode(currency) && currency != "UYU" && AmountText(a)
    requires forall c :: IsDigit(c) || 'A' <= c <= 'Z' ==> !u.isSpace(c)
    ensures Strip(u, WithoutUyu(Without(currency + " " + a, '$'))) == currency + " " + a
  {
    hide Without, WithoutUyu, Strip;
    var text := currency + " " + a;
    assert forall c :: c in text ==> c != '$';
    WithoutAbsent(text, '$');
    UyuFree(" " + a);
    ForeignHasNoUyu(currency, " " + a);
    assert currency + (" " + a) == text;
    StripTrims(u, text);
  }

  lemma ForeignHasNoUyu(currency: string, rest: string)
    requires |currency| == 3 && currency != "UYU" && rest != "" && rest[0] == ' ' && WithoutUyu(rest) == rest
    ensures WithoutUyu(currency + rest) == currency + rest
  {
    hide WithoutUyu;
    assert currency[2..] + rest == [currency[2]] + rest;
    assert currency[1..] + rest == [currency[1]] + (currency[2..] + rest);
    assert currency + rest == [currency[0]] + (currency[1..] + rest);
    OneMoreLetter(currency[2], rest);
    OneMoreLetter(currency[1], currency[2..] + rest);
    OneMoreLetter(currency[0], currency[1..] + rest);
  }

  lemma OneMoreLetter(c: char, rest: string)
    requires |rest| >= 2 ==> !(c == 'U' && rest[0] == 'Y' && rest[1] == 'U')
    requires WithoutUyu(rest) == rest
    ensures WithoutUyu([c] + rest) == [c] + rest
  {
    var s := [c] + rest;
    StartsWithUyu(s);
    assert s[1..] == rest;
  }

  lemma StartsWithUyu(s: string)
    ensures "UYU" <= s <==> |s| >= 3 && s[0] == 'U' && s[1] == 'Y' && s[2] == 'U'
  {
  }

  lemma {:induction false} BlankStays(s: string)
    requires ' ' in s
    ensures ' ' in Without(s, '.')
  {
    if s[|s| - 1] != ' ' { BlankStays(s[..|s| - 1]); }
  }

  lemma {:induction false} WithoutKeepsStart(s: string, c: char)
    requires s != "" && s[0] != c
    ensures Without(s, c) != "" && Without(s, c)[0] == s[0]
  {
    if |s| > 1 { WithoutKeepsStart(s[..|s| - 1], c); }
  }

  /** Text between a letter and a digit keeps both, so it stays trimmed. */
  lemma SeparatorsKeepEnds(u: Unicode, raw: string)
    requires |raw| > 1 && raw[0] !in {'.', ','} && raw[|raw| - 1] !in {'.', ','}
    requires Trimmed(u, raw)
    ensures Trimmed(u, Separators(raw))
  {
    WithoutKeepsStart(raw, '.');
    var w := Without(raw, '.');
    assert w[|w| - 1] == raw[|raw| - 1];
  }

  lemma BlankSurvives(raw: string)
    requires ' ' in raw
    ensures ' ' in Separators(raw)
  {
    BlankStays(raw);
    var w := Without(raw, '.');
    var i :| 0 <= i < |w| && w[i] == ' ';
    assert Swap(w, ',', '.')[i] == ' ';
    var j :| 0 <= j < |raw| && raw[j] == ' ';
    assert Swap(raw, ',', '.')[j] == ' ';
  }

  /**
   * A printed price reads back as the very amount exactly when it is in local currency and has at most
   * two decimals; a label in another currency is never mistaken for an amount.
   */
  lemma LabelReadsBack(u: Unicode, parse: string -> Option<real>, v: real, currency: string)
    requires v >= 0.0 && ReadsNumerals(u, parse) && CurrencyCode(currency)
    ensures DecimalValue(u, parse, PriceLabel(v, currency)) == Some(v) <==> currency == "UYU" && Integral(v * 100.0)
    ensures currency == "UYU" ==>
      var read := DecimalValue(u, parse, PriceLabel(v, currency));
      read.Some? && -0.005 <= read.value - v <= 0.005
    ensures currency != "UYU" ==> DecimalValue(u, parse, PriceLabel(v, currency)).None?
  {
    if currency == "UYU" {
      LocalLabelReads(u, parse, v);
      RoundedExactly(v);
    } else {
      var a := FormatAmount(v);
      FormattedIsAmount(v);
      ForeignLabelKept(u, currency, a);
      var text := currency + " " + a;
      assert text[3] == ' ' && text[0] == currency[0] && text[|text| - 1] == a[|a| - 1];
      BlankSurvives(text);
      SeparatorsKeepEnds(u, text);
    }
  }

  lemma RoundedExactly(v: real)
    requires v >= 0.0
    ensures Rounded(v) == v <==> Integral(v * 100.0)
    ensures -0.005 <= Rounded(v) - v <= 0.005
  {
    var scaled := v * 100.0;
    var low := scaled.Floor;
    if Integral(v) {
      assert scaled == (v.Floor * 100) as real;
    }
  }

  /** What labels look like. */
  lemma LabelExamples()
    ensures PriceLabel(12345.0, "UYU") == "$ 12.345"
    ensures PriceLabel(1234.5, "USD") == "USD 1.234,50"
  {
    hide Digits, Group, FormatAmount;
    FormattedAs(12345.0);
    FormattedAs(1234.5);
    DigitExamples();
    GroupExamples();
    assert Cents(1234.5) == 123450 && TwoDigits(50) == "50";
  }

  lemma DigitExamples()
    ensures Digits(12345) == "12345" && Digits(1234) == "1234"
  {
    assert Digits(12) == "12" && Digits(123) == "123";
  }

  lemma GroupExamples()
    ensures Group("12345", '.') == "12.345" && Group("1234", '.') == "1.234"
  {
    assert "12345"[..2] == "12" && "12345"[2..] == "345" && Group("12", '.') == "12";
    assert "1234"[..1] == "1" && "1234"[1..] == "234" && Group("1", '.') == "1";
  }
}
