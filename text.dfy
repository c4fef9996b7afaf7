/** Decimal rendering and parsing, as JavaScript's template literals,
    `Number(...)` on decimal texts, `padStart` and `split` do them. */
module Text {
  import opened Wrappers

  predicate IsDigit(c: char) {
    '0' <= c <= '9'
  }

  predicate AllDigits(s: string) {
    forall i :: 0 <= i < |s| ==> IsDigit(s[i])
  }

  function DigitChar(d: nat): (c: char)
    requires d < 10
    ensures IsDigit(c) && c as int - '0' as int == d
  {
    ('0' as int + d) as char
  }

  /** The decimal digits of n, most significant first, without leading zeros. */
  function NatToString(n: nat): (s: string)
    ensures 1 <= |s| && AllDigits(s)
    ensures |s| == 1 <==> n < 10
    decreases n
  {
    if n < 10 then [DigitChar(n)] else NatToString(n / 10) + [DigitChar(n % 10)]
  }

  /** `${i}` for an integer i. */
  function IntToString(i: int): (s: string)
    ensures 1 <= |s|
    ensures i >= 0 ==> AllDigits(s)
    ensures i < 0 ==> s[0] == '-'
  {
    if i < 0 then "-" + NatToString(-i) else NatToString(i)
  }

  /** A string of digits holds no other character. */
  lemma DigitsExclude(s: string, c: char)
    requires AllDigits(s) && !IsDigit(c)
    ensures c !in s
  {
    forall i | 0 <= i < |s| ensures s[i] != c {
      assert IsDigit(s[i]);
    }
  }

  /** The text of an integer holds only digits and a leading minus sign. */
  lemma IntToStringExcludes(i: int, c: char)
    requires !IsDigit(c) && c != '-'
    ensures c !in IntToString(i)
  {
    var digits := NatToString(if i < 0 then -i else i);
    DigitsExclude(digits, c);
    if i < 0 {
      assert IntToString(i) == "-" + digits;
    }
  }

  /** The value of a string of decimal digits; the empty string is 0, as
      `Number("")` is. */
  function DigitsValue(s: string): nat
    requires AllDigits(s)
  {
    if s == [] then 0 else DigitsValue(s[..|s| - 1]) * 10 + (s[|s| - 1] as int - '0' as int)
  }

  /** Parsing undoes rendering. */
  lemma {:induction false} DigitsValueOfNatToString(n: nat)
    ensures DigitsValue(NatToString(n)) == n
    decreases n
  {
    if n >= 10 {
      var s := NatToString(n);
      assert s[..|s| - 1] == NatToString(n / 10);
      DigitsValueOfNatToString(n / 10);
    }
  }

  /** Rendering is injective: different numbers have different texts. */
  lemma NatToStringInjective(m: nat, n: nat)
    requires NatToString(m) == NatToString(n)
    ensures m == n
  {
    DigitsValueOfNatToString(m);
    DigitsValueOfNatToString(n);
  }

  /** Leading zeros do not change the value. */
  lemma {:induction false} DigitsValueLeadingZero(s: string)
    requires AllDigits(s)
    ensures AllDigits("0" + s) && DigitsValue("0" + s) == DigitsValue(s)
    decreases |s|
  {
    if s != [] {
      assert ("0" + s)[..|s|] == "0" + s[..|s| - 1];
      DigitsValueLeadingZero(s[..|s| - 1]);
    }
  }

  /** Reads a decimal integer with an optional minus sign. */
  function ReadInt(s: string): Option<int> {
    if |s| >= 2 && s[0] == '-' && AllDigits(s[1..]) then Some(-(DigitsValue(s[1..]) as int))
    else if |s| >= 1 && AllDigits(s) then Some(DigitsValue(s))
    else None
  }

  /** Reading undoes `${i}`. */
  lemma ReadIntOfIntToString(i: int)
    ensures ReadInt(IntToString(i)) == Some(i)
  {
    var s := IntToString(i);
    if i < 0 {
      assert s[1..] == NatToString(-i);
      DigitsValueOfNatToString(-i);
    } else {
      assert IsDigit(s[0]);
      DigitsValueOfNatToString(i);
    }
  }

  /** `s.padStart(2, '0')`. */
  function PadStart2(s: string): (r: string)
    ensures |s| >= 2 ==> r == s
    ensures |s| < 2 ==> |r| == 2 && r[2 - |s|..] == s
    ensures forall i :: 0 <= i < 2 - |s| ==> r[i] == '0'
    decreases 2 - |s|
  {
    if |s| >= 2 then s else PadStart2(['0'] + s)
  }

  /** `s.split(sep)` for a one-character separator: the pieces between the
      separators, in order; a string without the separator is one piece. */
  function Split(s: string, sep: char): (pieces: seq<string>)
    ensures |pieces| >= 1
    ensures forall k :: 0 <= k < |pieces| ==> sep !in pieces[k]
    decreases |s|
  {
    if s == [] then [""]
    else
      var rest := Split(s[1..], sep);
      if s[0] == sep then [""] + rest
      else [[s[0]] + rest[0]] + rest[1..]
  }

  /** Joining the pieces with the separator gives the string back. */
  lemma {:induction false} SplitJoin(s: string, sep: char)
    ensures Join(Split(s, sep), sep) == s
    decreases |s|
  {
    if s != [] {
      SplitJoin(s[1..], sep);
    }
  }

  function Join(pieces: seq<string>, sep: char): string
    requires |pieces| >= 1
    decreases |pieces|
  {
    if |pieces| == 1 then pieces[0] else pieces[0] + [sep] + Join(pieces[1..], sep)
  }

  /** Splitting `a + sep + b`, where neither part holds the separator, gives the two parts. */
  lemma SplitTwo(a: string, b: string, sep: char)
    requires sep !in a && sep !in b
    ensures Split(a + [sep] + b, sep) == [a, b]
    decreases |a|
  {
    if a == [] {
      assert [sep] + b == a + [sep] + b;
      SplitNoSep(b, sep);
      assert ([sep] + b)[1..] == b;
    } else {
      assert (a + [sep] + b)[1..] == a[1..] + [sep] + b;
      SplitTwo(a[1..], b, sep);
      assert [a[0]] + a[1..] == a;
    }
  }

  lemma {:induction false} SplitNoSep(s: string, sep: char)
    requires sep !in s
    ensures Split(s, sep) == [s]
    decreases |s|
  {
    if s != [] {
      assert sep !in s[1..];
      SplitNoSep(s[1..], sep);
      assert [s[0]] + s[1..] == s;
    }
  }

  // ---------------------------------------------------------------------------
  // What `Number(text)` reads

  /** JavaScript's white space and line terminators, which `Number` ignores
      around the literal. */
  predicate IsJsSpace(c: char) {
    c == ' ' || c == '\t' || c == '\n' || c == '\r' || c == '\U{000B}' || c == '\U{000C}' ||
    c == '\U{00A0}' || c == '\U{1680}' || ('\U{2000}' <= c <= '\U{200A}') || c == '\U{2028}' ||
    c == '\U{2029}' || c == '\U{202F}' || c == '\U{205F}' || c == '\U{3000}' || c == '\U{FEFF}'
  }

  predicate AllSpaces(s: string) {
    forall i :: 0 <= i < |s| ==> IsJsSpace(s[i])
  }

  /** The text without its leading blanks. */
  function TrimStart(s: string): (r: string)
    ensures |r| <= |s|
    ensures r == [] || !IsJsSpace(r[0])
    decreases |s|
  {
    if s != [] && IsJsSpace(s[0]) then TrimStart(s[1..]) else s
  }

  /** The text without its trailing blanks. */
  function TrimEnd(s: string): (r: string)
    ensures |r| <= |s|
    ensures r == [] || !IsJsSpace(r[|r| - 1])
    decreases |s|
  {
    if s != [] && IsJsSpace(s[|s| - 1]) then TrimEnd(s[..|s| - 1]) else s
  }

  /** Trimming the front keeps a suffix. */
  lemma {:induction false} TrimStartIsSuffix(s: string)
    ensures TrimStart(s) == s[|s| - |TrimStart(s)|..]
    decreases |s|
  {
    if s != [] && IsJsSpace(s[0]) {
      TrimStartIsSuffix(s[1..]);
    }
  }

  /** Trimming the back keeps a prefix. */
  lemma {:induction false} TrimEndIsPrefix(s: string)
    ensures TrimEnd(s) == s[..|TrimEnd(s)|]
    decreases |s|
  {
    if s != [] && IsJsSpace(s[|s| - 1]) {
      TrimEndIsPrefix(s[..|s| - 1]);
    }
  }

  function Trim(s: string): string {
    TrimEnd(TrimStart(s))
  }

  /** Leading blanks go, and nothing else does. */
  lemma {:induction false} TrimStartSpaces(u: string, t: string)
    requires AllSpaces(u) && (t == [] || !IsJsSpace(t[0]))
    ensures TrimStart(u + t) == t
    decreases |u|
  {
    if u != [] {
      assert (u + t)[1..] == u[1..] + t;
      TrimStartSpaces(u[1..], t);
    }
  }

  /** Trailing blanks go, and nothing else does. */
  lemma {:induction false} TrimEndSpaces(t: string, v: string)
    requires AllSpaces(v) && (t == [] || !IsJsSpace(t[|t| - 1]))
    ensures TrimEnd(t + v) == t
    decreases |v|
  {
    if v != [] {
      assert (t + v)[..|t + v| - 1] == t + v[..|v| - 1];
      TrimEndSpaces(t, v[..|v| - 1]);
    }
  }

  /** Trimming a text padded with blanks gives the text. */
  lemma {:induction false} TrimPadded(u: string, t: string, v: string)
    requires AllSpaces(u) && AllSpaces(v) && t != [] && !IsJsSpace(t[0]) && !IsJsSpace(t[|t| - 1])
    ensures Trim(u + t + v) == t
  {
    assert u + t + v == u + (t + v);
    TrimStartSpaces(u, t + v);
    TrimEndSpaces(t, v);
  }

  /** The digits after a decimal point, as tenths, hundredths and so on. */
  function FractionValue(s: string): (r: real)
    requires AllDigits(s)
    ensures 0.0 <= r < 1.0
  {
    if s == [] then 0.0 else ((s[0] as int - '0' as int) as real + FractionValue(s[1..])) / 10.0
  }

  predicate IsNumberChar(c: char) {
    IsDigit(c) || c == '.' || c == '+' || c == '-'
  }

  /** An unsigned decimal literal: digits, or digits around one point with a
      digit on at least one side ("5", "5.", ".5", "5.25"). */
  function UnsignedDecimal(s: string): (r: Option<real>)
    ensures r.Some? ==> r.value >= 0.0
    ensures r.Some? ==> s != [] && forall i :: 0 <= i < |s| ==> IsDigit(s[i]) || s[i] == '.'
  {
    var parts := Split(s, '.');
    if |parts| == 1 then
      if s != [] && AllDigits(s) then Some(DigitsValue(s) as real) else None
    else if |parts| == 2 && AllDigits(parts[0]) && AllDigits(parts[1]) && (parts[0] != [] || parts[1] != []) then
      SplitJoin(s, '.');
      assert s == parts[0] + ['.'] + parts[1];
      Some(DigitsValue(parts[0]) as real + FractionValue(parts[1]))
    else None
  }

  /** `Number(text)` on a decimal text: blanks around an optional sign and an
      unsigned decimal, and blanks alone are 0. None stands for NaN. */
  function JsNumber(text: string): (r: Option<real>)
    ensures Trim(text) == [] ==> r == Some(0.0)
    ensures r.Some? ==> forall i :: 0 <= i < |Trim(text)| ==> IsNumberChar(Trim(text)[i])
  {
    var t := Trim(text);
    if t == [] then Some(0.0)
    else
      var v := UnsignedDecimal(if t[0] == '+' || t[0] == '-' then t[1..] else t);
      if v.None? then None
      else if t[0] == '-' then Some(-v.value)
      else Some(v.value)
  }

  /** A text with no blank at either end is its own trim. */
  lemma {:induction false} TrimUnpadded(t: string)
    requires t != [] && !IsJsSpace(t[0]) && !IsJsSpace(t[|t| - 1])
    ensures Trim(t) == t
  {
    assert TrimStart(t) == t;
  }

  lemma {:induction false} UnsignedDigits(d: string)
    requires AllDigits(d) && d != []
    ensures UnsignedDecimal(d) == Some(DigitsValue(d) as real)
  {
    DigitsExclude(d, '.');
    SplitNoSep(d, '.');
  }

  /** A digit string, possibly padded with blanks, reads as its value. */
  lemma {:induction false} JsNumberOfDigits(u: string, d: string, v: string)
    requires AllSpaces(u) && AllSpaces(v) && AllDigits(d)
    ensures JsNumber(u + d + v) == Some(DigitsValue(d) as real)
  {
    if d == [] {
      assert u + d + v == u + v;
      TrimStartSpaces(u + v, []);
      assert u + v + [] == u + v;
    } else {
      TrimPadded(u, d, v);
      UnsignedDigits(d);
    }
  }

  /** The same, for a text known to be such a padding and a known value. */
  lemma {:induction false} JsNumberPadded(text: string, u: string, d: string, v: string, x: real)
    requires text == u + d + v && AllSpaces(u) && AllSpaces(v) && AllDigits(d)
    requires x == DigitsValue(d) as real
    ensures JsNumber(text) == Some(x) && ':' !in text
  {
    JsNumberOfDigits(u, d, v);
    DigitsExclude(d, ':');
    assert forall i :: 0 <= i < |u| ==> u[i] != ':';
    assert forall i :: 0 <= i < |v| ==> v[i] != ':';
  }

  /** An unpadded digit string reads as its value ("" as 0). */
  lemma {:induction false} JsNumberOfDigitString(d: string)
    requires AllDigits(d)
    ensures JsNumber(d) == Some(DigitsValue(d) as real)
  {
    JsNumberOfDigits([], d, []);
    assert [] + d + [] == d;
  }

  /** A sign in front of the digits. */
  lemma {:induction false} JsNumberSigned(d: string)
    requires AllDigits(d) && d != []
    ensures JsNumber("+" + d) == Some(DigitsValue(d) as real)
    ensures JsNumber("-" + d) == Some(-(DigitsValue(d) as real))
  {
    UnsignedDigits(d);
    var p, m := "+" + d, "-" + d;
    assert p[0] == '+' && p[1..] == d && IsDigit(p[|p| - 1]);
    assert m[0] == '-' && m[1..] == d && IsDigit(m[|m| - 1]);
    TrimUnpadded(p);
    TrimUnpadded(m);
  }

  lemma {:induction false} SplitAtPoint(a: string, b: string)
    requires AllDigits(a) && AllDigits(b)
    ensures Split(a + ['.'] + b, '.') == [a, b]
  {
    DigitsExclude(a, '.');
    DigitsExclude(b, '.');
    SplitTwo(a, b, '.');
  }

  lemma {:induction false} UnsignedFraction(a: string, b: string)
    requires AllDigits(a) && AllDigits(b) && a != [] && b != []
    ensures UnsignedDecimal(a + ['.'] + b) == Some(DigitsValue(a) as real + FractionValue(b))
  {
    SplitAtPoint(a, b);
  }

  /** Digits around a decimal point. */
  lemma {:induction false} JsNumberFraction(a: string, b: string)
    requires AllDigits(a) && AllDigits(b) && a != [] && b != []
    ensures JsNumber(a + "." + b) == Some(DigitsValue(a) as real + FractionValue(b))
  {
    var t := a + ['.'] + b;
    assert t[0] == a[0] && t[|t| - 1] == b[|b| - 1];
    TrimUnpadded(t);
    UnsignedFraction(a, b);
  }

  /** A signed digit text with a known value. */
  lemma {:induction false} JsNumberSignedText(text: string, sign: char, d: string, x: real)
    requires (sign == '+' || sign == '-') && text == [sign] + d && AllDigits(d) && d != []
    requires x == if sign == '-' then -(DigitsValue(d) as real) else DigitsValue(d) as real
    ensures JsNumber(text) == Some(x) && ':' !in text
  {
    JsNumberSigned(d);
    DigitsExclude(d, ':');
    if sign == '-' {
      assert text == "-" + d;
    } else {
      assert text == "+" + d;
    }
  }

  /** A decimal fraction text with a known value. */
  lemma {:induction false} JsNumberFractionText(text: string, a: string, b: string, x: real)
    requires text == a + "." + b && AllDigits(a) && AllDigits(b) && a != [] && b != []
    requires x == DigitsValue(a) as real + FractionValue(b)
    ensures JsNumber(text) == Some(x) && ':' !in text
  {
    JsNumberFraction(a, b);
    DigitsExclude(a, ':');
    DigitsExclude(b, ':');
    assert forall i :: 0 <= i < |text| ==> text[i] != ':' by {
      forall i | 0 <= i < |text| ensures text[i] != ':' {
        if i < |a| { assert text[i] == a[i]; }
        else if i > |a| { assert text[i] == b[i - |a| - 1]; }
      }
    }
  }

  /** `Number` reads back what `${n}` writes. */
  lemma {:induction false} JsNumberOfNatToString(n: nat)
    ensures JsNumber(NatToString(n)) == Some(n as real)
  {
    var digits := NatToString(n);
    assert IsDigit(digits[0]) && IsDigit(digits[|digits| - 1]);
    TrimUnpadded(digits);
    UnsignedDigits(digits);
    DigitsValueOfNatToString(n);
  }
}
