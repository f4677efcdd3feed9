/** The few pieces of Python's string and integer built-ins the work-log
    pipeline relies on: str.strip(), int(), f-string rendering of integers,
    string repetition and lower-casing. */
module Text {

  datatype Option<T> = None | Some(value: T)

  /** Python's str.isspace() for one character (the characters str.strip()
      removes when it is called without arguments). */
  predicate IsSpace(c: char) {
    var n := c as int;
    (9 <= n <= 13) || (28 <= n <= 32) || n == 0x85 || n == 0xA0 || n == 0x1680
    || (0x2000 <= n <= 0x200A) || n == 0x2028 || n == 0x2029 || n == 0x202F
    || n == 0x205F || n == 0x3000
  }

  predicate IsDigit(c: char) {
    '0' <= c <= '9'
  }

  predicate AllSpace(s: string) {
    forall i :: 0 <= i < |s| ==> IsSpace(s[i])
  }

  /** The number of whitespace characters s starts with. */
  function LeadingSpace(s: string): (n: nat)
    ensures n <= |s|
    ensures forall i :: 0 <= i < n ==> IsSpace(s[i])
    ensures n == |s| || !IsSpace(s[n])
  {
    if s != [] && IsSpace(s[0]) then 1 + LeadingSpace(s[1..]) else 0
  }

  /** The length of s without the whitespace it ends with. */
  function TrailingStart(s: string): (n: nat)
    ensures n <= |s|
    ensures forall i :: n <= i < |s| ==> IsSpace(s[i])
    ensures n == 0 || !IsSpace(s[n - 1])
  {
    if s != [] && IsSpace(s[|s| - 1]) then TrailingStart(s[..|s| - 1]) else |s|
  }

  /** s.lstrip() */
  function StripLeft(s: string): string {
    s[LeadingSpace(s)..]
  }

  /** s.rstrip() */
  function StripRight(s: string): string {
    s[..TrailingStart(s)]
  }

  /** s.strip() */
  function Strip(s: string): string {
    StripRight(StripLeft(s))
  }

  /** str.strip() returns the empty string exactly when its argument is all
      whitespace; otherwise its first and last characters are not whitespace,
      and it is the text between the whitespace it removed. */
  lemma StripSpec(s: string)
    ensures Strip(s) == [] <==> AllSpace(s)
    ensures Strip(s) != [] ==> !IsSpace(Strip(s)[0]) && !IsSpace(Strip(s)[|Strip(s)| - 1])
    ensures Strip(s) != [] ==>
      exists a, b ::
        && 0 <= a < b <= |s| && Strip(s) == s[a..b]
        && (forall i :: 0 <= i < a ==> IsSpace(s[i]))
        && (forall i :: b <= i < |s| ==> IsSpace(s[i]))
  {
    var a := LeadingSpace(s);
    var n := TrailingStart(s[a..]);
    StripMiddle(s, a, n);
    StripTail(s, a, n);
    if n == 0 {
      StripAllSpace(s, a);
    } else {
      assert s[a..][0] == s[a];
    }
  }

  /** What strip() keeps is s[a..a + n], where a counts the leading
      whitespace and n is what rstrip() keeps of the rest. */
  lemma StripMiddle(s: string, a: nat, n: nat)
    requires a == LeadingSpace(s) && n == TrailingStart(s[a..])
    ensures a + n <= |s| && Strip(s) == s[a..a + n]
  {
    TakeOfDrop(s, a, n);
  }

  lemma TakeOfDrop(s: string, a: nat, n: nat)
    requires a + n <= |s|
    ensures s[a..][..n] == s[a..a + n]
  {
  }

  /** What rstrip() removes after the leading whitespace is whitespace. */
  lemma StripTail(s: string, a: nat, n: nat)
    requires a == LeadingSpace(s) && n == TrailingStart(s[a..])
    ensures forall i :: a + n <= i < |s| ==> IsSpace(s[i])
  {
    SpaceAfter(s, s[a..], a, n);
  }

  lemma SpaceAfter(s: string, l: string, a: nat, n: nat)
    requires a <= |s| && l == s[a..]
    requires forall j :: n <= j < |l| ==> IsSpace(l[j])
    ensures forall i :: a + n <= i < |s| ==> IsSpace(s[i])
  {
    forall i | a + n <= i < |s|
      ensures IsSpace(s[i])
    {
      assert l[i - a] == s[i];
    }
  }

  lemma StripAllSpace(s: string, a: nat)
    requires a == LeadingSpace(s) && TrailingStart(s[a..]) == 0
    ensures AllSpace(s)
  {
    var l := s[a..];
    assert AllSpace(l);
    assert AllSpace(s[..a]);
    assert s == s[..a] + l;
    AllSpaceConcat(s[..a], l);
  }

  lemma AllSpaceConcat(a: string, b: string)
    requires AllSpace(a) && AllSpace(b)
    ensures AllSpace(a + b)
  {
    forall i | 0 <= i < |a + b|
      ensures IsSpace((a + b)[i])
    {
      if i < |a| {
        assert (a + b)[i] == a[i];
      } else {
        assert (a + b)[i] == b[i - |a|];
      }
    }
  }

  /** Strip of a text that neither starts nor ends with whitespace changes
      nothing. */
  lemma StripTrimmed(s: string)
    requires s == [] || (!IsSpace(s[0]) && !IsSpace(s[|s| - 1]))
    ensures Strip(s) == s
  {
    assert s[0..] == s;
    assert s[..|s|] == s;
  }

  /** Whitespace around a trimmed text is exactly what str.strip() removes. */
  lemma StripFramed(pre: string, s: string, post: string)
    requires AllSpace(pre) && AllSpace(post)
    requires s != [] && !IsSpace(s[0]) && !IsSpace(s[|s| - 1])
    ensures Strip(pre + s + post) == s
  {
    var t := pre + s + post;
    assert forall i :: 0 <= i < |pre| ==> t[i] == pre[i];
    assert t[|pre|] == s[0];
    assert LeadingSpace(t) == |pre|;
    var l := t[|pre|..];
    assert l == s + post;
    assert forall i :: |s| <= i < |l| ==> l[i] == post[i - |s|];
    assert l[|s| - 1] == s[|s| - 1];
    assert TrailingStart(l) == |s|;
    assert l[..|s|] == s;
  }

  function DigitValue(c: char): (v: nat)
    requires IsDigit(c)
    ensures v < 10
  {
    c as int - '0' as int
  }

  function DigitChar(v: nat): (c: char)
    requires v < 10
    ensures IsDigit(c) && DigitValue(c) == v
  {
    ('0' as int + v) as char
  }

  predicate AllDigits(s: string) {
    forall i :: 0 <= i < |s| ==> IsDigit(s[i])
  }

  /** Value of a string of decimal digits, most significant first. */
  function DigitsValue(s: string): nat
    requires AllDigits(s)
  {
    if s == [] then 0 else 10 * DigitsValue(s[..|s| - 1]) + DigitValue(s[|s| - 1])
  }

  /** The digits-and-underscores body that int() accepts after an optional
      sign: at least one digit, and every underscore sits between two digits. */
  predicate IsDecimalLiteral(u: string) {
    && |u| > 0
    && IsDigit(u[0]) && IsDigit(u[|u| - 1])
    && (forall i :: 0 <= i < |u| ==> IsDigit(u[i]) || u[i] == '_')
    && (forall i :: 0 < i < |u| ==> u[i] == '_' ==> u[i - 1] != '_')
  }

  function DropUnderscores(u: string): (r: string)
    ensures forall i :: 0 <= i < |r| ==> r[i] != '_'
    ensures forall i :: 0 <= i < |r| ==> r[i] in u
  {
    if u == [] then []
    else if u[0] == '_' then DropUnderscores(u[1..])
    else [u[0]] + DropUnderscores(u[1..])
  }

  lemma {:induction false} DropUnderscoresDigits(u: string)
    requires forall i :: 0 <= i < |u| ==> IsDigit(u[i]) || u[i] == '_'
    ensures AllDigits(DropUnderscores(u))
  {
    if u != [] {
      DropUnderscoresDigits(u[1..]);
    }
  }

  lemma LiteralDigits(u: string)
    requires IsDecimalLiteral(u)
    ensures AllDigits(DropUnderscores(u))
  {
    DropUnderscoresDigits(u);
  }

  /** int() of a digits-and-underscores body without a sign. */
  function UnsignedValue(u: string): (r: Option<nat>)
    ensures r.Some? <==> IsDecimalLiteral(u)
  {
    if IsDecimalLiteral(u) then
      LiteralDigits(u);
      Some(DigitsValue(DropUnderscores(u)))
    else None
  }

  /** int() of an already stripped text: an optional sign, then the body. */
  function SignedValue(s: string): Option<int> {
    if s != [] && s[0] == '-' then
      match UnsignedValue(s[1..])
      case None => None
      case Some(v) => Some(0 - v)
    else if s != [] && s[0] == '+' then
      match UnsignedValue(s[1..])
      case None => None
      case Some(v) => Some(v)
    else
      match UnsignedValue(s)
      case None => None
      case Some(v) => Some(v)
  }

  /** Python's int(t) for a str t, in base 10: None where int() raises
      ValueError. Only ASCII digits are modelled. */
  function PyInt(t: string): Option<int> {
    SignedValue(Strip(t))
  }

  /** Decimal digits of a natural number, as Python's str() writes it. */
  function NatToString(n: nat): (s: string)
    ensures |s| > 0 && AllDigits(s)
    ensures IsDigit(s[0]) && IsDigit(s[|s| - 1])
  {
    if n < 10 then [DigitChar(n)] else NatToString(n / 10) + [DigitChar(n % 10)]
  }

  /** f'{n}' for an int n. */
  function IntToString(n: int): (s: string)
    ensures |s| > 0 && s[0] != '+'
    ensures s[0] == '-' <==> n < 0
  {
    if n < 0 then "-" + NatToString(-n) else NatToString(n)
  }

  lemma {:induction false} NatToStringValue(n: nat)
    ensures DigitsValue(NatToString(n)) == n
  {
    if n >= 10 {
      NatToStringValue(n / 10);
      var s := NatToString(n);
      assert s[..|s| - 1] == NatToString(n / 10);
    }
  }

  lemma {:induction false} DropUnderscoresNone(u: string)
    requires forall i :: 0 <= i < |u| ==> u[i] != '_'
    ensures DropUnderscores(u) == u
  {
    if u != [] {
      var rest := u[1..];
      assert forall i :: 0 <= i < |rest| ==> rest[i] == u[i + 1];
      DropUnderscoresNone(rest);
      assert [u[0]] + rest == u;
    }
  }

  /** Reading back with int() what f'{n}' wrote gives n again. */
  lemma IntToStringRoundTrip(n: int)
    ensures PyInt(IntToString(n)) == Some(n)
  {
    IntToStringTrimmed(n);
    SignedRoundTrip(n);
  }

  /** f'{n}' has no whitespace for strip() to remove. */
  lemma IntToStringTrimmed(n: int)
    ensures Strip(IntToString(n)) == IntToString(n)
  {
    var s := IntToString(n);
    assert !IsSpace(s[0]) && !IsSpace(s[|s| - 1]);
    StripTrimmed(s);
  }

  lemma SignedRoundTrip(n: int)
    ensures SignedValue(IntToString(n)) == Some(n)
  {
    var m: nat := if n < 0 then -n else n;
    NatToStringRoundTrip(m);
    var s := IntToString(n);
    if n < 0 {
      assert s[1..] == NatToString(m);
      SignedNegative(s, m);
    } else {
      SignedPlain(s, m);
    }
  }

  lemma SignedNegative(s: string, v: nat)
    requires |s| > 0 && s[0] == '-' && UnsignedValue(s[1..]) == Some(v)
    ensures SignedValue(s) == Some(0 - v)
  {
  }

  lemma SignedPlain(s: string, v: nat)
    requires |s| > 0 && IsDigit(s[0]) && UnsignedValue(s) == Some(v)
    ensures SignedValue(s) == Some(v)
  {
  }

  lemma NatToStringRoundTrip(m: nat)
    ensures UnsignedValue(NatToString(m)) == Some(m)
  {
    var digits := NatToString(m);
    DigitsAreLiteral(digits);
    DropUnderscoresNone(digits);
    NatToStringValue(m);
  }

  lemma DigitsAreLiteral(u: string)
    requires |u| > 0 && AllDigits(u)
    ensures IsDecimalLiteral(u)
  {
  }

  /** f'{v:02d}' for 0 <= v < 100: two digits, zero-padded. */
  function TwoDigits(v: nat): (s: string)
    requires v < 100
    ensures |s| == 2 && AllDigits(s) && DigitsValue(s) == v
  {
    var s := [DigitChar(v / 10), DigitChar(v % 10)];
    assert s[..1][..0] == [];
    assert DigitsValue(s[..1]) == v / 10;
    s
  }

  /** n * c in Python for a one-character string c: empty when n <= 0. */
  function Repeat(c: char, n: int): (s: string)
    ensures |s| == if n <= 0 then 0 else n
    ensures forall i :: 0 <= i < |s| ==> s[i] == c
  {
    if n <= 0 then [] else [c] + Repeat(c, n - 1)
  }

  /** str.lower() on ASCII letters; other characters are left alone. */
  function Lower(s: string): (r: string)
    ensures |r| == |s|
  {
    if s == [] then []
    else [if 'A' <= s[0] <= 'Z' then (s[0] as int + 32) as char else s[0]] + Lower(s[1..])
  }
}
