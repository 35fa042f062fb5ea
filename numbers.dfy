/** How the pipeline prints numbers, and parsers that read them back.

    Times in the TypeScript iterations are JavaScript numbers of seconds; the model
    keeps them as integer hundredths of a second ("centis"), so `c` stands for the
    number `c / 100`. Three printers appear in the source:
    - `String(n)` / `${n}` for a non-negative integer (labels, counts, byte lengths,
      Python's `str(idx)`): `NatToString`;
    - `${x}` for a time (ffmpeg options and filters): `JsNumber`, which drops a zero
      fraction and trailing zeros as JavaScript does;
    - `x.toFixed(2)` (transcript serialisers): `ToFixed2`, always two decimals. */
module Numbers {
  import opened Wrappers

  predicate IsDigit(ch: char)
  {
    '0' <= ch <= '9'
  }

  predicate AllDigits(s: string)
  {
    forall k :: 0 <= k < |s| ==> IsDigit(s[k])
  }

  /** The characters a printed number is made of. */
  predicate IsNumberChar(ch: char)
  {
    IsDigit(ch) || ch == '.' || ch == '-'
  }

  predicate AllNumberChars(s: string)
  {
    forall k :: 0 <= k < |s| ==> IsNumberChar(s[k])
  }

  function DigitChar(d: nat): (ch: char)
    requires d < 10
    ensures IsDigit(ch) && ch as int - '0' as int == d
  {
    ('0' as int + d) as char
  }

  function DigitValue(ch: char): (d: nat)
    requires IsDigit(ch)
    ensures d < 10 && DigitChar(d) == ch
  {
    ch as int - '0' as int
  }

  /** The decimal digits of `n` with no leading zero. */
  function NatToString(n: nat): (s: string)
    ensures |s| >= 1 && AllDigits(s)
    ensures s[0] == '0' ==> n == 0
  {
    if n < 10 then [DigitChar(n)] else NatToString(n / 10) + [DigitChar(n % 10)]
  }

  /** The value of a string of decimal digits. */
  function DigitsValue(s: string): nat
    requires AllDigits(s)
  {
    if s == [] then 0 else DigitsValue(s[..|s| - 1]) * 10 + DigitValue(s[|s| - 1])
  }

  function ParseNat(s: string): (r: Option<nat>)
    ensures r.Some? <==> |s| >= 1 && AllDigits(s)
  {
    if |s| >= 1 && AllDigits(s) then Some(DigitsValue(s)) else None
  }

  lemma {:induction false} NatToStringRoundTrip(n: nat)
    ensures ParseNat(NatToString(n)) == Some(n)
  {
    if n >= 10 {
      NatToStringRoundTrip(n / 10);
      var s := NatToString(n);
      assert s[..|s| - 1] == NatToString(n / 10);
      assert DigitsValue(s) == DigitsValue(NatToString(n / 10)) * 10 + n % 10;
    }
  }

  /** Different numbers print differently. */
  lemma NatToStringInjective(a: nat, b: nat)
    ensures NatToString(a) == NatToString(b) ==> a == b
  {
    NatToStringRoundTrip(a);
    NatToStringRoundTrip(b);
  }

  /** The length of the run of digits `s` starts with. */
  function DigitPrefix(s: string): (n: nat)
    ensures n <= |s| && AllDigits(s[..n])
    ensures n < |s| ==> !IsDigit(s[n])
  {
    if |s| == 0 || !IsDigit(s[0]) then 0
    else
      var n := 1 + DigitPrefix(s[1..]);
      assert s[..n] == [s[0]] + s[1..][..n - 1];
      n
  }

  lemma {:induction false} DigitPrefixOf(d: string, rest: string)
    requires AllDigits(d)
    requires rest == [] || !IsDigit(rest[0])
    ensures DigitPrefix(d + rest) == |d|
  {
    if |d| > 0 {
      assert (d + rest)[1..] == d[1..] + rest;
      DigitPrefixOf(d[1..], rest);
    } else {
      assert d + rest == rest;
    }
  }

  function Abs(c: int): nat
  {
    if c < 0 then -c else c
  }

  /** The fraction `JsNumber` prints after the whole seconds: nothing, or "." and one
      or two digits, without a trailing zero. */
  function Fraction(f: nat): string
    requires f < 100
  {
    if f == 0 then ""
    else if f % 10 == 0 then ['.', DigitChar(f / 10)]
    else ['.', DigitChar(f / 10), DigitChar(f % 10)]
  }

  /** What `${x}` prints for a non-negative time x = c / 100. */
  function UnsignedJs(c: nat): string
  {
    NatToString(c / 100) + Fraction(c % 100)
  }

  /** JavaScript's `${x}` for the time x = c / 100 seconds. */
  function JsNumber(c: int): (s: string)
    ensures AllNumberChars(s)
  {
    (if c < 0 then "-" else "") + UnsignedJs(Abs(c))
  }

  /** What `toFixed(2)` prints for a non-negative time x = c / 100. */
  function UnsignedFixed2(c: nat): string
  {
    var f := c % 100;
    NatToString(c / 100) + ['.', DigitChar(f / 10), DigitChar(f % 10)]
  }

  /** JavaScript's `x.toFixed(2)` for x = c / 100: always exactly two decimals. */
  function ToFixed2(c: int): (s: string)
    ensures AllNumberChars(s)
    ensures |s| >= 4 && s[|s| - 3] == '.'
  {
    (if c < 0 then "-" else "") + UnsignedFixed2(Abs(c))
  }

  /** Reads an optional '-', whole digits and an optional '.' with one or two
      digits, as hundredths. */
  function ParseJsNumber(s: string): Option<int>
  {
    if |s| > 0 && s[0] == '-' then
      match ParseUnsigned(s[1..])
      case Some(v) => var x: int := 0 - v; Some(x)
      case None => None
    else
      match ParseUnsigned(s)
      case Some(v) => var x: int := v; Some(x)
      case None => None
  }

  function ParseUnsigned(s: string): Option<nat>
  {
    var n := DigitPrefix(s);
    if n == 0 then None
    else
      var whole := DigitsValue(s[..n]);
      var rest := s[n..];
      if rest == "" then Some(whole * 100)
      else if |rest| == 2 && rest[0] == '.' && IsDigit(rest[1]) then
        Some(whole * 100 + 10 * DigitValue(rest[1]))
      else if |rest| == 3 && rest[0] == '.' && IsDigit(rest[1]) && IsDigit(rest[2]) then
        Some(whole * 100 + 10 * DigitValue(rest[1]) + DigitValue(rest[2]))
      else None
  }

  /** Reads what `ToFixed2` prints: an optional '-', whole digits, '.', two digits. */
  function ParseFixed2(s: string): Option<int>
  {
    if |s| > 0 && s[0] == '-' then
      match ParseUnsignedFixed2(s[1..])
      case Some(v) => var x: int := 0 - v; Some(x)
      case None => None
    else
      match ParseUnsignedFixed2(s)
      case Some(v) => var x: int := v; Some(x)
      case None => None
  }

  function ParseUnsignedFixed2(s: string): Option<nat>
  {
    var n := DigitPrefix(s);
    if n == 0 || |s| != n + 3 || s[n] != '.' || !IsDigit(s[n + 1]) || !IsDigit(s[n + 2]) then None
    else Some(DigitsValue(s[..n]) * 100 + 10 * DigitValue(s[n + 1]) + DigitValue(s[n + 2]))
  }

  lemma SplitCentis(c: nat)
    ensures c == c / 100 * 100 + c % 100 / 10 * 10 + c % 100 % 10
  {
    var f := c % 100;
    assert c == c / 100 * 100 + f;
    assert f == f / 10 * 10 + f % 10;
  }

  lemma UnsignedJsRoundTrip(c: nat)
    ensures ParseUnsigned(UnsignedJs(c)) == Some(c)
  {
    var w := NatToString(c / 100);
    var f := Fraction(c % 100);
    var s := w + f;
    DigitPrefixOf(w, f);
    NatToStringRoundTrip(c / 100);
    assert s[..|w|] == w;
    assert s[|w|..] == f;
    SplitCentis(c);
  }

  /** A leading '-' negates what the unsigned reader reads; without it the value is
      read as it is. */
  lemma ParseJsNumberSign(u: string, v: nat)
    requires ParseUnsigned(u) == Some(v)
    ensures ParseJsNumber(u) == Some(v as int)
    ensures ParseJsNumber("-" + u) == Some(-(v as int))
  {
    assert IsDigit(u[0]) by { assert u[..DigitPrefix(u)][0] == u[0]; }
    assert ("-" + u)[1..] == u;
  }

  /** Reading back what `${x}` printed gives x: the ffmpeg options and filters carry
      the exact times. */
  lemma JsNumberRoundTrip(c: int)
    ensures ParseJsNumber(JsNumber(c)) == Some(c)
  {
    var u := UnsignedJs(Abs(c));
    UnsignedJsRoundTrip(Abs(c));
    ParseJsNumberSign(u, Abs(c));
    assert JsNumber(c) == if c < 0 then "-" + u else u;
  }

  lemma UnsignedFixed2RoundTrip(c: nat)
    ensures ParseUnsignedFixed2(UnsignedFixed2(c)) == Some(c)
  {
    var w := NatToString(c / 100);
    var f := ['.', DigitChar(c % 100 / 10), DigitChar(c % 100 % 10)];
    var s := w + f;
    DigitPrefixOf(w, f);
    NatToStringRoundTrip(c / 100);
    assert s[..|w|] == w;
    assert s[|w|] == '.' && s[|w| + 1] == f[1] && s[|w| + 2] == f[2];
    SplitCentis(c);
  }

  lemma ParseFixed2Sign(u: string, v: nat)
    requires ParseUnsignedFixed2(u) == Some(v)
    ensures ParseFixed2(u) == Some(v as int)
    ensures ParseFixed2("-" + u) == Some(-(v as int))
  {
    assert IsDigit(u[0]) by { assert u[..DigitPrefix(u)][0] == u[0]; }
    assert ("-" + u)[1..] == u;
  }

  /** Reading back what `toFixed(2)` printed gives the time. */
  lemma ToFixed2RoundTrip(c: int)
    ensures ParseFixed2(ToFixed2(c)) == Some(c)
  {
    var u := UnsignedFixed2(Abs(c));
    UnsignedFixed2RoundTrip(Abs(c));
    ParseFixed2Sign(u, Abs(c));
    assert ToFixed2(c) == if c < 0 then "-" + u else u;
  }

  /** Different times print differently under either printer. */
  lemma PrintersInjective(a: int, b: int)
    ensures JsNumber(a) == JsNumber(b) ==> a == b
    ensures ToFixed2(a) == ToFixed2(b) ==> a == b
  {
    JsNumberRoundTrip(a);
    JsNumberRoundTrip(b);
    ToFixed2RoundTrip(a);
    ToFixed2RoundTrip(b);
  }

  /** A printed number never contains `;`, the separator of an ffmpeg filter graph. */
  lemma NumberAvoidsSemicolon(n: string)
    requires AllNumberChars(n)
    ensures ';' !in n
  {
    assert forall k :: 0 <= k < |n| ==> n[k] != ';' by {
      forall k | 0 <= k < |n| ensures n[k] != ';' { assert IsNumberChar(n[k]); }
    }
  }

  lemma DigitsAvoidSemicolon(n: string)
    requires AllDigits(n)
    ensures ';' !in n
  {
    assert forall k :: 0 <= k < |n| ==> n[k] != ';' by {
      forall k | 0 <= k < |n| ensures n[k] != ';' { assert IsDigit(n[k]); }
    }
  }
}
