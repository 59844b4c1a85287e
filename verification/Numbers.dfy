/**
 * `convertStringToCGFloat` of Util.swift: the coordinate parse used when a
 * detail's `path` attribute is loaded.
 */
module Numbers {
  import opened Wrappers
  import opened Text

  /** The value returned when the text cannot be read as a number. */
  const Sentinel: real := -12345.6789

  function Pow10(k: nat): (p: nat)
    ensures p >= 1
  {
    if k == 0 then 1 else 10 * Pow10(k - 1)
  }

  /** The position of the first c in s, or |s| when there is none. */
  function IndexOf(s: string, c: char): (k: nat)
    ensures k <= |s|
    ensures forall i :: 0 <= i < k ==> s[i] != c
    ensures k < |s| ==> s[k] == c
  {
    if s == [] then 0 else if s[0] == c then 0 else 1 + IndexOf(s[1..], c)
  }

  /** An unsigned decimal: digits, optionally a '.' and more digits, with at least one digit in all. */
  function ParseUnsigned(s: string): Option<real>
  {
    var k := IndexOf(s, '.');
    var ip := s[..k];
    var fp := if k < |s| then s[k + 1..] else [];
    if AllDigits(ip) && AllDigits(fp) && |ip| + |fp| > 0 then Some(Decimal(ip, fp)) else None
  }

  /** The value of the decimal ip.fp, for digit strings ip and fp. */
  function Decimal(ip: string, fp: string): real
    requires AllDigits(ip) && AllDigits(fp)
  {
    DigitsValue(ip) as real + DigitsValue(fp) as real / Pow10(|fp|) as real
  }

  /** `Double(txt)`, for decimal notation with an optional sign. */
  function ParseReal(s: string): Option<real>
  {
    if s != [] && (s[0] == '-' || s[0] == '+') then
      match ParseUnsigned(s[1..])
      case Some(v) => Some(if s[0] == '-' then -v else v)
      case None => None
    else ParseUnsigned(s)
  }

  /**
   * `convertStringToCGFloat(txt)`. A text without a comma is read by the
   * direct parse alone: the second attempt only ever rescues a decimal comma.
   */
  function ConvertStringToFloat(txt: string): (r: real)
    ensures ',' !in txt ==> r == (if ParseReal(txt).Some? then ParseReal(txt).value else Sentinel)
  {
    assert ',' !in txt ==> Replace(txt, ',', '.') == txt;
    match ParseReal(txt)
    case Some(v) => v
    case None =>
      match ParseReal(Replace(txt, ',', '.'))
      case Some(v) => v
      case None => Sentinel
  }

  lemma NoCommaInDigits(s: string)
    requires AllDigits(s)
    ensures ',' !in s
  {
    forall i | 0 <= i < |s| ensures s[i] != ',' { assert IsDigit(s[i]); }
  }

  lemma UnsignedHasNoComma(b: string)
    ensures ParseUnsigned(b).Some? ==> ',' !in b
  {
    var k := IndexOf(b, '.');
    var ip := b[..k];
    var fp := if k < |b| then b[k + 1..] else [];
    if AllDigits(ip) && AllDigits(fp) {
      NoCommaInDigits(ip);
      NoCommaInDigits(fp);
      if k < |b| {
        assert b == ip + ['.'] + fp;
      } else {
        assert b == ip;
      }
    }
  }

  /** Whatever parses as a number holds no comma. */
  lemma NumberHasNoComma(s: string)
    ensures ParseReal(s).Some? ==> ',' !in s
  {
    if s != [] && (s[0] == '-' || s[0] == '+') {
      UnsignedHasNoComma(s[1..]);
      assert s == [s[0]] + s[1..];
    } else {
      UnsignedHasNoComma(s);
    }
  }

  /** A text with a comma is never a number by itself, so the comma pass decides its value. */
  lemma CommaIsNotANumber(s: string)
    requires ',' in s
    ensures ParseReal(s) == None
  {
    NumberHasNoComma(s);
  }

  /**
   * A decimal comma reads as a decimal point: for digit strings a and b the
   * text a + "," + b converts to the value of a + "." + b.
   */
  lemma DecimalComma(a: string, b: string)
    requires AllDigits(a) && AllDigits(b) && |a| + |b| > 0
    ensures ConvertStringToFloat(a + "," + b) == DigitsValue(a) as real + DigitsValue(b) as real / Pow10(|b|) as real
  {
    var s := a + "," + b;
    assert s[|a|] == ',';
    CommaIsNotANumber(s);
    CommaToDot(a, b);
    DotValue(a, b);
  }

  /** The comma pass turns a + "," + b into a + "." + b when a and b are digits. */
  lemma CommaToDot(a: string, b: string)
    requires AllDigits(a) && AllDigits(b)
    ensures Replace(a + "," + b, ',', '.') == a + "." + b
  {
    NoCommaInDigits(a);
    NoCommaInDigits(b);
    var s, d := a + "," + b, a + "." + b;
    var r := Replace(s, ',', '.');
    forall i | 0 <= i < |s| ensures r[i] == d[i] {
      if i < |a| { assert s[i] == a[i]; } else if i > |a| { assert s[i] == b[i - |a| - 1]; }
    }
  }

  /** a + "." + b reads as the integer part a and the fraction b. */
  lemma DotValue(a: string, b: string)
    requires AllDigits(a) && AllDigits(b) && |a| + |b| > 0
    ensures ParseReal(a + "." + b) == Some(Decimal(a, b))
  {
    var d := a + "." + b;
    assert IndexOf(d, '.') == |a| by {
      forall i | 0 <= i < |a| ensures d[i] != '.' { assert IsDigit(a[i]); }
      IndexOfIs(d, '.', |a|);
    }
    assert d[..|a|] == a;
    assert d[|a| + 1..] == b;
    if a != [] {
      assert d[0] == a[0] && IsDigit(a[0]);
    } else {
      assert d[0] == '.';
    }
  }

  /** A plain string of digits reads as its decimal value. */
  lemma WholeNumber(a: string)
    requires AllDigits(a) && a != []
    ensures ConvertStringToFloat(a) == DigitsValue(a) as real
  {
    forall i | 0 <= i < |a| ensures a[i] != '.' { assert IsDigit(a[i]); }
    assert IndexOf(a, '.') == |a|;
    assert a[..|a|] == a;
    assert ParseUnsigned(a) == Some(Decimal(a, []));
    assert Decimal(a, []) == DigitsValue(a) as real;
    assert IsDigit(a[0]);
    assert ParseReal(a) == Some(DigitsValue(a) as real);
  }

  lemma IndexOfIs(s: string, c: char, k: nat)
    requires k < |s| && s[k] == c
    requires forall i :: 0 <= i < k ==> s[i] != c
    ensures IndexOf(s, c) == k
  {
  }

  /** Without a single digit a text is no number, neither before nor after the comma pass. */
  lemma NoDigitsSentinel(s: string)
    requires forall i :: 0 <= i < |s| ==> !IsDigit(s[i])
    ensures ConvertStringToFloat(s) == Sentinel
  {
    var d := Replace(s, ',', '.');
    assert forall i :: 0 <= i < |d| ==> !IsDigit(d[i]);
    NoDigitsNoNumber(s);
    NoDigitsNoNumber(d);
  }

  lemma NoDigitsNoNumber(s: string)
    requires forall i :: 0 <= i < |s| ==> !IsDigit(s[i])
    ensures ParseReal(s) == None
  {
    if s != [] && (s[0] == '-' || s[0] == '+') {
      NoDigitsUnsigned(s[1..]);
    } else {
      NoDigitsUnsigned(s);
    }
  }

  lemma NoDigitsUnsigned(s: string)
    requires forall i :: 0 <= i < |s| ==> !IsDigit(s[i])
    ensures ParseUnsigned(s) == None
  {
    var k := IndexOf(s, '.');
    var ip := s[..k];
    var fp := if k < |s| then s[k + 1..] else [];
    if ip != [] { assert !IsDigit(ip[0]); }
    if fp != [] { assert fp[0] == s[k + 1] && !IsDigit(fp[0]); }
  }
}
