/**
 * String helpers the core relies on: Swift's `split` (which drops empty
 * pieces), `stringByReplacingOccurrencesOfString` for one character, and the
 * decimal rendering and parsing of integer tags ("\(tag)" and NSNumberFormatter).
 */
module Text {
  import opened Wrappers

  /** The longest prefix of s without the separator c. */
  function Token(s: string, c: char): (t: string)
    ensures t <= s
    ensures c !in t
    ensures |t| < |s| ==> s[|t|] == c
  {
    if s == [] || s[0] == c then [] else [s[0]] + Token(s[1..], c)
  }

  /** `s.characters.split{$0 == c}`: the maximal non-empty runs of s between separators. */
  function Split(s: string, c: char): (parts: seq<string>)
    ensures forall i :: 0 <= i < |parts| ==> parts[i] != [] && c !in parts[i]
    decreases |s|
  {
    if s == [] then []
    else if s[0] == c then Split(s[1..], c)
    else
      var t := Token(s, c);
      [t] + Split(s[|t|..], c)
  }

  /** The pieces joined with one separator between consecutive pieces. */
  function Join(parts: seq<string>, c: char): string
  {
    if parts == [] then []
    else if |parts| == 1 then parts[0]
    else parts[0] + [c] + Join(parts[1..], c)
  }

  lemma {:induction false} TokenOfPrefix(t: string, rest: string, c: char)
    requires c !in t
    requires rest == [] || rest[0] == c
    ensures Token(t + rest, c) == t
  {
    if t != [] {
      assert (t + rest)[1..] == t[1..] + rest;
      TokenOfPrefix(t[1..], rest, c);
    }
  }

  /** Splitting undoes joining for non-empty pieces free of the separator. */
  lemma {:induction false} SplitJoin(parts: seq<string>, c: char)
    requires forall i :: 0 <= i < |parts| ==> parts[i] != [] && c !in parts[i]
    ensures Split(Join(parts, c), c) == parts
  {
    if parts == [] {
    } else if |parts| == 1 {
      TokenOfPrefix(parts[0], [], c);
      assert parts[0] + [] == parts[0];
      assert Join(parts, c)[|parts[0]|..] == [];
    } else {
      var s := Join(parts, c);
      var rest := [c] + Join(parts[1..], c);
      assert s == parts[0] + rest;
      TokenOfPrefix(parts[0], rest, c);
      assert s[|parts[0]|..] == rest;
      assert rest[1..] == Join(parts[1..], c);
      SplitJoin(parts[1..], c);
      assert Split(rest, c) == Split(Join(parts[1..], c), c);
    }
  }

  lemma {:induction false} TokenBeforeSeparator(s: string, rest: string, c: char)
    requires rest != [] && rest[0] == c
    ensures Token(s + rest, c) == Token(s, c)
  {
    if s != [] && s[0] != c {
      assert (s + rest)[1..] == s[1..] + rest;
      TokenBeforeSeparator(s[1..], rest, c);
    }
  }

  /**
   * A separator cuts the text in two: the pieces of s + [c] + t are the
   * pieces of s followed by the pieces of t, so the pieces come in the
   * order of the text.
   */
  lemma {:induction false} SplitAtSeparator(s: string, c: char, t: string)
    ensures Split(s + [c] + t, c) == Split(s, c) + Split(t, c)
    decreases |s|
  {
    var u := s + [c] + t;
    if s == [] {
      assert u[1..] == t;
    } else if s[0] == c {
      assert u[1..] == s[1..] + [c] + t;
      SplitAtSeparator(s[1..], c, t);
    } else {
      var tok := Token(s, c);
      TokenBeforeSeparator(s, [c] + t, c);
      assert u == s + ([c] + t);
      assert u[|tok|..] == s[|tok|..] + [c] + t;
      SplitAtSeparator(s[|tok|..], c, t);
    }
  }

  /** A non-empty run without the separator is one piece. */
  lemma SplitRun(s: string, c: char)
    requires s != [] && c !in s
    ensures Split(s, c) == [s]
  {
    TokenOfPrefix(s, [], c);
    assert s + [] == s;
  }

  /** Every occurrence of character a replaced by b. */
  function Replace(s: string, a: char, b: char): (r: string)
    ensures |r| == |s|
    ensures forall i :: 0 <= i < |s| ==> r[i] == (if s[i] == a then b else s[i])
  {
    if s == [] then [] else [if s[0] == a then b else s[0]] + Replace(s[1..], a, b)
  }

  predicate IsDigit(ch: char)
  {
    '0' <= ch <= '9'
  }

  predicate AllDigits(s: string)
  {
    forall i :: 0 <= i < |s| ==> IsDigit(s[i])
  }

  /** The value of a string of decimal digits, most significant first. */
  function DigitsValue(s: string): nat
    requires AllDigits(s)
  {
    if s == [] then 0 else DigitsValue(s[..|s| - 1]) * 10 + (s[|s| - 1] - '0') as nat
  }

  function DigitChar(d: nat): (ch: char)
    requires d < 10
    ensures IsDigit(ch) && (ch - '0') as nat == d
  {
    ('0' as int + d) as char
  }

  /** The decimal rendering of a natural number, without leading zeros. */
  function ShowNat(n: nat): (s: string)
    ensures s != [] && AllDigits(s)
  {
    if n < 10 then [DigitChar(n)] else ShowNat(n / 10) + [DigitChar(n % 10)]
  }

  /** `"\(n)"` for an integer tag. */
  function ShowInt(n: int): (s: string)
    ensures s != []
  {
    if n < 0 then "-" + ShowNat(-n) else ShowNat(n)
  }

  /** The tag parse `numberFromString(...)?.integerValue`, restricted to an optional '-' and decimal digits. */
  function ParseInt(s: string): (r: Option<int>)
    ensures r.Some? ==> s != []
  {
    if s != [] && s[0] == '-' then
      (if |s| > 1 && AllDigits(s[1..]) then Some(-(DigitsValue(s[1..]) as int)) else None)
    else if s != [] && AllDigits(s) then Some(DigitsValue(s))
    else None
  }

  lemma {:induction false} ShowNatValue(n: nat)
    ensures DigitsValue(ShowNat(n)) == n
  {
    if n >= 10 {
      var s := ShowNat(n);
      ShowNatValue(n / 10);
      assert s[..|s| - 1] == ShowNat(n / 10);
    }
  }

  /** Parsing a rendered tag gives the tag back, so tags survive the trip through XML attributes. */
  lemma ParseShowInt(n: int)
    ensures ParseInt(ShowInt(n)) == Some(n)
  {
    if n < 0 {
      ShowNatValue(-n);
      assert ShowInt(n)[1..] == ShowNat(-n);
    } else {
      ShowNatValue(n);
    }
  }

  /** Distinct tags render to distinct strings. */
  lemma ShowIntInjective(m: int, n: int)
    requires ShowInt(m) == ShowInt(n)
    ensures m == n
  {
    ParseShowInt(m);
    ParseShowInt(n);
  }
}
