/**
 * The string operations the scripts use: `toLowerCase` on ASCII letters,
 * `includes`, `startsWith`, `endsWith`, `trim`, `join`, the decimal
 * rendering of integers, `Number()` of decimal strings and `Math.round`.
 */
module Text {
  import opened Geo

  function LowerChar(c: char): char
  {
    if 'A' <= c <= 'Z' then (c as int + 32) as char else c
  }

  /** `toLowerCase()` on the ASCII letters; every other character is kept. */
  function Lower(s: string): (r: string)
    ensures |r| == |s|
    ensures forall i :: 0 <= i < |s| ==> r[i] == LowerChar(s[i])
  {
    seq(|s|, i requires 0 <= i < |s| => LowerChar(s[i]))
  }

  predicate StartsWith(s: string, prefix: string)
  {
    |prefix| <= |s| && s[..|prefix|] == prefix
  }

  predicate EndsWith(s: string, suffix: string)
  {
    |suffix| <= |s| && s[|s| - |suffix|..] == suffix
  }

  /** `s.includes(sub)`, also what an unanchored regular expression of plain letters tests. */
  predicate Contains(s: string, sub: string)
    decreases |s|
  {
    StartsWith(s, sub) || (|s| > 0 && Contains(s[1..], sub))
  }

  lemma {:induction false} ContainsAt(s: string, sub: string, i: nat)
    requires i + |sub| <= |s| && s[i..i + |sub|] == sub
    ensures Contains(s, sub)
  {
    if i > 0 {
      assert s[1..][i - 1..i - 1 + |sub|] == s[i..i + |sub|];
      ContainsAt(s[1..], sub, i - 1);
    }
  }

  /** The characters `String.prototype.trim` and the regular-expression class `\s` treat as white space. */
  predicate IsSpace(c: char)
  {
    var n := c as int;
    n == 0x09 || n == 0x0A || n == 0x0B || n == 0x0C || n == 0x0D || n == 0x20 ||
    n == 0xA0 || n == 0x1680 || (0x2000 <= n <= 0x200A) || n == 0x2028 || n == 0x2029 ||
    n == 0x202F || n == 0x205F || n == 0x3000 || n == 0xFEFF
  }

  predicate AllSpace(s: string)
  {
    forall i :: 0 <= i < |s| ==> IsSpace(s[i])
  }

  function TrimStart(s: string): (r: string)
    ensures |r| <= |s| && r == s[|s| - |r|..]
    ensures AllSpace(s[..|s| - |r|])
    ensures |r| > 0 ==> !IsSpace(r[0])
    decreases |s|
  {
    if |s| > 0 && IsSpace(s[0]) then TrimStart(s[1..]) else s
  }

  function TrimEnd(s: string): (r: string)
    ensures |r| <= |s| && r == s[..|r|]
    ensures AllSpace(s[|r|..])
    ensures |r| > 0 ==> !IsSpace(r[|r| - 1])
    decreases |s|
  {
    if |s| > 0 && IsSpace(s[|s| - 1]) then TrimEnd(s[..|s| - 1]) else s
  }

  /** `s.trim()`: the result neither starts nor ends with white space. */
  function Trim(s: string): (r: string)
    ensures |r| <= |s|
    ensures |r| > 0 ==> !IsSpace(r[0]) && !IsSpace(r[|r| - 1])
  {
    TrimEnd(TrimStart(s))
  }

  /** `s.trim()` is empty exactly when `s` is all white space. */
  lemma TrimEmptyIffSpace(s: string)
    ensures Trim(s) == [] <==> AllSpace(s)
  {
    var t := TrimStart(s);
    if TrimEnd(t) == [] {
      assert t[0..] == t;
      assert s == s[..|s| - |t|] + t;
    }
  }

  /** `parts.join(sep)`. */
  function Join(parts: seq<string>, sep: string): string
  {
    if |parts| == 0 then ""
    else if |parts| == 1 then parts[0]
    else parts[0] + sep + Join(parts[1..], sep)
  }

  function DigitChar(d: nat): char
    requires d < 10
  {
    "0123456789"[d]
  }

  /** The decimal text of a natural number, as a template literal renders it. */
  function NatToString(n: nat): (r: string)
    ensures |r| > 0
  {
    if n < 10 then [DigitChar(n)] else NatToString(n / 10) + [DigitChar(n % 10)]
  }

  /** The decimal text of an integer, with a leading `-` for a negative one. */
  function IntToString(n: int): (r: string)
  {
    (if n < 0 then "-" else "") + NatToString(Magnitude(n))
  }

  function Magnitude(n: int): nat
  {
    if n < 0 then -n else n
  }

  /** `Math.round` on a real: the nearest integer, halves rounded up. */
  function Round(x: real): (r: int)
    ensures x - 1.0 / 2.0 < r as real <= x + 1.0 / 2.0
  {
    (x + 1.0 / 2.0).Floor
  }

  predicate IsDigit(c: char)
  {
    '0' <= c <= '9'
  }

  predicate AllDigits(s: string)
  {
    forall i :: 0 <= i < |s| ==> IsDigit(s[i])
  }

  function DigitsValue(s: string): nat
    requires AllDigits(s)
  {
    if |s| == 0 then 0 else DigitsValue(s[..|s| - 1]) * 10 + (s[|s| - 1] as int - '0' as int)
  }

  function Pow10(n: nat): (r: nat)
    ensures r >= 1
  {
    if n == 0 then 1 else 10 * Pow10(n - 1)
  }

  function IndexOfChar(s: string, c: char): (r: nat)
    ensures r <= |s|
    ensures r < |s| ==> s[r] == c
    ensures forall i :: 0 <= i < r ==> s[i] != c
  {
    if |s| == 0 then 0 else if s[0] == c then 0 else 1 + IndexOfChar(s[1..], c)
  }

  /** Digits with an optional fraction part and at least one digit in all: `12`, `12.`, `.5`, `36.1664`. */
  function ParseUnsignedDecimal(t: string): Option<real>
  {
    var k := IndexOfChar(t, '.');
    ParseParts(t[..k], if k < |t| then t[k + 1..] else "")
  }

  /** The digits before and after the decimal point. */
  function ParseParts(whole: string, fraction: string): Option<real>
  {
    if AllDigits(whole) && AllDigits(fraction) && |whole| + |fraction| > 0 then
      Some(DigitsValue(whole) as real + DigitsValue(fraction) as real / Pow10(|fraction|) as real)
    else None
  }

  /**
   * `Number(s)` for a string: white space around the number is ignored, an
   * empty or blank string is `0`, a decimal number with an optional sign is
   * its value, anything else is `NaN` (`None`).
   */
  function ParseNumber(s: string): Option<real>
  {
    var t := Trim(s);
    if |t| == 0 then Some(0.0) else ParseSignedDecimal(t)
  }

  function Negate(v: Option<real>): Option<real>
  {
    match v
    case Some(x) => Some(-x)
    case None => None
  }

  /** A decimal number with an optional leading `-` or `+`. */
  function ParseSignedDecimal(t: string): Option<real>
    requires |t| > 0
  {
    if t[0] == '-' then Negate(ParseUnsignedDecimal(t[1..]))
    else if t[0] == '+' then ParseUnsignedDecimal(t[1..])
    else ParseUnsignedDecimal(t)
  }

  /** `Number(value)` for an attribute value; `None` when the result is not a finite number. */
  function ToNumber(v: Option<Value>): Option<real>
  {
    match v
    case None => None
    case Some(Num(n)) => Some(n)
    case Some(Str(s)) => ParseNumber(s)
    case Some(Bool(b)) => Some(if b then 1.0 else 0.0)
    case Some(Null) => Some(0.0)
    case Some(NonFinite) => None
    case Some(Composite) => None
  }

  lemma RoundMonotone(x: real, y: real)
    requires x <= y
    ensures Round(x) <= Round(y)
  {
  }

  /**
   * `x.toFixed(1)` for `|x| < 1e21`: the sign of `x`, then the integer `n`
   * nearest to `10 * |x|` (the larger on a tie) written with one decimal.
   */
  function ToFixedOne(x: real): (r: string)
    ensures |r| >= 3
  {
    SignOf(x) + FixedBody(Tenths(x))
  }

  function SignOf(x: real): string
  {
    if x < 0.0 then "-" else ""
  }

  /** The number of tenths nearest to `|x|`, the larger on a tie. */
  function Tenths(x: real): nat
  {
    var magnitude := if x < 0.0 then -x else x;
    var n := Round(10.0 * magnitude);
    assert n >= 0;
    n
  }

  /** The natural number `n` divided by ten, with one decimal. */
  function FixedBody(n: nat): (r: string)
    ensures |r| >= 3 && IsDigit(r[0]) && IsDigit(r[|r| - 1])
  {
    DigitCharValue(n % 10);
    NatToStringDigits(n / 10);
    NatToString(n / 10) + "." + [DigitChar(n % 10)]
  }

  lemma DigitCharValue(d: nat)
    requires d < 10
    ensures IsDigit(DigitChar(d)) && DigitChar(d) as int - '0' as int == d
  {
  }

  lemma {:induction false} NatToStringDigits(n: nat)
    ensures AllDigits(NatToString(n)) && DigitsValue(NatToString(n)) == n
  {
    DigitCharValue(n % 10);
    if n >= 10 {
      NatToStringDigits(n / 10);
      var s := NatToString(n);
      assert s[..|s| - 1] == NatToString(n / 10);
    }
  }

  /** Trimming only removes characters from the ends. */
  lemma TrimIsInfix(s: string)
    ensures forall c :: c in Trim(s) ==> c in s
  {
    var t := TrimStart(s);
    SuffixMembers(s, t);
    PrefixMembers(t, TrimEnd(t));
  }

  lemma SuffixMembers(s: string, t: string)
    requires |t| <= |s| && t == s[|s| - |t|..]
    ensures forall c :: c in t ==> c in s
  {
    forall c | c in t ensures c in s {
      var i :| 0 <= i < |t| && t[i] == c;
      assert s[|s| - |t| + i] == c;
    }
  }

  lemma PrefixMembers(t: string, r: string)
    requires |r| <= |t| && r == t[..|r|]
    ensures forall c :: c in r ==> c in t
  {
    forall c | c in r ensures c in t {
      var i :| 0 <= i < |r| && r[i] == c;
      assert t[i] == c;
    }
  }

  lemma TrimUnpadded(s: string)
    requires |s| > 0 && !IsSpace(s[0]) && !IsSpace(s[|s| - 1])
    ensures Trim(s) == s
  {
  }

  lemma DigitsHaveNoPoint(s: string)
    requires AllDigits(s)
    ensures IndexOfChar(s, '.') == |s|
  {
  }

  lemma ParseDigits(s: string)
    requires |s| > 0 && AllDigits(s)
    ensures ParseUnsignedDecimal(s) == Some(DigitsValue(s) as real)
  {
    DigitsHaveNoPoint(s);
    assert s[..|s|] == s;
    WholePart(s);
  }

  lemma WholePart(s: string)
    requires |s| > 0 && AllDigits(s)
    ensures ParseParts(s, "") == Some(DigitsValue(s) as real)
  {
    assert DigitsValue("") == 0 && Pow10(0) == 1;
  }

  lemma ParseUnpadded(t: string)
    requires |t| > 0 && !IsSpace(t[0]) && !IsSpace(t[|t| - 1])
    ensures ParseNumber(t) == ParseSignedDecimal(t)
  {
    TrimUnpadded(t);
  }

  /** `Number(String(n))` gives `n` back for every integer. */
  lemma IntToStringRoundTrip(n: int)
    ensures ParseNumber(IntToString(n)) == Some(n as real)
  {
    IntSigned(n);
    ParseUnpadded(IntToString(n));
  }

  lemma IntSigned(n: int)
    ensures var s := IntToString(n);
      !IsSpace(s[0]) && !IsSpace(s[|s| - 1]) && ParseSignedDecimal(s) == Some(n as real)
  {
    var digits := NatToString(Magnitude(n));
    NatToStringDigits(Magnitude(n));
    ParseDigits(digits);
    SignedDecimalOf(if n < 0 then "-" else "", digits, Some(Magnitude(n) as real));
  }

  /** `v` with the sign of `x`. */
  function WithSignOf(x: real, v: real): real
  {
    if x < 0.0 then -v else v
  }

  /** `Number(x.toFixed(1))` is `x` rounded to the nearest tenth, with the sign of `x`. */
  lemma ToFixedOneRoundTrip(x: real)
    ensures ParseNumber(ToFixedOne(x)) == Some(WithSignOf(x, Tenths(x) as real / 10.0))
  {
    FixedSigned(x);
    ParseUnpadded(ToFixedOne(x));
  }

  lemma FixedSigned(x: real)
    ensures var s := ToFixedOne(x);
      !IsSpace(s[0]) && !IsSpace(s[|s| - 1]) &&
      ParseSignedDecimal(s) == Some(WithSignOf(x, Tenths(x) as real / 10.0))
  {
    var n := Tenths(x);
    FixedBodyValue(n);
    SignedValue(x, FixedBody(n), n as real / 10.0);
    assert ToFixedOne(x) == SignOf(x) + FixedBody(n);
  }

  /** The sign of `x` before an unsigned decimal `body` worth `v`. */
  lemma SignedValue(x: real, body: string, v: real)
    requires |body| > 0 && IsDigit(body[0]) && IsDigit(body[|body| - 1])
    requires ParseUnsignedDecimal(body) == Some(v)
    ensures var s := SignOf(x) + body;
      !IsSpace(s[0]) && !IsSpace(s[|s| - 1]) &&
      ParseSignedDecimal(s) == Some(WithSignOf(x, v))
  {
    if x < 0.0 {
      assert SignOf(x) == "-";
      SignedDecimalOf("-", body, Some(v));
    } else {
      assert SignOf(x) + body == "" + body;
      SignedDecimalOf("", body, Some(v));
    }
  }

  lemma SignedDecimalOf(sign: string, body: string, v: Option<real>)
    requires sign == "" || sign == "-"
    requires |body| > 0 && IsDigit(body[0]) && IsDigit(body[|body| - 1])
    requires ParseUnsignedDecimal(body) == v
    ensures var s := sign + body;
      !IsSpace(s[0]) && !IsSpace(s[|s| - 1]) &&
      ParseSignedDecimal(s) == if sign == "-" then Negate(v) else v
  {
    var s := sign + body;
    if sign == "-" {
      assert s[0] == '-' && s[1..] == body;
      assert ParseSignedDecimal(s) == Negate(ParseUnsignedDecimal(body));
    } else {
      assert s == body;
      assert s[0] != '-' && s[0] != '+';
      assert ParseSignedDecimal(s) == ParseUnsignedDecimal(body);
    }
  }

  lemma FixedBodyValue(n: nat)
    ensures ParseUnsignedDecimal(FixedBody(n)) == Some(n as real / 10.0)
  {
    var whole := NatToString(n / 10);
    var d := DigitChar(n % 10);
    var body := FixedBody(n);
    NatToStringDigits(n / 10);
    DigitCharValue(n % 10);
    IndexAfterDigits(whole, [d]);
    assert body[..|whole|] == whole;
    assert body[|whole| + 1..] == [d];
    assert [d][..0] == [];
    assert DigitsValue([d]) == n % 10;
    assert n == 10 * (n / 10) + n % 10;
    assert ParseParts(whole, [d]) == Some(n as real / 10.0);
  }

  lemma IndexAfterDigits(whole: string, rest: string)
    requires AllDigits(whole)
    ensures IndexOfChar(whole + "." + rest, '.') == |whole|
  {
    var t := whole + "." + rest;
    DigitsHaveNoPoint(whole);
    assert t[|whole|] == '.';
    assert forall i :: 0 <= i < |whole| ==> t[i] == whole[i];
  }
}
