/**
 * The two number/string conversions the list page uses on its `page` URL
 * parameter: `String(n)` when writing it and the global `parseInt` when
 * reading it back.
 */
module JsNumbers {
  import opened Strings

  /** Outcome of `parseInt`: a number, or `NaN` when no digit was found. */
  datatype ParsedInt = NaN | Num(value: int)

  /** Value of a character read as a digit in any radix up to 36; 36 for a non-digit. */
  function DigitValue(c: char): (d: nat)
    ensures d <= 36
    ensures d < 10 <==> '0' <= c <= '9'
  {
    if '0' <= c <= '9' then c as int - '0' as int
    else if 'a' <= c <= 'z' then c as int - 'a' as int + 10
    else if 'A' <= c <= 'Z' then c as int - 'A' as int + 10
    else 36
  }

  /** End of the longest run of digits of `radix` that starts at `i`. */
  function DigitRunEnd(s: string, radix: nat, i: nat): (j: nat)
    requires i <= |s|
    ensures i <= j <= |s|
    ensures forall k :: i <= k < j ==> DigitValue(s[k]) < radix
    ensures j < |s| ==> DigitValue(s[j]) >= radix
    decreases |s| - i
  {
    if i < |s| && DigitValue(s[i]) < radix then DigitRunEnd(s, radix, i + 1) else i
  }

  /** Positional value of a digit string, most significant digit first. */
  function DigitsValue(ds: string, radix: nat): nat
  {
    if ds == [] then 0 else DigitsValue(ds[..|ds| - 1], radix) * radix + DigitValue(ds[|ds| - 1])
  }

  /**
   * `parseInt` after the sign: switch to radix 16 after a `0x`/`0X` prefix,
   * then read the longest run of digits; no digits at all gives `NaN`.
   */
  function ParseUnsigned(u: string): (r: ParsedInt)
    ensures r.Num? ==> r.value >= 0
  {
    var hex := |u| >= 2 && u[0] == '0' && (u[1] == 'x' || u[1] == 'X');
    var radix := if hex then 16 else 10;
    var w := if hex then u[2..] else u;
    var n := DigitRunEnd(w, radix, 0);
    if n == 0 then NaN else Num(DigitsValue(w[..n], radix))
  }

  /** `s` after its leading white space and an optional sign. */
  function Unsigned(s: string): string {
    var t := s[SkipSpaces(s, 0)..];
    if |t| > 0 && (t[0] == '-' || t[0] == '+') then t[1..] else t
  }

  /** After the white space and the sign comes a decimal digit: the only way a number can start. */
  predicate StartsNumber(s: string) {
    |Unsigned(s)| > 0 && DigitValue(Unsigned(s)[0]) < 10
  }

  /** The first non-space character of `s` is a minus sign. */
  predicate Negative(s: string) {
    var t := s[SkipSpaces(s, 0)..];
    |t| > 0 && t[0] == '-'
  }

  /**
   * The global `parseInt(s)` with no radix: skip leading white space, take an
   * optional sign, then read the number; trailing text is ignored.
   */
  function ParseInt(s: string): (r: ParsedInt)
    ensures AllSpace(s) ==> r == NaN
    ensures !StartsNumber(s) ==> r == NaN
    ensures r.Num? && Negative(s) ==> r.value <= 0
    ensures r.Num? && !Negative(s) ==> r.value >= 0
  {
    var t := s[SkipSpaces(s, 0)..];
    if |t| > 0 && t[0] == '-' then
      match ParseUnsigned(t[1..])
      case NaN => NaN
      case Num(v) => Num(-v)
    else if |t| > 0 && t[0] == '+' then ParseUnsigned(t[1..])
    else ParseUnsigned(t)
  }

  function DecimalDigit(d: nat): (c: char)
    requires d < 10
    ensures DigitValue(c) == d
  {
    ('0' as int + d) as char
  }

  /** `String(n)` for a non-negative integer: its decimal digits, no leading zero. */
  function NatToDecimal(n: nat): (s: string)
    ensures |s| >= 1
    ensures forall k :: 0 <= k < |s| ==> DigitValue(s[k]) < 10
    ensures |s| > 1 ==> s[0] != '0'
    ensures n < 10 <==> |s| == 1
  {
    if n < 10 then [DecimalDigit(n)] else NatToDecimal(n / 10) + [DecimalDigit(n % 10)]
  }

  lemma {:induction false} DecimalValue(n: nat)
    ensures DigitsValue(NatToDecimal(n), 10) == n
  {
    if n >= 10 {
      var s := NatToDecimal(n);
      assert s[..|s| - 1] == NatToDecimal(n / 10);
      DecimalValue(n / 10);
    }
  }

  /**
   * `parseInt` reads back what `String(n)` wrote, even when other text
   * follows, as long as that text does not continue the number (a further
   * digit, or an `x` that would turn a lone `0` into a hex prefix).
   */
  lemma {:induction false} ParseIntOfDecimal(n: nat, rest: string)
    requires rest == "" || DigitValue(rest[0]) >= 10
    requires n == 0 && rest != "" ==> rest[0] != 'x' && rest[0] != 'X'
    ensures ParseInt(NatToDecimal(n) + rest) == Num(n)
  {
    var d := NatToDecimal(n);
    var s := d + rest;
    assert DigitValue(s[0]) < 10;
    assert SkipSpaces(s, 0) == 0;
    assert s[0..] == s;
    UnsignedOfDecimal(n, rest);
  }

  /** A minus sign in front of `String(n)` negates it: `parseInt("-3")` is -3. */
  lemma {:induction false} ParseIntOfNegative(n: nat, rest: string)
    requires rest == "" || DigitValue(rest[0]) >= 10
    requires n == 0 && rest != "" ==> rest[0] != 'x' && rest[0] != 'X'
    ensures ParseInt("-" + NatToDecimal(n) + rest) == Num(-(n as int))
  {
    var s := "-" + NatToDecimal(n) + rest;
    assert SkipSpaces(s, 0) == 0 && s[0..] == s;
    assert s[1..] == NatToDecimal(n) + rest;
    UnsignedOfDecimal(n, rest);
    assert ParseUnsigned(s[1..]) == Num(n);
  }

  lemma {:induction false} UnsignedOfDecimal(n: nat, rest: string)
    requires rest == "" || DigitValue(rest[0]) >= 10
    requires n == 0 && rest != "" ==> rest[0] != 'x' && rest[0] != 'X'
    ensures ParseUnsigned(NatToDecimal(n) + rest) == Num(n)
  {
    var d := NatToDecimal(n);
    var s := d + rest;
    assert !(|s| >= 2 && s[0] == '0' && (s[1] == 'x' || s[1] == 'X')) by {
      if |d| > 1 {
        assert DigitValue(s[1]) < 10;
      }
    }
    forall k | 0 <= k < |d| ensures DigitValue(s[k]) < 10 {
      assert s[k] == d[k];
    }
    DigitRunIsPrefix(s, 10, 0, |d|);
    assert s[..|d|] == d;
    DecimalValue(n);
  }

  /** The digit run from `i` ends exactly at `j` when digits fill `[i, j)` and `j` is not a digit. */
  lemma {:induction false} DigitRunIsPrefix(s: string, radix: nat, i: nat, j: nat)
    requires i <= j <= |s|
    requires forall k :: i <= k < j ==> DigitValue(s[k]) < radix
    requires j < |s| ==> DigitValue(s[j]) >= radix
    ensures DigitRunEnd(s, radix, i) == j
    decreases j - i
  {
    if i < j {
      DigitRunIsPrefix(s, radix, i + 1, j);
    }
  }
}
