/**
 * JavaScript's `Number(text)` on a string, as far as a score field needs it: which texts are
 * not a number (`NaN`), and the value of those that denote an integer JavaScript holds exactly.
 *
 * The text is trimmed of JavaScript white space and line terminators; what is left must be
 * empty (value 0), a radix integer `0x…`/`0o…`/`0b…` without sign, or a signed decimal literal
 * (digits with an optional fraction and exponent, or `Infinity`). Anything else is `NaN`.
 * Decimal literals with a fraction, an exponent or `Infinity`, and integers beyond 2^53, are
 * numbers whose value this model does not compute.
 */
module JsNumber {

  datatype NumberValue =
    | NaN                 // not a number
    | Whole(value: int)   // an integer of magnitude at most 2^53
    | Unevaluated         // a number, but a fraction, an exponent form, infinite or beyond 2^53

  /** The largest magnitude up to which every integer is exactly a JavaScript number. */
  const MaxExact: int := 0x20_0000_0000_0000

  /** JavaScript's white space and line terminators, which `Number` ignores around the literal. */
  predicate IsSpace(c: char) {
    var n := c as int;
    || n == 0x09 || n == 0x0A || n == 0x0B || n == 0x0C || n == 0x0D || n == 0x20
    || n == 0xA0 || n == 0x1680 || (0x2000 <= n <= 0x200A) || n == 0x2028 || n == 0x2029
    || n == 0x202F || n == 0x205F || n == 0x3000 || n == 0xFEFF
  }

  function TrimStart(s: string): (r: string)
    ensures |r| <= |s| && r == s[|s| - |r|..]
    ensures r == [] || !IsSpace(r[0])
    ensures forall i :: 0 <= i < |s| - |r| ==> IsSpace(s[i])
  {
    if s != [] && IsSpace(s[0]) then TrimStart(s[1..]) else s
  }

  function TrimEnd(s: string): (r: string)
    ensures |r| <= |s| && r == s[..|r|]
    ensures r == [] || !IsSpace(r[|r| - 1])
    ensures forall i :: |r| <= i < |s| ==> IsSpace(s[i])
  {
    if s != [] && IsSpace(s[|s| - 1]) then TrimEnd(s[..|s| - 1]) else s
  }

  /** `String.prototype.trim`. */
  function Trim(s: string): string {
    TrimEnd(TrimStart(s))
  }

  /** The value of `c` as a digit in base `radix` (2, 8, 10 or 16), or -1 when it is not one. */
  function DigitValue(c: char, radix: nat): (d: int)
    ensures d == -1 || 0 <= d < radix
  {
    var v :=
      if '0' <= c <= '9' then c as int - '0' as int
      else if 'a' <= c <= 'f' then c as int - 'a' as int + 10
      else if 'A' <= c <= 'F' then c as int - 'A' as int + 10
      else -1;
    if 0 <= v < radix then v else -1
  }

  predicate AllDigits(s: string, radix: nat) {
    forall i :: 0 <= i < |s| ==> DigitValue(s[i], radix) >= 0
  }

  /** The value of a digit string in base `radix`, most significant digit first. */
  function DigitsValue(s: string, radix: nat): (v: nat)
    requires AllDigits(s, radix)
  {
    if s == [] then 0
    else DigitsValue(s[..|s| - 1], radix) * radix + DigitValue(s[|s| - 1], radix)
  }

  /** An exponent part without its `e`: an optional sign, then at least one digit. */
  predicate IsExponent(s: string) {
    if s != [] && (s[0] == '+' || s[0] == '-') then s[1..] != [] && AllDigits(s[1..], 10)
    else s != [] && AllDigits(s, 10)
  }

  /** Digits with at most one `.` among them, and at least one digit. */
  predicate IsMantissa(s: string) {
    && (exists i :: 0 <= i < |s| && s[i] != '.')
    && (forall i :: 0 <= i < |s| ==> s[i] == '.' || DigitValue(s[i], 10) >= 0)
    && (forall i, j :: 0 <= i < j < |s| && s[i] == '.' ==> s[j] != '.')
  }

  /** Position of the first `e` or `E` in `s`, or `|s|`. */
  function ExponentMark(s: string): (k: nat)
    ensures k <= |s|
    ensures forall i :: 0 <= i < k ==> s[i] != 'e' && s[i] != 'E'
    ensures k < |s| ==> s[k] == 'e' || s[k] == 'E'
  {
    if s == [] then 0
    else if s[0] == 'e' || s[0] == 'E' then 0
    else 1 + ExponentMark(s[1..])
  }

  /** An unsigned decimal literal: `Infinity`, or a mantissa with an optional exponent. */
  predicate IsUnsignedDecimal(s: string) {
    var k := ExponentMark(s);
    || s == "Infinity"
    || (IsMantissa(s[..k]) && (k == |s| || IsExponent(s[k + 1..])))
  }

  /** A radix prefix `0x`, `0o` or `0b` (either case), as its radix. */
  function RadixOf(s: string): (radix: nat)
    ensures radix == 0 || radix == 2 || radix == 8 || radix == 16
  {
    if |s| < 2 || s[0] != '0' then 0
    else if s[1] == 'x' || s[1] == 'X' then 16
    else if s[1] == 'o' || s[1] == 'O' then 8
    else if s[1] == 'b' || s[1] == 'B' then 2
    else 0
  }

  /** An integer known exactly, or a number whose value the model leaves open. */
  function Exact(v: int): NumberValue {
    if -MaxExact <= v <= MaxExact then Whole(v) else Unevaluated
  }

  /** The numeric literal left after trimming. */
  function LiteralValue(t: string): NumberValue {
    if t == [] then Whole(0)
    else if RadixOf(t) != 0 then
      var radix := RadixOf(t);
      if t[2..] != [] && AllDigits(t[2..], radix) then Exact(DigitsValue(t[2..], radix)) else NaN
    else
      var negative := t[0] == '-';
      var body := if t[0] == '+' || t[0] == '-' then t[1..] else t;
      if body != [] && AllDigits(body, 10) then
        var v: int := DigitsValue(body, 10);
        Exact(if negative then -v else v)
      else if IsUnsignedDecimal(body) then Unevaluated
      else NaN
  }

  /** `Number(s)` for a string `s`. */
  function NumberOf(s: string): NumberValue {
    LiteralValue(Trim(s))
  }

  /** The decimal digits of `n`, without leading zeros. */
  function NatToString(n: nat): (s: string)
    ensures s != [] && AllDigits(s, 10)
    ensures DigitsValue(s, 10) == n
  {
    var d := ['0' + (n % 10) as char];
    assert DigitValue(d[0], 10) == n % 10;
    if n < 10 then
      assert d[..0] == [];
      d
    else
      var s := NatToString(n / 10) + d;
      assert s[..|s| - 1] == NatToString(n / 10);
      s
  }

  /** `String(n)` for an integer `n`. */
  function IntToString(n: int): string {
    if n < 0 then "-" + NatToString(-n) else NatToString(n)
  }

  lemma TrimNoSpace(s: string)
    requires s == [] || (!IsSpace(s[0]) && !IsSpace(s[|s| - 1]))
    ensures Trim(s) == s
  {
  }

  /**
   * A score typed as the decimal text of an integer reads back as that integer, as long as
   * JavaScript holds it exactly.
   */
  lemma IntTextRoundTrip(n: int)
    requires -MaxExact <= n <= MaxExact
    ensures NumberOf(IntToString(n)) == Whole(n)
  {
    var s := IntToString(n);
    var digits := NatToString(if n < 0 then -n else n);
    assert !IsSpace(s[0]) && !IsSpace(s[|s| - 1]) by {
      assert DigitValue(digits[0], 10) >= 0 && DigitValue(digits[|digits| - 1], 10) >= 0;
      assert s[|s| - 1] == digits[|digits| - 1];
    }
    TrimNoSpace(s);
    assert RadixOf(s) == 0 by {
      if |s| >= 2 && s[0] == '0' {
        assert n >= 0 && digits == s;
        assert DigitValue(s[1], 10) >= 0;
      }
    }
    if n < 0 {
      assert s[1..] == digits;
    }
  }

  /** A blank text (empty, or only white space) is the number 0. */
  lemma BlankIsZero(s: string)
    requires forall i :: 0 <= i < |s| ==> IsSpace(s[i])
    ensures NumberOf(s) == Whole(0)
  {
    assert TrimStart(s) == [];
  }

  /** White space around a literal does not change its value. */
  lemma SurroundingSpaceIgnored(before: string, literal: string, after: string)
    requires forall i :: 0 <= i < |before| ==> IsSpace(before[i])
    requires forall i :: 0 <= i < |after| ==> IsSpace(after[i])
    requires literal != [] && !IsSpace(literal[0]) && !IsSpace(literal[|literal| - 1])
    ensures NumberOf(before + literal + after) == NumberOf(literal)
  {
    var s := before + literal + after;
    TrimStartSkips(before, literal + after);
    assert before + (literal + after) == s;
    TrimEndSkips(literal, after);
    TrimNoSpace(literal);
  }

  lemma {:induction false} TrimStartSkips(spaces: string, rest: string)
    requires forall i :: 0 <= i < |spaces| ==> IsSpace(spaces[i])
    requires rest != [] && !IsSpace(rest[0])
    ensures TrimStart(spaces + rest) == rest
  {
    if spaces != [] {
      assert (spaces + rest)[1..] == spaces[1..] + rest;
      TrimStartSkips(spaces[1..], rest);
    } else {
      assert spaces + rest == rest;
    }
  }

  lemma {:induction false} TrimEndSkips(rest: string, spaces: string)
    requires forall i :: 0 <= i < |spaces| ==> IsSpace(spaces[i])
    requires rest != [] && !IsSpace(rest[|rest| - 1])
    ensures TrimEnd(rest + spaces) == rest
  {
    if spaces != [] {
      var n := |spaces|;
      assert (rest + spaces)[..|rest + spaces| - 1] == rest + spaces[..n - 1];
      TrimEndSkips(rest, spaces[..n - 1]);
    } else {
      assert rest + spaces == rest;
    }
  }

  /** A signed radix literal is not a number: the sign is only allowed on decimal literals. */
  lemma SignedHexIsNaN(digits: string)
    requires digits != [] && AllDigits(digits, 16)
    ensures NumberOf("-0x" + digits) == NaN
  {
    var s := "-0x" + digits;
    assert !IsSpace(s[0]) && !IsSpace(s[|s| - 1]) by {
      assert s[|s| - 1] == digits[|digits| - 1];
      assert DigitValue(digits[|digits| - 1], 16) >= 0;
    }
    TrimNoSpace(s);
    var body := s[1..];
    assert body[1] == 'x';
    assert !AllDigits(body, 10);
    assert !IsMantissa(body[..ExponentMark(body)]) by {
      var k := ExponentMark(body);
      assert k >= 2 by {
        assert body[0] == '0' && body[1] == 'x';
      }
      assert body[..k][1] == 'x';
    }
  }
}
