/**
 * Conversion of hexadecimal digit strings to integers, as done by
 * `convertChar` and `hexStrToInt` in src/app/hexStrToInt.cpp.
 *
 * The routine weighs the digit at distance `pos` from the end of the string by
 * `16 * pos` (not by 16 to the power `pos`), so it agrees with ordinary base-16
 * notation only on strings of at most two digits. The model keeps that weighting;
 * `PositionalValue` is the conventional reading it was evidently meant to compute.
 */
module Hex {
  import opened Prelude

  // Character codes and offsets used by convertChar.
  const NUMERAL_MIN := 48        // '0'
  const NUMERAL_MAX := 48 + 9    // '9'
  const LOWER_MIN := 97          // 'a'
  const LOWER_MAX := 102         // 'f'
  const UPPER_MIN := 65          // 'A'
  const UPPER_MAX := 70          // 'F'
  const NUMERAL_OFFSET := 48
  const UPPER_OFFSET := 55
  const LOWER_OFFSET := 87

  /** What convertChar returns for a non-digit: `uint8_t val = -1` wraps to 255. */
  const NOT_A_DIGIT: u8 := 255

  predicate IsHexDigit(c: char) {
    '0' <= c <= '9' || 'a' <= c <= 'f' || 'A' <= c <= 'F'
  }

  predicate AllHexDigits(s: string) {
    forall k :: 0 <= k < |s| ==> IsHexDigit(s[k])
  }

  /** The nibble a hex digit stands for, in either case; 255 for any other character. */
  function ConvertChar(c: char): (v: u8)
    ensures '0' <= c <= '9' ==> v == c as int - '0' as int
    ensures 'a' <= c <= 'f' ==> v == c as int - 'a' as int + 10
    ensures 'A' <= c <= 'F' ==> v == c as int - 'A' as int + 10
    ensures IsHexDigit(c) <==> v < 16
    ensures !IsHexDigit(c) <==> v == NOT_A_DIGIT
  {
    var code := c as int;
    if NUMERAL_MIN <= code <= NUMERAL_MAX then code - NUMERAL_OFFSET
    else if LOWER_MIN <= code <= LOWER_MAX then code - LOWER_OFFSET
    else if UPPER_MIN <= code <= UPPER_MAX then code - UPPER_OFFSET
    else NOT_A_DIGIT
  }

  /** Multiplier hexStrToInt gives the digit at index `i` of a `len`-character string. */
  function Weight(len: nat, i: nat): nat
    requires i < len
  {
    var pos := len - i - 1;
    if pos > 0 then 16 * pos else 1
  }

  /** The weighted digit at index `i`, the term hexStrToInt adds for it. */
  function Term(s: string, i: nat): nat
    requires i < |s|
  {
    Weight(|s|, i) * ConvertChar(s[i])
  }

  /** The `uint32_t` accumulator after the digits at indices `0 .. n-1`: every addition wraps at 2^32. */
  function Accumulated(s: string, n: nat): u32
    requires n <= |s|
  {
    if n == 0 then 0 else (Accumulated(s, n - 1) + Term(s, n - 1)) % U32_LIMIT
  }

  /** The plain sum of the weighted digits at indices `0 .. n-1`, with no wrap-around. */
  function WeightedSum(s: string, n: nat): nat
    requires n <= |s|
  {
    if n == 0 then 0 else WeightedSum(s, n - 1) + Term(s, n - 1)
  }

  /** Wrapping after every addition gives the plain sum reduced modulo 2^32. */
  lemma {:induction false} AccumulatedIsWrappedSum(s: string, n: nat)
    requires n <= |s|
    ensures Accumulated(s, n) == WeightedSum(s, n) % U32_LIMIT
  {
    if n > 0 {
      AccumulatedIsWrappedSum(s, n - 1);
      WrapBeforeAdd(WeightedSum(s, n - 1), Term(s, n - 1));
    }
  }

  /** Reducing the first summand modulo 2^32 does not change the sum modulo 2^32. */
  lemma WrapBeforeAdd(a: nat, b: nat)
    ensures (a % U32_LIMIT + b) % U32_LIMIT == (a + b) % U32_LIMIT
  {
    var q := a / U32_LIMIT;
    assert a + b == (a % U32_LIMIT + b) + q * U32_LIMIT;
  }

  /** The value hexStrToInt returns for `s`: the sum of its weighted digits, modulo 2^32. */
  function HexValue(s: string): (v: u32)
    ensures v == WeightedSum(s, |s|) % U32_LIMIT
    ensures |s| == 0 ==> v == 0
    ensures |s| == 1 ==> v == ConvertChar(s[0])
    ensures |s| == 2 ==> v == 16 * ConvertChar(s[0]) + ConvertChar(s[1])
  {
    AccumulatedIsWrappedSum(s, |s|);
    ShortAccumulations(s);
    Accumulated(s, |s|)
  }

  /** One- and two-character strings are read without any wrap-around. */
  lemma {:induction false} ShortAccumulations(s: string)
    ensures |s| == 1 ==> Accumulated(s, 1) == ConvertChar(s[0])
    ensures |s| == 2 ==> Accumulated(s, 2) == 16 * ConvertChar(s[0]) + ConvertChar(s[1])
  {
    if |s| == 2 {
      assert Accumulated(s, 1) == 16 * ConvertChar(s[0]);
    }
  }

  /** hexStrToInt: accumulates the weighted digits left to right in a 32-bit counter. */
  method HexStrToInt(hexStr: string) returns (val: u32)
    requires |hexStr| < U32_LIMIT  // `hexStr.length()` is stored in a uint32_t
    ensures val == HexValue(hexStr)
  {
    val := 0;
    var len: u32 := |hexStr|;
    for i := 0 to len
      invariant val == Accumulated(hexStr, i)
    {
      var pos := len - i - 1;  // position in number
      var converted := ConvertChar(hexStr[i]);
      var term := if pos > 0 then 16 * pos * converted else converted;
      assert term == Term(hexStr, i);
      val := (val + term) % U32_LIMIT;
    }
  }

  /** The conventional base-16 reading: each digit weighs 16 to the power of its distance from the end. */
  function PositionalValue(s: string): nat {
    if s == [] then 0 else 16 * PositionalValue(s[..|s| - 1]) + ConvertChar(s[|s| - 1])
  }

  function Pow16(n: nat): (p: nat)
    ensures p >= 1
  {
    if n == 0 then 1 else 16 * Pow16(n - 1)
  }

  /** The digit character for nibble `d`, letters in upper or lower case. */
  function DigitChar(d: nat, upper: bool): (c: char)
    requires d < 16
    ensures IsHexDigit(c) && ConvertChar(c) == d
  {
    if d < 10 then (NUMERAL_OFFSET + d) as char
    else if upper then (UPPER_OFFSET + d) as char
    else (LOWER_OFFSET + d) as char
  }

  /** `n` written as exactly `width` hex digits, most significant first. */
  function FormatHex(n: nat, width: nat, upper: bool): (s: string)
    ensures |s| == width && AllHexDigits(s)
  {
    if width == 0 then [] else FormatHex(n / 16, width - 1, upper) + [DigitChar(n % 16, upper)]
  }

  /** Both readings agree on strings of at most two hex digits, and such a value fits in a byte. */
  lemma {:induction false} ShortStringsArePositional(s: string)
    requires |s| <= 2 && AllHexDigits(s)
    ensures HexValue(s) == PositionalValue(s)
    ensures HexValue(s) < Pow16(|s|) && HexValue(s) < U8_LIMIT
  {
    if |s| == 2 {
      assert s[..1][..0] == [];
      assert PositionalValue(s[..1]) == ConvertChar(s[0]);
    } else if |s| == 1 {
      assert s[..0] == [];
    }
  }

  /** The values the unit tests expect: single digits of either case, and two digits. */
  lemma HexValueExamples()
    ensures HexValue("f") == 15 && HexValue("A") == 10 && HexValue("0") == 0
    ensures HexValue("F5") == 245
  {
    var f, a, z, f5 := "f", "A", "0", "F5";
    assert f[0] == 'f' && a[0] == 'A' && z[0] == '0';
    assert f5[0] == 'F' && f5[1] == '5';
  }

  /** The linear weighting already departs from base 16 at three digits: "100" reads as 32, not 256. */
  lemma LinearWeightCounterexample()
    ensures HexValue("100") == 32
    ensures PositionalValue("100") == 256
  {
    var s := "100";
    assert Accumulated(s, 1) == 32;
    assert Accumulated(s, 3) == 32;
    assert s[..2] == "10" && s[..2][..1] == "1" && s[..2][..1][..0] == [];
    assert PositionalValue("1") == 1;
    assert PositionalValue("10") == 16;
  }

  /** Formatting a value in `width` digits and reading it back positionally gives the value. */
  lemma {:induction false} PositionalValueRoundTrip(n: nat, width: nat, upper: bool)
    requires n < Pow16(width)
    ensures PositionalValue(FormatHex(n, width, upper)) == n
  {
    if width > 0 {
      var s := FormatHex(n, width, upper);
      var prefix := FormatHex(n / 16, width - 1, upper);
      assert s == prefix + [DigitChar(n % 16, upper)];
      assert s[..|s| - 1] == prefix;
      assert n / 16 < Pow16(width - 1) by {
        assert n < 16 * Pow16(width - 1);
      }
      PositionalValueRoundTrip(n / 16, width - 1, upper);
      assert PositionalValue(s) == 16 * (n / 16) + n % 16;
    }
  }
}
