/**
 * The RGB colour value of src/app/colour.cpp: built from three bytes or from a
 * `#RRGGBB` string, read through its channel getters, compared channel by channel.
 */
module Colours {
  import opened Prelude
  import Hex

  /**
   * A colour. `valid` is the `mIsValid` flag: false only for a colour built from a
   * malformed string. The getters getRed, getGreen, getBlue and isValid are the
   * destructors `red`, `green`, `blue` and `valid`.
   */
  datatype Colour = Colour(red: u8, green: u8, blue: u8, valid: bool)

  /** The byte constructor: stores the three channels and marks the colour valid. */
  function FromBytes(red: u8, green: u8, blue: u8): (c: Colour)
    ensures c.valid && c.red == red && c.green == green && c.blue == blue
  {
    Colour(red, green, blue, true)
  }

  /** hexColourStrValToInt: hexStrToInt truncated to its low byte by the `uint8_t` cast. */
  function HexColourStrValToInt(hexStr: string): (v: u8)
    ensures |hexStr| == 2 ==> v == (16 * Hex.ConvertChar(hexStr[0]) + Hex.ConvertChar(hexStr[1])) % U8_LIMIT
  {
    Hex.HexValue(hexStr) % U8_LIMIT
  }

  /** Two hex digits read as their conventional base-16 value, which always fits the byte. */
  lemma HexChannelIsPositional(hexStr: string)
    requires |hexStr| == 2 && Hex.AllHexDigits(hexStr)
    ensures HexColourStrValToInt(hexStr) == Hex.PositionalValue(hexStr)
  {
    Hex.ShortStringsArePositional(hexStr);
  }

  /** A well-formed string is exactly seven characters starting with '#'. */
  predicate WellFormed(value: string) {
    |value| == 7 && value[0] == '#'
  }

  /**
   * The string constructor. A malformed string only clears the validity flag: the
   * source leaves its channels unassigned, and this model pins them to zero, the
   * black that the unit tests expect.
   */
  function Parse(value: string): (c: Colour)
    ensures c.valid <==> WellFormed(value)
    ensures !c.valid ==> Equals(c, FromBytes(0, 0, 0))
    ensures c.valid ==> c.red == (16 * Hex.ConvertChar(value[1]) + Hex.ConvertChar(value[2])) % U8_LIMIT
    ensures c.valid ==> c.green == (16 * Hex.ConvertChar(value[3]) + Hex.ConvertChar(value[4])) % U8_LIMIT
    ensures c.valid ==> c.blue == (16 * Hex.ConvertChar(value[5]) + Hex.ConvertChar(value[6])) % U8_LIMIT
  {
    if |value| == 0 || value[0] != '#' || |value| != 7 then
      Colour(0, 0, 0, false)
    else
      Colour(HexColourStrValToInt(value[1..3]),
             HexColourStrValToInt(value[3..5]),
             HexColourStrValToInt(value[5..7]),
             true)
  }

  /** operator==: the channels agree; the validity flag is not compared. */
  predicate Equals(lhs: Colour, rhs: Colour)
    ensures Equals(lhs, rhs) <==> lhs.(valid := rhs.valid) == rhs
  {
    lhs.red == rhs.red && lhs.green == rhs.green && lhs.blue == rhs.blue
  }

  /** operator!=: the negation of operator==. */
  predicate NotEquals(lhs: Colour, rhs: Colour)
    ensures NotEquals(lhs, rhs) <==> lhs.red != rhs.red || lhs.green != rhs.green || lhs.blue != rhs.blue
  {
    !Equals(lhs, rhs)
  }

  /** operator== is an equivalence relation. */
  lemma EqualsIsEquivalence(a: Colour, b: Colour, c: Colour)
    ensures Equals(a, a)
    ensures Equals(a, b) ==> Equals(b, a)
    ensures Equals(a, b) && Equals(b, c) ==> Equals(a, c)
  {
  }

  /** Two colours built from bytes are equal exactly when their bytes are. */
  lemma FromBytesInjective(r1: u8, g1: u8, b1: u8, r2: u8, g2: u8, b2: u8)
    ensures Equals(FromBytes(r1, g1, b1), FromBytes(r2, g2, b2)) <==> r1 == r2 && g1 == g2 && b1 == b2
    ensures FromBytes(r1, g1, b1).red == r1 && FromBytes(r1, g1, b1).green == g1 && FromBytes(r1, g1, b1).blue == b1
  {
  }

  /** A well-formed string of hex digits (in any mix of cases) reads as its three positional byte values. */
  lemma ParseHexDigits(value: string)
    requires WellFormed(value) && Hex.AllHexDigits(value[1..])
    ensures Parse(value).valid
    ensures Parse(value).red == Hex.PositionalValue(value[1..3])
    ensures Parse(value).green == Hex.PositionalValue(value[3..5])
    ensures Parse(value).blue == Hex.PositionalValue(value[5..7])
  {
    assert value[1..][0..2] == value[1..3];
    assert value[1..][2..4] == value[3..5];
    assert value[1..][4..6] == value[5..7];
    HexChannelIsPositional(value[1..3]);
    HexChannelIsPositional(value[3..5]);
    HexChannelIsPositional(value[5..7]);
  }

  /** '#' followed by each channel as two hex digits. */
  function Format(c: Colour, upper: bool): (s: string)
    ensures WellFormed(s) && Hex.AllHexDigits(s[1..])
  {
    var s := ['#'] + Hex.FormatHex(c.red, 2, upper) + Hex.FormatHex(c.green, 2, upper) + Hex.FormatHex(c.blue, 2, upper);
    assert forall k :: 1 <= k < 7 ==> Hex.IsHexDigit(s[k]) by {
      forall k | 1 <= k < 7 ensures Hex.IsHexDigit(s[k]) {
        if k < 3 { assert s[k] == Hex.FormatHex(c.red, 2, upper)[k - 1]; }
        else if k < 5 { assert s[k] == Hex.FormatHex(c.green, 2, upper)[k - 3]; }
        else { assert s[k] == Hex.FormatHex(c.blue, 2, upper)[k - 5]; }
      }
    }
    s
  }

  /** Round trip: formatting any colour as `#RRGGBB` and parsing the text gives its channels back, valid. */
  lemma {:induction false} ParseFormatRoundTrip(c: Colour, upper: bool)
    ensures Parse(Format(c, upper)) == FromBytes(c.red, c.green, c.blue)
  {
    var s := Format(c, upper);
    var r, g, b := Hex.FormatHex(c.red, 2, upper), Hex.FormatHex(c.green, 2, upper), Hex.FormatHex(c.blue, 2, upper);
    assert s == ['#'] + r + g + b;
    assert s[1..3] == r && s[3..5] == g && s[5..7] == b;
    ParseHexDigits(s);
    ChannelRoundTrip(c.red, upper);
    ChannelRoundTrip(c.green, upper);
    ChannelRoundTrip(c.blue, upper);
  }

  /** A byte written as two hex digits reads back as itself. */
  lemma ChannelRoundTrip(n: u8, upper: bool)
    ensures Hex.PositionalValue(Hex.FormatHex(n, 2, upper)) == n
  {
    assert Hex.Pow16(2) == U8_LIMIT;
    Hex.PositionalValueRoundTrip(n, 2, upper);
  }

  /**
   * Only the length and the '#' are checked: six copies of any character that is
   * not a hex digit still give a valid colour, each channel reading 255 twice as
   * (16 * 255 + 255) mod 256 = 239. "#GGGGGG" is such a string.
   */
  lemma NonHexDigitsAccepted(c: char)
    requires !Hex.IsHexDigit(c)
    ensures var col := Parse(['#', c, c, c, c, c, c]);
      col.valid && col.red == 239 && col.green == 239 && col.blue == 239
  {
    var v := ['#', c, c, c, c, c, c];
    assert WellFormed(v) && v[1] == v[2] == v[3] == v[4] == v[5] == v[6] == c;
  }

  /** Malformed strings give black, as the unit tests expect: a bad first character, and a bad length. */
  lemma ParseMalformedExamples()
    ensures !Parse("saohetu").valid && Equals(Parse("saohetu"), FromBytes(0, 0, 0))
    ensures !Parse("#1122334").valid && Equals(Parse("#1122334"), FromBytes(0, 0, 0))
  {
    assert !WellFormed("saohetu") && !WellFormed("#1122334");
  }

  /** The red channel the unit tests expect from "#11FFA5". */
  lemma ParseRedExample()
    ensures Parse("#11FFA5").red == 17
  {
    var v := "#11FFA5";
    assert WellFormed(v) && v[1] == '1' && v[2] == '1';
  }

  /** The green channel the unit tests expect from "#00FEA5". */
  lemma ParseGreenExample()
    ensures Parse("#00FEA5").green == 254
  {
    var v := "#00FEA5";
    assert WellFormed(v) && v[3] == 'F' && v[4] == 'E';
  }

  /** The blue channel the unit tests expect from "#00FFA5". */
  lemma ParseBlueExample()
    ensures Parse("#00FFA5").blue == 165
  {
    var v := "#00FFA5";
    assert WellFormed(v) && v[5] == 'A' && v[6] == '5';
  }
}
