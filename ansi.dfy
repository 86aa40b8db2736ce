/** ANSI-256 to RGB and hex, and the colour-input normaliser (src/color/ansi.rs). */
module Ansi {
  import opened Common
  import opened ColorError
  import opened Validate
  import opened RgbColor
  import opened Hex
  import opened Decimal

  predicate IsBinaryDigit(c: char) {
    c == '0' || c == '1'
  }

  /** `format!("{:b}", n)`: base 2 without leading zeros. */
  function Binary(n: nat): (s: string)
    ensures |s| >= 1 && forall i :: 0 <= i < |s| ==> IsBinaryDigit(s[i])
    decreases n
  {
    if n < 2 then [if n == 0 then '0' else '1']
    else Binary(n / 2) + [if n % 2 == 0 then '0' else '1']
  }

  /** `format!("{:0w$b}", n)`: base 2, left-padded with zeros to at least `width` digits. */
  function PaddedBinary(n: nat, width: nat): (s: string)
    ensures |s| >= width && forall i :: 0 <= i < |s| ==> IsBinaryDigit(s[i])
  {
    var b := Binary(n);
    if |b| < width then seq(width - |b|, _ => '0') + b else b
  }

  /** `.chars().rev()`. */
  function Reverse(s: string): (r: string)
    ensures |r| == |s| && forall i :: 0 <= i < |s| ==> r[i] == s[|s| - 1 - i]
  {
    seq(|s|, i requires 0 <= i < |s| => s[|s| - 1 - i])
  }

  /** `c.to_digit(2).unwrap()`: the bit the digit spells. */
  function BinaryDigitValue(c: char): (b: nat)
    requires IsBinaryDigit(c)
    ensures b <= 1 && BitChar(b) == c
  {
    if c == '1' then 1 else 0
  }

  /**
   * The primary-colour pipeline `format!("{:03b}", v).chars().rev()
   * .map(to_digit(2)).map(|b| (b * 255 / divisor) as u8)`: least significant
   * bit first, each bit scaled to 0 or 255 / divisor.
   */
  function BitChannels(v: nat, divisor: nat): (bits: seq<u8>)
    requires divisor == 1 || divisor == 2
    ensures |bits| >= 3
  {
    var d := Reverse(PaddedBinary(v, 3));
    seq(|d|, i requires 0 <= i < |d| => BinaryDigitValue(d[i]) * 255 / divisor)
  }

  /** What `while bits.len() < n { bits.push(0) }` leaves in `bits`. */
  function PadZeros(bits: seq<u8>, n: nat): (p: seq<u8>)
    ensures |p| >= n && |p| >= |bits| && p[..|bits|] == bits
    ensures forall i :: |bits| <= i < |p| ==> p[i] == 0
  {
    if |bits| < n then bits + seq(n - |bits|, _ => 0) else bits
  }

  /**
   * The cube closure `scale`: 0 stays 0, a level k >= 1 becomes k * 200 / 5 + 55,
   * which is the level's entry in the table of cube channel values.
   */
  function CubeScale(x: nat): (v: u8)
    requires x <= 5
    ensures v == CubeValues[x]
  {
    if x == 0 then 0 else x * 200 / 5 + 55
  }

  /** `u16::saturating_sub`: the difference, or 0 where it would be negative. */
  function SaturatingSub(a: nat, b: nat): (d: nat)
    ensures d >= a - b && (d == 0 || d == a - b)
  {
    if a < b then 0 else a - b
  }

  /** The six channel values of the xterm colour cube. */
  const CubeValues: seq<u8> := [0, 95, 135, 175, 215, 255]

  /** Bit `i` (0, 1 or 2) of `n`. */
  function Bit(n: nat, i: nat): (b: nat)
    requires i < 3
    ensures b <= 1
  {
    if i == 0 then n % 2 else if i == 1 then (n / 2) % 2 else (n / 4) % 2
  }

  /**
   * `ansi8_to_rgb`, total over all 256 codes. 7 and 8 are fixed greys; a cube
   * code 16..231 decomposes into base-6 digits looked up in the cube's channel
   * values; a ramp code 232..255 is the grey 10 * (n - 231) - 2.
   */
  function Ansi8ToRgb(num: u8): (c: Rgb)
    ensures num == 7 ==> c == Rgb(192, 192, 192)
    ensures num == 8 ==> c == Rgb(127, 127, 127)
    ensures 16 <= num <= 231 ==>
      c == Rgb(CubeValues[(num - 16) / 36], CubeValues[((num - 16) / 6) % 6], CubeValues[(num - 16) % 6])
    ensures 232 <= num ==> IsGrey(c) && c.r == 10 * (num - 231) - 2
  {
    if num <= 6 then
      var bits := PadZeros(BitChannels(num, 2), 3);
      Rgb(bits[0], bits[1], bits[2])
    else if num == 7 then Rgb(192, 192, 192)
    else if num == 8 then Rgb(127, 127, 127)
    else if num <= 15 then
      var bits := BitChannels(num - 8, 1);
      Rgb(bits[0], bits[1], bits[2])
    else if num <= 231 then
      var index := num - 16;
      Rgb(CubeScale(index / 36), CubeScale((index / 6) % 6), CubeScale(index % 6))
    else
      var k := num - 231;
      assert k * 240 == 24 * (10 * k);
      var grey := SaturatingSub(k * 240 / 24, 2);
      Rgb(grey, grey, grey)
  }

  function BitChar(b: nat): char {
    if b == 1 then '1' else '0'
  }

  /** The `{:03b}` text of every value below 8 has exactly three digits. */
  lemma PaddedBinarySmall(v: nat)
    requires v < 8
    ensures PaddedBinary(v, 3) == [BitChar(Bit(v, 2)), BitChar(Bit(v, 1)), BitChar(Bit(v, 0))]
  {
    if v == 0 {
    } else if v == 1 {
    } else if v == 2 {
    } else if v == 3 {
    } else if v == 4 {
    } else if v == 5 {
    } else if v == 6 {
    } else {
    }
  }

  /**
   * The low-intensity primaries 0..6: channel i is 127 exactly when bit i of
   * the code is set (bit 0 is red), and the padding loop adds nothing.
   */
  lemma LowIntensityBits(num: u8)
    requires num <= 6
    ensures |BitChannels(num, 2)| == 3
    ensures Ansi8ToRgb(num) == Rgb(127 * Bit(num, 0), 127 * Bit(num, 1), 127 * Bit(num, 2))
  {
    PaddedBinarySmall(num);
  }

  /** The high-intensity primaries 9..15: channel i is 255 exactly when bit i of n - 8 is set. */
  lemma HighIntensityBits(num: u8)
    requires 9 <= num <= 15
    ensures Ansi8ToRgb(num) == Rgb(255 * Bit(num - 8, 0), 255 * Bit(num - 8, 1), 255 * Bit(num - 8, 2))
  {
    PaddedBinarySmall(num - 8);
  }

  /** The grey ramp rises strictly from 8 at code 232 to 238 at code 255. */
  lemma GreyRampIncreasing(m: u8, n: u8)
    requires 232 <= m < n
    ensures 8 <= Ansi8ToRgb(m).r < Ansi8ToRgb(n).r <= 238
  {
  }

  /** The padding loop of the 0..=6 arm: pushes zeros until the buffer holds `n` channels. */
  method PadChannels(bits: seq<u8>, n: nat) returns (padded: seq<u8>)
    ensures padded == PadZeros(bits, n)
  {
    padded := bits;
    while |padded| < n
      invariant PadZeros(padded, n) == PadZeros(bits, n)
      decreases n - |padded|
    {
      padded := padded + [0];
    }
  }

  /**
   * The 0..=6 arm as the source writes it: a buffer built from the binary
   * digits, padded by the loop, then read at its first three places.
   */
  method LowIntensityRgb(num: u8) returns (rgb: Rgb)
    requires num <= 6
    ensures rgb == Ansi8ToRgb(num)
  {
    var bits := PadChannels(BitChannels(num, 2), 3);
    rgb := Rgb(bits[0], bits[1], bits[2]);
  }

  /** `ansi8_to_hex`: seven characters, accepted by the validator, decoding back to the code's RGB. */
  function Ansi8ToHex(num: u8): (s: string)
    ensures |s| == 7 && ValidateHex(s).Ok?
    ensures HexToRgb(s) == Ansi8ToRgb(num)
  {
    var rgb := Ansi8ToRgb(num);
    RgbHexRoundTrip(rgb);
    RgbToHex(rgb)
  }

  /** The literal decodings of the source's doc comment and tests. */
  lemma AnsiExamples()
    ensures Ansi8ToRgb(196) == Rgb(255, 0, 0) && Ansi8ToRgb(46) == Rgb(0, 255, 0)
    ensures Ansi8ToRgb(21) == Rgb(0, 0, 255) && Ansi8ToRgb(231) == Rgb(255, 255, 255)
    ensures Ansi8ToRgb(232) == Rgb(8, 8, 8) && Ansi8ToRgb(243) == Rgb(118, 118, 118)
    ensures Ansi8ToRgb(255) == Rgb(238, 238, 238)
    ensures Ansi8ToHex(196) == "#FF0000"
  {
  }

  /**
   * The closed set of colour inputs the `IntoColorString` impls accept: an
   * RGB triple, a hex string (`String` and `&str` behave alike) or an ANSI byte.
   */
  datatype ColorInput =
    | RgbInput(rgb: Rgb)
    | HexInput(hex: string)
    | AnsiInput(code: u8)

  /**
   * `ansi_from_color_definition`: the decimal text of the input's ANSI-256
   * code. Only a hex string can fail, exactly when the validator rejects it,
   * and then with the validator's error.
   */
  function AnsiFromColorDefinition(input: ColorInput): (r: Result<string, ColorConversionError>)
    ensures input.AnsiInput? ==> r == Ok(DecimalString(input.code))
    ensures input.RgbInput? ==> r == Ok(DecimalString(RgbToAnsi8(input.rgb)))
    ensures input.HexInput? ==> (r.Err? <==> ValidateHex(input.hex).Err?)
    ensures input.HexInput? && r.Err? ==> r.error == InvalidHex(InvalidHexPrefix + input.hex)
    ensures input.HexInput? && r.Ok? ==>
      ValidateHex(input.hex).Ok? && r.value == DecimalString(HexToAnsi8(input.hex))
  {
    match input
    case RgbInput(rgb) => Ok(DecimalString(RgbToAnsi8(rgb)))
    case HexInput(hex) =>
      (match ValidateHex(hex)
       case Err(e) => Err(e)
       case Ok(_) => Ok(DecimalString(HexToAnsi8(hex))))
    case AnsiInput(code) => Ok(DecimalString(code))
  }

  /** A successful result is always the decimal spelling of a code 0..255. */
  lemma ColorStringIsCode(input: ColorInput)
    requires AnsiFromColorDefinition(input).Ok?
    ensures var s := AnsiFromColorDefinition(input).value;
      1 <= |s| <= 3 && (forall i :: 0 <= i < |s| ==> IsDigit(s[i])) && ParseDecimal(s) < 256
  {
    var s := AnsiFromColorDefinition(input).value;
    var n: u8 := match input
      case RgbInput(rgb) => RgbToAnsi8(rgb)
      case HexInput(hex) => HexToAnsi8(hex)
      case AnsiInput(code) => code;
    assert s == DecimalString(n);
    DecimalRoundTrip(n);
    if n >= 10 {
      assert s[..|s| - 1] == DecimalString(n / 10);
    }
  }
}
