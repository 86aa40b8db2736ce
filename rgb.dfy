/** RGB to hex and RGB to ANSI-256 conversion (src/color/rgb.rs). */
module RgbColor {
  import opened Common
  import opened Validate

  predicate IsUpperHexDigit(c: char) {
    ('0' <= c <= '9') || ('A' <= c <= 'F')
  }

  /** One uppercase hex digit, as `{:X}` prints it. */
  function UpperHexDigit(d: nat): (c: char)
    requires d < 16
    ensures IsUpperHexDigit(c) && IsAsciiHexDigit(c)
  {
    if d < 10 then (('0' as int) + d) as char else (('A' as int) + d - 10) as char
  }

  /** `{:02X}` of a byte: two uppercase hex digits, zero-padded. */
  function HexByte(x: u8): (s: string)
    ensures |s| == 2 && IsUpperHexDigit(s[0]) && IsUpperHexDigit(s[1])
  {
    [UpperHexDigit(x / 16), UpperHexDigit(x % 16)]
  }

  /**
   * `rgb_to_hex`: `#RRGGBB` with uppercase digits, always seven characters
   * long and always accepted by the validator.
   */
  function RgbToHex(c: Rgb): (s: string)
    ensures |s| == 7 && s[0] == '#'
    ensures forall i :: 1 <= i < 7 ==> IsUpperHexDigit(s[i])
    ensures ValidateHex(s).Ok?
  {
    var s := "#" + HexByte(c.r) + HexByte(c.g) + HexByte(c.b);
    assert forall i :: 1 <= i < 7 ==> IsAsciiHexDigit(s[i]);
    assert s[1..] == StripOneHash(s);
    s
  }

  /** The `all(|item| item == first)` test: all three channels are equal. */
  predicate IsGrey(c: Rgb) {
    c.r == c.g && c.g == c.b
  }

  /** `IsGrey` is the source's test that every item of `[r, g, b]` equals the first. */
  lemma IsGreyEveryItem(c: Rgb)
    ensures IsGrey(c) <==> forall i :: 0 <= i < 3 ==> [c.r, c.g, c.b][i] == [c.r, c.g, c.b][0]
  {
    var arr := [c.r, c.g, c.b];
    if forall i :: 0 <= i < 3 ==> arr[i] == arr[0] {
      assert arr[1] == arr[0] && arr[2] == arr[0];
    }
  }

  /**
   * `((x as f64) / 240.0 * 24.0).round()`, modelled as round-half-up of x/10.
   * For channels ending in 5 the real quotient is exactly k + 0.5; the model
   * assumes the floating-point evaluation rounds those up.
   */
  function GreyLevel(x: u8): (level: nat)
    ensures level <= 26
  {
    (x + 5) / 10
  }

  /**
   * `((x - 75) as f64 / 200.0 * 5.0).floor() as u8 + 1` for x >= 75, modelled as
   * the integer quotient (x - 75) / 40 plus one.
   */
  function Scaled(x: u8): (s: nat)
    requires 75 <= x
    ensures 1 <= s <= 5
  {
    (x - 75) / 40 + 1
  }

  function Pow6(e: nat): (p: nat)
    ensures p >= 1
  {
    if e == 0 then 1 else 6 * Pow6(e - 1)
  }

  /** The closure's `contribution` for channel `x` at position `index`. */
  function Contribution(x: u8, index: nat): (c: u8)
    requires index < 3
    ensures c <= 5 * Pow6(2 - index)
  {
    if x < 75 then 0
    else
      var w := Pow6(2 - index);
      assert Pow6(1) == 6 && Pow6(2) == 36;
      assert w <= 36;
      assert Scaled(x) * w <= 5 * w;
      Scaled(x) * w
  }

  /**
   * `arr.iter().enumerate().fold(val, ...)` from position `index` on. Every
   * partial sum is a `u8`, so the fold never overflows; the requires says how
   * much room the remaining positions need.
   */
  function CubeFold(channels: seq<u8>, index: nat, acc: u8): (code: u8)
    requires index + |channels| == 3
    requires acc + Pow6(3 - index) <= 232
    ensures acc <= code <= 231
    decreases |channels|
  {
    if channels == [] then acc
    else CubeFold(channels[1..], index + 1, acc + Contribution(channels[0], index))
  }

  /**
   * `rgb_to_ansi8`. Grey inputs land on 16, 231 or the grey ramp 232..255;
   * every other input lands in the colour cube 16..231.
   */
  function RgbToAnsi8(c: Rgb): (code: u8)
    ensures IsGrey(c) ==> code == 16 || code == 231 || 232 <= code <= 255
    ensures !IsGrey(c) ==> 16 <= code <= 231
  {
    if IsGrey(c) then
      var grey := GreyLevel(c.r);
      if grey < 1 then 16
      else if grey > 24 then 231
      else 231 + grey
    else
      CubeFold([c.r, c.g, c.b], 0, 16)
  }

  /** The 0..5 cube level a channel selects: 0 below 75, else its 40-wide bucket. */
  function Level(x: u8): (k: nat)
    ensures k <= 5
  {
    if x < 75 then 0 else Scaled(x)
  }

  /** The buckets of `Level`: cutoffs at 75, 115, 155, 195 and 235. */
  lemma LevelBuckets(x: u8, k: nat)
    requires 1 <= k <= 5
    ensures Level(x) == 0 <==> x < 75
    ensures Level(x) == k <==> 35 + 40 * k <= x < 75 + 40 * k
  {
  }

  /** The fold on three channels is the weighted sum 16 + 36 r + 6 g + b of their levels. */
  lemma {:induction false} RgbToAnsi8Cube(c: Rgb)
    requires !IsGrey(c)
    ensures RgbToAnsi8(c) == 16 + 36 * Level(c.r) + 6 * Level(c.g) + Level(c.b)
  {
    var s := [c.r, c.g, c.b];
    assert s[1..] == [c.g, c.b] && s[1..][1..] == [c.b] && s[1..][1..][1..] == [];
    var a0 := 16 + Contribution(c.r, 0);
    var a1 := a0 + Contribution(c.g, 1);
    var a2 := a1 + Contribution(c.b, 2);
    assert CubeFold([], 3, a2) == a2;
    assert CubeFold([c.b], 2, a1) == a2;
    assert CubeFold([c.g, c.b], 1, a0) == a2;
  }

  /**
   * The grey path by channel value: below 5 it gives 16 (black reuses the
   * cube), from 245 on 231 (white reuses the cube), and in between the ramp
   * step 232 + (x - 5) / 10.
   */
  lemma RgbToAnsi8Grey(x: u8)
    ensures RgbToAnsi8(Rgb(x, x, x)) ==
      if x < 5 then 16 else if x >= 245 then 231 else 232 + (x - 5) / 10
  {
  }

  /** The literal `rgb_to_hex` conversions of the source's doc comment and tests. */
  lemma RgbToHexExamples()
    ensures RgbToHex(Rgb(255, 0, 170)) == "#FF00AA" && RgbToHex(Rgb(127, 127, 127)) == "#7F7F7F"
  {
    assert HexByte(255) == "FF" && HexByte(0) == "00" && HexByte(170) == "AA" && HexByte(127) == "7F";
  }

  /** The primaries, black and white. */
  lemma RgbToHexExtremes()
    ensures RgbToHex(Rgb(255, 0, 0)) == "#FF0000" && RgbToHex(Rgb(0, 255, 0)) == "#00FF00"
    ensures RgbToHex(Rgb(0, 0, 255)) == "#0000FF"
    ensures RgbToHex(Rgb(0, 0, 0)) == "#000000" && RgbToHex(Rgb(255, 255, 255)) == "#FFFFFF"
  {
    assert HexByte(255) == "FF" && HexByte(0) == "00";
  }

  /** The literal cube conversions of the source's doc comment and tests. */
  lemma RgbToAnsi8CubeExamples()
    ensures RgbToAnsi8(Rgb(255, 0, 0)) == 196 && RgbToAnsi8(Rgb(0, 255, 0)) == 46
    ensures RgbToAnsi8(Rgb(0, 0, 255)) == 21 && RgbToAnsi8(Rgb(255, 255, 0)) == 226
    ensures RgbToAnsi8(Rgb(0, 255, 255)) == 51 && RgbToAnsi8(Rgb(255, 0, 255)) == 201
  {
    assert Level(255) == 5 && Level(0) == 0;
    RgbToAnsi8Cube(Rgb(255, 0, 0));
    RgbToAnsi8Cube(Rgb(0, 255, 0));
    RgbToAnsi8Cube(Rgb(0, 0, 255));
    RgbToAnsi8Cube(Rgb(255, 255, 0));
    RgbToAnsi8Cube(Rgb(0, 255, 255));
    RgbToAnsi8Cube(Rgb(255, 0, 255));
  }

  /** The literal grey conversions of the source's tests: 0, 128 and 255. */
  lemma RgbToAnsi8GreyExamples()
    ensures RgbToAnsi8(Rgb(0, 0, 0)) == 16 && RgbToAnsi8(Rgb(128, 128, 128)) == 244
    ensures RgbToAnsi8(Rgb(255, 255, 255)) == 231
  {
  }
}
