/**
 * How the encoder rgb_to_ansi8 and the decoder ansi8_to_rgb fit together
 * (src/color/rgb.rs, src/color/ansi.rs, src/color/hex.rs).
 */
module RoundTrips {
  import opened Common
  import opened RgbColor
  import opened Hex
  import opened Ansi

  /** The base-6 digits of a cube index, as the decoder reads them. */
  lemma CubeDigits(a: nat, b: nat, d: nat)
    requires a <= 5 && b <= 5 && d <= 5
    ensures var i := 36 * a + 6 * b + d; i / 36 == a && (i / 6) % 6 == b && i % 6 == d
  {
    var i := 36 * a + 6 * b + d;
    assert i == 6 * (6 * a + b) + d;
    assert i / 6 == 6 * a + b;
    assert i == 36 * a + (6 * b + d);
  }

  /** A cube index is the weighted sum of its three base-6 digits. */
  lemma CubeIndexDigits(i: nat)
    requires i < 216
    ensures i / 36 <= 5 && i == 36 * (i / 36) + 6 * ((i / 6) % 6) + i % 6
  {
    var q := i / 6;
    assert i == 6 * q + i % 6;
    assert q == 6 * (q / 6) + q % 6;
    assert q / 6 == i / 36;
  }

  lemma CubeValuesDistinct(j: nat, k: nat)
    requires j <= 5 && k <= 5 && j != k
    ensures CubeValues[j] != CubeValues[k]
  {
  }

  /** A cube code whose three base-6 digits are equal: one of the six cube greys. */
  predicate CubeGrey(n: u8)
    requires 16 <= n <= 231
  {
    var i := n - 16;
    i / 36 == (i / 6) % 6 && (i / 6) % 6 == i % 6
  }

  /** Each cube channel value falls in the bucket of its own level. */
  lemma LevelOfCubeValue(k: nat)
    requires k <= 5
    ensures Level(CubeValues[k]) == k
  {
  }

  /**
   * Every cube code that is not a cube grey survives decoding and re-encoding:
   * the cutoffs 75, 115, 155, 195, 235 separate the six channel values.
   */
  lemma {:induction false} CubeRoundTrip(n: u8)
    requires 16 <= n <= 231 && !CubeGrey(n)
    ensures RgbToAnsi8(Ansi8ToRgb(n)) == n
  {
    var a, b, d := CubeCodeDigits(n);
    CubeColourEncodes(a, b, d);
  }

  /** The base-6 digits of a cube code, and the colour the decoder gives it. */
  lemma CubeCodeDigits(n: u8) returns (a: nat, b: nat, d: nat)
    requires 16 <= n <= 231
    ensures a <= 5 && b <= 5 && d <= 5 && n == 16 + 36 * a + 6 * b + d
    ensures Ansi8ToRgb(n) == Rgb(CubeValues[a], CubeValues[b], CubeValues[d])
    ensures CubeGrey(n) <==> a == b && b == d
  {
    var i := n - 16;
    a, b, d := i / 36, (i / 6) % 6, i % 6;
    assert Ansi8ToRgb(n) == Rgb(CubeValues[a], CubeValues[b], CubeValues[d]);
    assert CubeGrey(n) <==> a == b && b == d;
    CubeIndexDigits(i);
  }

  /** A cube colour with two different channels encodes to its own cube index. */
  lemma CubeColourEncodes(a: nat, b: nat, d: nat)
    requires a <= 5 && b <= 5 && d <= 5 && !(a == b && b == d)
    ensures RgbToAnsi8(Rgb(CubeValues[a], CubeValues[b], CubeValues[d])) == 16 + 36 * a + 6 * b + d
  {
    var c := Rgb(CubeValues[a], CubeValues[b], CubeValues[d]);
    LevelOfCubeValue(a);
    LevelOfCubeValue(b);
    LevelOfCubeValue(d);
    assert !IsGrey(c) by {
      if a != b {
        CubeValuesDistinct(a, b);
      } else {
        CubeValuesDistinct(b, d);
      }
    }
    RgbToAnsi8Cube(c);
  }

  /** Every grey-ramp code survives decoding and re-encoding. */
  lemma RampRoundTrip(n: u8)
    requires 232 <= n
    ensures RgbToAnsi8(Ansi8ToRgb(n)) == n
  {
    var g := Ansi8ToRgb(n).r;
    RgbToAnsi8Grey(g);
  }

  /**
   * The grey formulas are not centred on each other: a grey x between 5 and
   * 244 comes back as a grey between x - 6 and x + 3, never further.
   */
  lemma GreyRoundTripError(x: u8)
    requires 5 <= x <= 244
    ensures var back := Ansi8ToRgb(RgbToAnsi8(Rgb(x, x, x)));
      IsGrey(back) && -3 <= x - back.r <= 6
  {
    RgbToAnsi8Grey(x);
  }

  /**
   * The four inner cube greys 59, 102, 145 and 188 do not survive: their
   * channel values 95..215 are re-encoded onto the grey ramp.
   */
  lemma CubeGreyDrifts(n: u8)
    requires 16 < n < 231 && CubeGrey(n)
    ensures 241 <= RgbToAnsi8(Ansi8ToRgb(n)) <= 253
  {
    var i := n - 16;
    var k := i % 6;
    CubeIndexDigits(i);
    assert i == 43 * k;
    var v := CubeValues[k];
    assert Ansi8ToRgb(n) == Rgb(v, v, v);
    assert 95 <= v <= 215;
    RgbToAnsi8Grey(v);
  }

  /** The codes that decoding and re-encoding leave unchanged. */
  predicate Stable(m: u8) {
    m == 16 || m == 231 || 232 <= m || (16 <= m <= 231 && !CubeGrey(m))
  }

  lemma StableRoundTrip(m: u8)
    requires Stable(m)
    ensures RgbToAnsi8(Ansi8ToRgb(m)) == m
  {
    if 232 <= m {
      RampRoundTrip(m);
    } else if m != 16 && m != 231 {
      CubeRoundTrip(m);
    }
  }

  /** A non-grey colour whose three levels differ encodes to a stable cube code. */
  lemma DistinctLevelsStable(c: Rgb)
    requires !IsGrey(c)
    requires !(Level(c.r) == Level(c.g) && Level(c.g) == Level(c.b))
    ensures Stable(RgbToAnsi8(c))
  {
    RgbToAnsi8Cube(c);
    CubeDigits(Level(c.r), Level(c.g), Level(c.b));
  }

  /** Decoding any code and re-encoding it always lands on a stable code. */
  lemma {:induction false} RoundTripLandsStable(n: u8)
    ensures Stable(RgbToAnsi8(Ansi8ToRgb(n)))
  {
    var c := Ansi8ToRgb(n);
    if !IsGrey(c) {
      if n <= 6 {
        PrimaryLevels(n);
      } else if 9 <= n <= 15 {
        BrightLevels(n);
      } else {
        var a, b, d := CubeCodeDigits(n);
        LevelOfCubeValue(a);
        LevelOfCubeValue(b);
        LevelOfCubeValue(d);
      }
      DistinctLevelsStable(c);
    }
  }

  /** A low-intensity primary has channel levels 0 and 2, so its levels differ where its channels do. */
  lemma PrimaryLevels(n: u8)
    requires n <= 6
    ensures var c := Ansi8ToRgb(n);
      (c.r == c.g <==> Level(c.r) == Level(c.g)) && (c.g == c.b <==> Level(c.g) == Level(c.b))
  {
    LowIntensityBits(n);
    assert Level(0) == 0 && Level(127) == 2;
  }

  /** A high-intensity primary has channel levels 0 and 5. */
  lemma BrightLevels(n: u8)
    requires 9 <= n <= 15
    ensures var c := Ansi8ToRgb(n);
      (c.r == c.g <==> Level(c.r) == Level(c.g)) && (c.g == c.b <==> Level(c.g) == Level(c.b))
  {
    HighIntensityBits(n);
    assert Level(0) == 0 && Level(255) == 5;
  }

  /** `hex_to_ansi8(ansi8_to_hex(n))`: one pass through the hex form. */
  function HexPass(n: u8): (m: u8)
    ensures m == RgbToAnsi8(Ansi8ToRgb(n))
  {
    HexToAnsi8(Ansi8ToHex(n))
  }

  /** A second pass through the hex form changes nothing: the pass is idempotent. */
  lemma HexPassIdempotent(n: u8)
    ensures HexPass(HexPass(n)) == HexPass(n)
  {
    RoundTripLandsStable(n);
    StableRoundTrip(HexPass(n));
  }

  /** The hex text reached after one pass is reproduced by every further pass. */
  lemma SecondPassStable(n: u8)
    ensures var h := Ansi8ToHex(HexPass(n)); Ansi8ToHex(HexToAnsi8(h)) == h
  {
    HexPassIdempotent(n);
  }

  /**
   * The first pass itself is not stable: code 1 decodes to #7F0000, which
   * re-encodes to cube code 88, whose colour is #870000.
   */
  lemma FirstPassNotStable()
    ensures HexPass(1) == 88
    ensures Ansi8ToHex(HexToAnsi8(Ansi8ToHex(1))) != Ansi8ToHex(1)
  {
    LowIntensityBits(1);
    assert Ansi8ToRgb(1) == Rgb(127, 0, 0);
    RgbToAnsi8Cube(Rgb(127, 0, 0));
    assert HexPass(1) == 88;
    assert Ansi8ToRgb(88) == Rgb(135, 0, 0);
    assert Ansi8ToHex(1) == RgbToHex(Rgb(127, 0, 0));
    assert Ansi8ToHex(88) == RgbToHex(Rgb(135, 0, 0));
    assert HexByte(127)[0] == '7' && HexByte(135)[0] == '8';
    assert Ansi8ToHex(1)[1] == '7';
    assert Ansi8ToHex(88)[1] == '8';
  }
}
