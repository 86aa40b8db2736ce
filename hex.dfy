/** Hex string to RGB and to ANSI-256 (src/color/hex.rs). */
module Hex {
  import opened Common
  import opened Validate
  import opened RgbColor

  /** `to_digit(16)` of one hex digit, case-insensitively. */
  function HexDigitValue(c: char): (v: nat)
    requires IsAsciiHexDigit(c)
    ensures v < 16
  {
    if '0' <= c <= '9' then (c as int) - ('0' as int)
    else if 'a' <= c <= 'f' then (c as int) - ('a' as int) + 10
    else (c as int) - ('A' as int) + 10
  }

  /** `trim_start_matches('#')`: removes every leading `#`, not just one. */
  function TrimHashes(s: string): (t: string)
    ensures |t| <= |s| && (t == [] || t[0] != '#')
  {
    if |s| > 0 && s[0] == '#' then TrimHashes(s[1..]) else s
  }

  /**
   * What `TrimHashes` keeps is a suffix of its input and everything it cuts
   * off is `#`: only leading `#` are removed.
   */
  lemma {:induction false} TrimHashesCutsLeadingHashes(s: string)
    ensures var t := TrimHashes(s);
      && t == s[|s| - |t|..]
      && forall i :: 0 <= i < |s| - |t| ==> s[i] == '#'
    decreases |s|
  {
    if |s| > 0 && s[0] == '#' {
      TrimHashesCutsLeadingHashes(s[1..]);
    }
  }

  /** `u8::from_str_radix(s, 16).unwrap()` on two hex digits. */
  function ParseHexByte(s: string): (v: u8)
    requires |s| == 2 && AllHexDigits(s)
    ensures v / 16 == HexDigitValue(s[0]) && v % 16 == HexDigitValue(s[1])
  {
    DivMod16(HexDigitValue(s[0]), HexDigitValue(s[1]));
    16 * HexDigitValue(s[0]) + HexDigitValue(s[1])
  }

  /** On validated input, stripping every `#` and stripping one `#` agree. */
  lemma TrimAgreesWithStrip(hex: string)
    requires ValidateHex(hex).Ok?
    ensures TrimHashes(hex) == StripOneHash(hex)
    ensures var h := StripOneHash(hex); (|h| == 3 || |h| == 6) && AllHexDigits(h)
  {
    var h := StripOneHash(hex);
    assert (|h| == 3 || |h| == 6) && AllHexDigits(h);
    assert h[0] != '#' by { assert IsAsciiHexDigit(h[0]); }
    assert TrimHashes(h) == h;
  }

  /**
   * `hex_to_rgb`, total on validated input: for six digits each channel is
   * 16 * hi + lo of its digit pair, for three digits 17 times its one digit.
   */
  function HexToRgb(hex: string): (c: Rgb)
    requires ValidateHex(hex).Ok?
    ensures var h := StripOneHash(hex);
      && (|h| == 6 ==>
            && c.r == 16 * HexDigitValue(h[0]) + HexDigitValue(h[1])
            && c.g == 16 * HexDigitValue(h[2]) + HexDigitValue(h[3])
            && c.b == 16 * HexDigitValue(h[4]) + HexDigitValue(h[5]))
      && (|h| == 3 ==>
            && c.r == 17 * HexDigitValue(h[0])
            && c.g == 17 * HexDigitValue(h[1])
            && c.b == 17 * HexDigitValue(h[2]))
  {
    TrimAgreesWithStrip(hex);
    var h := TrimHashes(hex);
    if |h| == 6 then
      assert h[0..2] == [h[0], h[1]] && h[2..4] == [h[2], h[3]] && h[4..6] == [h[4], h[5]];
      Rgb(ParseHexByte(h[0..2]), ParseHexByte(h[2..4]), ParseHexByte(h[4..6]))
    else
      assert h[0..1] + h[0..1] == [h[0], h[0]];
      assert h[1..2] + h[1..2] == [h[1], h[1]];
      assert h[2..3] + h[2..3] == [h[2], h[2]];
      Rgb(ParseHexByte(h[0..1] + h[0..1]), ParseHexByte(h[1..2] + h[1..2]), ParseHexByte(h[2..3] + h[2..3]))
  }

  /** `hex_to_ansi8`: the conversion through RGB; it never yields a system colour 0..15. */
  function HexToAnsi8(hex: string): (code: u8)
    requires ValidateHex(hex).Ok?
    ensures 16 <= code
  {
    RgbToAnsi8(HexToRgb(hex))
  }

  /**
   * The two strippings differ off the validated domain: `##123456` loses both
   * `#` in `hex_to_rgb`, leaving six digits, but the validator rejects it.
   */
  lemma ExtraHashMismatch()
    ensures TrimHashes("##123456") == "123456" && StripOneHash("##123456") == "#123456"
    ensures ValidateHex("##123456").Err?
  {
    DoubleHashRejected("##123456");
    assert "##123456"[1..] == "#123456";
    assert "#123456"[1..] == "123456";
  }

  /**
   * The same mismatch for every six-digit body: with two leading `#` the
   * body is what `hex_to_rgb` reads, yet the validator accepts only the body.
   */
  lemma DoubleHashFamily(d: string)
    requires |d| == 6 && AllHexDigits(d)
    ensures TrimHashes("##" + d) == d
    ensures ValidateHex(d).Ok? && ValidateHex("##" + d).Err?
  {
    DoubleHashRejected("##" + d);
    assert d[0] != '#' by { assert IsAsciiHexDigit(d[0]); }
    assert ("#" + d)[1..] == d;
    assert TrimHashes("#" + d) == d;
    assert ("##" + d)[1..] == "#" + d;
  }

  /** Rendering a byte as `{:02X}` and parsing the two digits back gives the byte. */
  lemma HexByteRoundTrip(x: u8)
    ensures AllHexDigits(HexByte(x)) && ParseHexByte(HexByte(x)) == x
  {
  }

  /** `hex_to_rgb(rgb_to_hex(c)) == c`: the hex rendering loses nothing. */
  lemma {:induction false} RgbHexRoundTrip(c: Rgb)
    ensures HexToRgb(RgbToHex(c)) == c
  {
    var s := RgbToHex(c);
    var h := StripOneHash(s);
    assert h == HexByte(c.r) + HexByte(c.g) + HexByte(c.b);
    HexByteRoundTrip(c.r);
    HexByteRoundTrip(c.g);
    HexByteRoundTrip(c.b);
  }

  /** ASCII upper-casing of a hex digit. */
  function UpperAscii(c: char): (u: char)
    requires IsAsciiHexDigit(c)
    ensures IsUpperHexDigit(u) && HexDigitValue(u) == HexDigitValue(c)
  {
    if 'a' <= c <= 'f' then ((c as int) - 32) as char else c
  }

  /**
   * The normal form of a validated hex colour: `#`, then six uppercase digits,
   * a three-digit body having each digit doubled.
   */
  function CanonicalHex(hex: string): (s: string)
    requires ValidateHex(hex).Ok?
    ensures |s| == 7
  {
    TrimAgreesWithStrip(hex);
    var h := StripOneHash(hex);
    if |h| == 6 then
      "#" + [UpperAscii(h[0]), UpperAscii(h[1]), UpperAscii(h[2]), UpperAscii(h[3]), UpperAscii(h[4]), UpperAscii(h[5])]
    else
      "#" + [UpperAscii(h[0]), UpperAscii(h[0]), UpperAscii(h[1]), UpperAscii(h[1]), UpperAscii(h[2]), UpperAscii(h[2])]
  }

  lemma UpperDigitOfValue(c: char)
    requires IsAsciiHexDigit(c)
    ensures UpperHexDigit(HexDigitValue(c)) == UpperAscii(c)
  {
  }

  /** The byte parsed from digits `a`, `b` is rendered back as those digits, upper-cased. */
  lemma HexBytePair(a: char, b: char)
    requires IsAsciiHexDigit(a) && IsAsciiHexDigit(b)
    ensures HexByte(16 * HexDigitValue(a) + HexDigitValue(b)) == [UpperAscii(a), UpperAscii(b)]
  {
    var hi, lo := HexDigitValue(a), HexDigitValue(b);
    DivMod16(hi, lo);
    UpperDigitOfValue(a);
    UpperDigitOfValue(b);
  }

  /** The two hex digits of a byte are its quotient and remainder by 16. */
  lemma DivMod16(hi: nat, lo: nat)
    requires hi < 16 && lo < 16
    ensures (16 * hi + lo) / 16 == hi && (16 * hi + lo) % 16 == lo
  {
  }

  /** Parsing a validated colour and rendering it again yields its normal form. */
  lemma {:induction false} HexRgbNormalises(hex: string)
    requires ValidateHex(hex).Ok?
    ensures RgbToHex(HexToRgb(hex)) == CanonicalHex(hex)
  {
    TrimAgreesWithStrip(hex);
    var h := StripOneHash(hex);
    var c := HexToRgb(hex);
    if |h| == 6 {
      assert c.r == 16 * HexDigitValue(h[0]) + HexDigitValue(h[1]);
      assert c.g == 16 * HexDigitValue(h[2]) + HexDigitValue(h[3]);
      assert c.b == 16 * HexDigitValue(h[4]) + HexDigitValue(h[5]);
      Render(c, h[0], h[1], h[2], h[3], h[4], h[5]);
    } else {
      assert c.r == 16 * HexDigitValue(h[0]) + HexDigitValue(h[0]);
      assert c.g == 16 * HexDigitValue(h[1]) + HexDigitValue(h[1]);
      assert c.b == 16 * HexDigitValue(h[2]) + HexDigitValue(h[2]);
      Render(c, h[0], h[0], h[1], h[1], h[2], h[2]);
    }
  }

  lemma Render(c: Rgb, a0: char, a1: char, b0: char, b1: char, c0: char, c1: char)
    requires IsAsciiHexDigit(a0) && IsAsciiHexDigit(a1) && IsAsciiHexDigit(b0)
    requires IsAsciiHexDigit(b1) && IsAsciiHexDigit(c0) && IsAsciiHexDigit(c1)
    requires c.r == 16 * HexDigitValue(a0) + HexDigitValue(a1)
    requires c.g == 16 * HexDigitValue(b0) + HexDigitValue(b1)
    requires c.b == 16 * HexDigitValue(c0) + HexDigitValue(c1)
    ensures RgbToHex(c) == "#" + [UpperAscii(a0), UpperAscii(a1), UpperAscii(b0), UpperAscii(b1), UpperAscii(c0), UpperAscii(c1)]
  {
    var u := [UpperAscii(a0), UpperAscii(a1), UpperAscii(b0), UpperAscii(b1), UpperAscii(c0), UpperAscii(c1)];
    assert HexByte(c.r) == u[0..2] by { HexBytePair(a0, a1); }
    assert HexByte(c.g) == u[2..4] by { HexBytePair(b0, b1); }
    assert HexByte(c.b) == u[4..6] by { HexBytePair(c0, c1); }
    assert u == u[0..2] + u[2..4] + u[4..6];
    assert RgbToHex(c) == "#" + HexByte(c.r) + HexByte(c.g) + HexByte(c.b);
  }

  /** The literal decodings of the source's doc comments. */
  lemma HexExamples()
    ensures ValidateHex("#FF00AA").Ok? && HexToRgb("#FF00AA") == Rgb(255, 0, 170)
    ensures ValidateHex("F0A").Ok? && HexToRgb("F0A") == Rgb(255, 0, 170)
  {
    assert StripOneHash("#FF00AA") == "FF00AA";
  }

  /** The literal hex-to-code conversions of the source's doc comments. */
  lemma HexToAnsi8Examples()
    ensures ValidateHex("#FF0000").Ok? && HexToAnsi8("#FF0000") == 196
    ensures ValidateHex("0F0").Ok? && HexToAnsi8("0F0") == 46
  {
    assert StripOneHash("#FF0000") == "FF0000";
    assert HexToRgb("#FF0000") == Rgb(255, 0, 0);
    assert HexToRgb("0F0") == Rgb(0, 255, 0);
    RgbToAnsi8CubeExamples();
  }
}
