# terminal_style colour and formatting core, in Dafny

This project models the colour-conversion layer of the Rust crate
`terminal_style` (`src/color/`) and the formatting layer built on it
(`src/format/`). It proves what those functions promise.

The colour layer:

- **Validator.** `validate_hex` strips at most one leading `#`. It then
  accepts exactly three or six ASCII hex digits. Otherwise it returns
  `InvalidHex` with a message that carries the original input.
- **Converters.**
  - `hex_to_rgb` reads six digits as three digit pairs, or three digits as
    three doubled digits.
  - `rgb_to_hex` renders `#RRGGBB` in uppercase.
  - `rgb_to_ansi8` sends grey colours to the grey ramp 232..255, or to 16 or
    231 at the extremes. Every other colour goes into the 6x6x6 colour cube
    16..231, with cutoffs 75, 115, 155, 195 and 235.
  - `ansi8_to_rgb` decodes all five bands of the 256-colour palette.
  - `hex_to_ansi8` and `ansi8_to_hex` are compositions of the above.
- **Normaliser.** `ansi_from_color_definition` and its `IntoColorString`
  impls reduce an RGB triple, a hex string or a raw byte to the decimal text
  of an ANSI-256 code. Only a hex string can fail.

The formatting layer:

- **`Stylable`.** A shape-preserving cell map over a string, a vector of
  strings or a grid of strings. Its fallible form stops at the first failing
  cell, in row-major order.
- **SGR framing.** Functions that frame text with Select Graphic Rendition
  sequences (ECMA-48 section 8.3.117): `ESC [ n m` + text + `ESC [ 0 m`.
  The attributes are 1 bold, 2 faint, 3 italic, 4 underline and 7 inverse.
  The xterm 256-colour selectors are `38;5;N` (foreground) and `48;5;N`
  (background).

Modules follow the source files:

| module | source |
|---|---|
| `Common` | shared `u8`, RGB triple, `Result`, `Option` |
| `ColorError` | `src/color/error.rs` |
| `Validate` | `src/color/validate.rs` |
| `Hex` | `src/color/hex.rs` |
| `RgbColor` | `src/color/rgb.rs` |
| `Ansi` | `src/color/ansi.rs` |
| `Decimal` | `u8::to_string` |
| `RoundTrips` | how the encoder and the decoder fit together |
| `Sgr` | the escape-sequence frame shared by the format functions |
| `Stylable` | `src/format/stylable.rs` |
| `Style` | `src/format/style.rs` |
| `ColorApply` | `src/format/color_apply.rs` |
| `Text` | `src/format/text.rs` and `src/format/colors.rs` |
| `FormatTests` | the literal expectations of `tests/format.rs` |

The source is mostly pure, so most of the model is functions and lemmas.
The source's loops become methods with loop invariants, each proved equal to
a specification function:

- `Stylable.ApplyResultRow` and `Stylable.ApplyResultGrid` are the push loops
  of `apply_result`. They exit early at the first `?` that fails.
- `Ansi.PadChannels` and `Ansi.LowIntensityRgb` are the padding loop of
  `ansi8_to_rgb`.

Modelling choices:

- **Floating point.** `rgb_to_ansi8` computes with `f64`; the model uses
  integers.
  - The cube level of a channel `x >= 75` is modelled as `(x - 75) / 40 + 1`.
    The `f64` expression `floor((x - 75) / 200 * 5)` is this quotient.
  - The grey level is modelled as `(x + 5) / 10`, which is round-half-up of
    `x / 10`. This is an explicit assumption. For a channel ending in 5, the
    exact value is k + 0.5, and the model assumes `f64` rounds it up. The
    first consequence: 245 maps to 231, not to 255. The literals 0 → 16,
    128 → 244 and 255 → 231 of the tests are proved
    (`RgbColor.RgbToAnsi8GreyExamples`).
- **The hex round trip is not stable on its first pass.** One might expect
  converting a hex colour to ANSI and back to be idempotent at the hex
  level. The code does not do that:
  - code 1 decodes to `#7F0000`;
  - that re-encodes to cube code 88;
  - code 88 decodes to `#870000`.

  The model follows the code. `RoundTrips.FirstPassNotStable` states the
  counterexample. `RoundTrips.HexPassIdempotent` proves the idempotence that
  does hold: on codes, after the first pass.
- **Two `#`-stripping rules.** `hex_to_rgb` trims every leading `#`
  (src/color/hex.rs:15). `validate_hex` strips only one
  (src/color/validate.rs:27).
  - The model keeps both, as `Hex.TrimHashes` and `Validate.StripOneHash`.
  - It proves they agree on validated input (`Hex.TrimAgreesWithStrip`).
  - `Hex.ExtraHashMismatch` and `Hex.DoubleHashFamily` show where they differ.
- **Asymmetric grey formulas.** The encoder's grey formula (src/color/rgb.rs:46)
  and the decoder's (src/color/ansi.rs:112) are not inverse to each other.
  `RoundTrips.GreyRoundTripError` bounds the drift.

## Model

| member | source | states |
|---|---|---|
| Validate.StripOneHash | src/color/validate.rs:27 | at most one leading `#` is removed; an input without one is unchanged |
| Validate.ValidateHex | src/color/validate.rs:26-37 | Ok exactly for three or six hex digits, optionally after one `#`; otherwise `InvalidHex` whose message is the fixed prefix followed by the unstripped input |
| Validate.DoubleHashRejected | src/color/validate.rs:27 | every input starting with `##` is rejected, because only one `#` is stripped |
| Validate.AcceptedBodyIsAscii | src/color/validate.rs:29 | an accepted body is 3 or 6 ASCII characters, so byte length and character count agree |
| Validate.ValidateHexExamples | tests/color.rs:58-98 | the accepted and rejected literals of the doc comment and of the tests, `##123456` included |
| Hex.TrimHashes | src/color/hex.rs:15 | the result is no longer than the input and does not start with `#` |
| Hex.TrimHashesCutsLeadingHashes | src/color/hex.rs:15 | the result is a suffix of the input and every character cut off is `#`, so only leading `#` are removed |
| Hex.HexDigitValue | src/color/hex.rs:19-21 | the value of one hex digit, either case, is below 16 |
| Hex.ParseHexByte | src/color/hex.rs:19-27 | two hex digits parse to the byte whose high nibble is the first digit's value and whose low nibble is the second's |
| Hex.TrimAgreesWithStrip | src/color/hex.rs:15 | on validated input, trimming every `#` equals stripping one, leaving 3 or 6 hex digits |
| Hex.HexToRgb | src/color/hex.rs:14-30 | total on validated input; six digits give `16*hi + lo` per channel, three digits give `17*d`, case-insensitively |
| Hex.HexToAnsi8 | src/color/hex.rs:43-46 | the code of the decoded colour; never a system colour below 16 |
| Hex.ExtraHashMismatch | src/color/hex.rs:15 | `##123456` trims to six digits in `hex_to_rgb`, yet the validator rejects it |
| Hex.DoubleHashFamily | src/color/hex.rs:15 | for every six-digit body `d`, `##d` trims to `d`; the validator accepts `d` and rejects `##d` |
| Hex.HexByteRoundTrip | src/color/hex.rs:19-21 | parsing the two `{:02X}` digits of a byte gives the byte back |
| Hex.RgbHexRoundTrip | src/color/hex.rs:17-22 | `hex_to_rgb(rgb_to_hex(c)) == c` for every colour |
| Hex.UpperAscii | src/color/hex.rs:19-21 | upper-casing a hex digit keeps its value |
| Hex.CanonicalHex | src/color/hex.rs:14-30 | the normal form of a validated colour is seven characters long |
| Hex.HexBytePair | src/color/hex.rs:19-21 | the byte parsed from two digits renders back as the same digits, upper-cased |
| Hex.HexRgbNormalises | src/color/hex.rs:14-30 | decoding a validated colour and rendering it again gives `#` and six uppercase digits, a shorthand digit doubled |
| Hex.HexExamples | src/color/hex.rs:11-12 | `#FF00AA` and `F0A` both decode to (255, 0, 170) |
| Hex.HexToAnsi8Examples | src/color/hex.rs:40-41 | `#FF0000` gives 196 and `0F0` gives 46 |
| RgbColor.UpperHexDigit | src/color/rgb.rs:17 | a digit below 16 prints as an uppercase hex digit |
| RgbColor.HexByte | src/color/rgb.rs:17 | `{:02X}`: exactly two uppercase hex digits, zero-padded |
| RgbColor.RgbToHex | src/color/rgb.rs:16-18 | `#` and six uppercase hex digits, seven characters, always accepted by the validator |
| RgbColor.GreyLevel | src/color/rgb.rs:46 | the grey level of a channel is at most 26 |
| RgbColor.Scaled | src/color/rgb.rs:70 | a channel of at least 75 selects a cube level from 1 to 5 |
| RgbColor.Contribution | src/color/rgb.rs:66-72 | a channel's weighted contribution never exceeds five times its weight |
| RgbColor.CubeFold | src/color/rgb.rs:65-74 | the fold never overflows a `u8` and stays at or below 231 |
| RgbColor.RgbToAnsi8 | src/color/rgb.rs:40-75 | a grey gives 16, 231 or a ramp code 232..255; any other colour gives a cube code 16..231 |
| RgbColor.Level | src/color/rgb.rs:66-72 | the cube level of a channel is at most 5 |
| RgbColor.LevelBuckets | src/color/rgb.rs:59-72 | level 0 exactly below 75; level k for 35+40k <= x < 75+40k, so the cutoffs are 75, 115, 155, 195, 235 |
| RgbColor.RgbToAnsi8Cube | src/color/rgb.rs:65-74 | a non-grey colour encodes as 16 + 36 r + 6 g + b over the three channel levels |
| RgbColor.RgbToAnsi8Grey | src/color/rgb.rs:44-56 | grey x gives 16 below 5, 231 from 245 on, and 232 + (x - 5) / 10 between |
| RgbColor.RgbToHexExamples | src/color/rgb.rs:14 | (255, 0, 170) renders `#FF00AA`; (127, 127, 127) renders `#7F7F7F` |
| RgbColor.RgbToHexExtremes | tests/color.rs:6-14 | red, green and blue render `#FF0000`, `#00FF00`, `#0000FF`; black `#000000` and white `#FFFFFF` |
| RgbColor.IsGreyEveryItem | src/color/rgb.rs:41-42 | a colour is grey exactly when every item of `[r, g, b]` equals the first |
| RgbColor.RgbToAnsi8CubeExamples | tests/color.rs:16-24 | red 196, green 46, blue 21, yellow 226, cyan 51, magenta 201 |
| RgbColor.RgbToAnsi8GreyExamples | tests/color.rs:26-31 | black 16, mid grey 244, white 231 |
| Ansi.Binary | src/color/ansi.rs:66 | `{:b}` of a number is a non-empty string of binary digits |
| Ansi.PaddedBinary | src/color/ansi.rs:66 | `{:03b}` has at least three binary digits |
| Ansi.BitChannels | src/color/ansi.rs:66-71 | the digit pipeline yields at least three channels |
| Ansi.PadZeros | src/color/ansi.rs:74-76 | the padded buffer keeps the original values and only appends zeros |
| Ansi.Ansi8ToRgb | src/color/ansi.rs:62-116 | total over 0..255; 7 and 8 are fixed greys; a cube code is its three base-6 digits looked up in 0, 95, 135, 175, 215, 255; a ramp code n is the grey 10(n - 231) - 2 |
| Ansi.CubeScale | src/color/ansi.rs:100-106 | the `scale` closure maps levels 0..5 to 0, 95, 135, 175, 215, 255 |
| Ansi.SaturatingSub | src/color/ansi.rs:112 | the difference where it is not negative, and 0 where it would be |
| Ansi.Reverse | src/color/ansi.rs:68 | the reversed string has the same length, character i being character n-1-i of the input |
| Ansi.BinaryDigitValue | src/color/ansi.rs:69 | a binary digit's value is 0 or 1, and writing that bit back gives the digit |
| Ansi.PaddedBinarySmall | src/color/ansi.rs:66 | below 8, `{:03b}` is exactly the three bits, most significant first |
| Ansi.LowIntensityBits | src/color/ansi.rs:64-79 | for 0..6, channel i is 127 exactly when bit i is set (bit 0 is red), and the buffer already has three entries |
| Ansi.HighIntensityBits | src/color/ansi.rs:82-92 | for 9..15, channel i is 255 exactly when bit i of n - 8 is set |
| Ansi.GreyRampIncreasing | src/color/ansi.rs:110-113 | the ramp rises strictly, from 8 at 232 to 238 at 255 |
| Ansi.PadChannels | src/color/ansi.rs:74-76 | the `while ... push(0)` loop leaves the padded buffer |
| Ansi.LowIntensityRgb | src/color/ansi.rs:64-79 | the 0..=6 arm as written, buffer and loop included, equals the decoder |
| Ansi.Ansi8ToHex | src/color/ansi.rs:127-131 | seven characters, accepted by the validator, and decoding back to the code's colour |
| Ansi.AnsiExamples | tests/color.rs:33-46 | 196, 46, 21, 231, 232, 243 and 255 decode to the tested colours; 196 renders `#FF0000` |
| Ansi.AnsiFromColorDefinition | src/color/ansi.rs:12-54 | a byte gives its own decimal text; a triple gives the decimal text of its code; a hex string fails exactly when the validator does, with the validator's error, and otherwise gives the decimal text of its code |
| Ansi.ColorStringIsCode | src/color/ansi.rs:25-54 | every successful result is one to three decimal digits reading as a number below 256 |
| Decimal.DecimalString | src/color/ansi.rs:27 | `to_string` of a code: only digits, with no leading zero |
| Decimal.DecimalRoundTrip | src/color/ansi.rs:27 | reading the decimal text back gives the number |
| Decimal.DecimalInjective | src/color/ansi.rs:52 | distinct codes have distinct texts |
| RoundTrips.CubeDigits | src/color/ansi.rs:95-98 | the decoder reads back the base-6 digits of any weighted sum 36a + 6b + d |
| RoundTrips.CubeIndexDigits | src/color/ansi.rs:95-98 | every cube index is the weighted sum of its three base-6 digits |
| RoundTrips.CubeValuesDistinct | src/color/ansi.rs:100-106 | the six cube channel values are pairwise distinct |
| RoundTrips.LevelOfCubeValue | src/color/rgb.rs:59-72 | each cube channel value falls in the bucket of its own level |
| RoundTrips.CubeRoundTrip | src/color/rgb.rs:65-74 | `rgb_to_ansi8(ansi8_to_rgb(n)) == n` for every cube code whose three digits are not all equal |
| RoundTrips.CubeCodeDigits | src/color/ansi.rs:93-109 | a cube code's digits, the colour it decodes to, and that it is a cube grey exactly when its digits agree |
| RoundTrips.CubeColourEncodes | src/color/rgb.rs:65-74 | a cube colour with two different channels encodes to its own index |
| RoundTrips.RampRoundTrip | src/color/ansi.rs:110-113 | every ramp code 232..255 survives decoding and re-encoding |
| RoundTrips.GreyRoundTripError | src/color/rgb.rs:44-56 | a grey from 5 to 244 comes back as a grey at most 6 below and 3 above it |
| RoundTrips.CubeGreyDrifts | src/color/ansi.rs:93-109 | the inner cube greys 59, 102, 145 and 188 are re-encoded onto the ramp 241..253 |
| RoundTrips.StableRoundTrip | src/color/ansi.rs:62-116 | every stable code survives decoding and re-encoding |
| RoundTrips.DistinctLevelsStable | src/color/rgb.rs:65-74 | a non-grey colour whose levels are not all equal encodes to a stable code |
| RoundTrips.RoundTripLandsStable | src/color/ansi.rs:62-116 | decoding any code and re-encoding it lands on a stable code |
| RoundTrips.PrimaryLevels | src/color/ansi.rs:64-79 | the levels of a low-intensity primary differ exactly where its channels differ |
| RoundTrips.BrightLevels | src/color/ansi.rs:82-92 | the same for the high-intensity primaries |
| RoundTrips.HexPass | src/color/hex.rs:43-46 | `hex_to_ansi8(ansi8_to_hex(n))` is the encoder applied to the decoded colour |
| RoundTrips.HexPassIdempotent | src/color/ansi.rs:127-131 | a second pass through the hex form changes nothing |
| RoundTrips.SecondPassStable | src/color/ansi.rs:127-131 | the hex text reached after one pass is reproduced by every further pass |
| RoundTrips.FirstPassNotStable | src/color/ansi.rs:64-79 | code 1 re-encodes to 88, so its hex form changes from `#7F...` to `#87...` |
| Sgr.Wrap | src/format/style.rs:2 | `ESC [`, then the parameter, then `m`, then the text, then the reset `ESC [ 0 m`; length is 7 plus the parts |
| Sgr.FramedWrap | src/format/style.rs:1-15 | the wrapped string decomposes into prefix, parameter, `m`, the text itself and the reset |
| Sgr.ParameterAt | src/format/style.rs:2 | the character after `ESC [` is the first character of the parameter |
| Sgr.WrapInjective | src/format/style.rs:1-15 | a wrapped string determines its parameter and its text |
| Style.Bold | src/format/style.rs:1-3 | the text framed by `ESC[1m` and the reset |
| Style.Italic | src/format/style.rs:5-7 | the text framed by `ESC[3m` and the reset |
| Style.Faint | src/format/style.rs:9-11 | the text framed by `ESC[2m` and the reset |
| Style.Inverse | src/format/style.rs:13-15 | the text framed by `ESC[7m` and the reset |
| Style.Underline | src/format/text.rs:22-24 | the cell function of `underline`: the text framed by `ESC[4m` and the reset |
| Style.StyledInjective | src/format/style.rs:1-15 | one styled output never comes from two different attribute/text pairs |
| Style.AttributesDistinct | tests/format.rs:177-204 | the five attributes are pairwise different on any two texts |
| Style.BoldExample | tests/format.rs:51-56 | `bold("Hello, World!")` is the tested literal |
| Style.EmptyExamples | tests/format.rs:58-105 | `bold`, `faint`, `italic` and `inverse` of an empty text leave only the two escape sequences |
| Style.SpecialCharacterExample | tests/format.rs:135-140 | punctuation and digits pass through unchanged |
| Stylable.Apply | src/format/stylable.rs:17-108 | same shape as the input; every cell `s` becomes `f(s)` |
| Stylable.TraverseRow | src/format/stylable.rs:85-95 | Ok exactly when `f` succeeds on every element, then the results in order; otherwise the error of the first failing element |
| Stylable.TraverseGrid | src/format/stylable.rs:110-124 | Ok exactly when every cell succeeds, then same row count, row lengths and cell results; otherwise the error of the first failing cell in row-major order |
| Stylable.ApplyResult | src/format/stylable.rs:27-124 | for all three shapes: Ok exactly when every cell succeeds, then the shape kept and each cell replaced by its result; otherwise the first failing cell's error |
| Stylable.RowErrorPersists | src/format/stylable.rs:91-93 | once a prefix of a row has failed, the rest of the row does not change the result |
| Stylable.GridErrorPersists | src/format/stylable.rs:116-122 | once a prefix of the rows has failed, the remaining rows do not change the result |
| Stylable.ApplyResultRow | src/format/stylable.rs:85-95 | the `for`/`push` loop with its early `?` exit computes `TraverseRow` |
| Stylable.ApplyResultGrid | src/format/stylable.rs:110-124 | the nested loops with their early exit compute `TraverseGrid` |
| Stylable.CellsOfApply | src/format/stylable.rs:101-108 | `apply` keeps the number of cells and maps each cell in visiting order |
| Stylable.FlattenMapped | src/format/stylable.rs:105-107 | a grid mapped cell by cell flattens to the mapped flattening |
| Stylable.ApplyResultOfTotal | src/format/stylable.rs:78-95 | `apply_result` with a function that never fails is `Ok` of `apply` |
| Stylable.NoCellsUnchanged | src/format/stylable.rs:90-94 | a container without cells comes back unchanged, whatever `f` does |
| Stylable.FlattenEmpty | src/format/stylable.rs:110-124 | a grid without cells has only empty rows |
| Stylable.UniformFailure | src/format/stylable.rs:115-123 | if every call fails with the same error, any container with a cell fails with it |
| ColorApply.CodeOf | src/color/ansi.rs:25-54 | the ANSI-256 code behind each kind of input; a hex string has one exactly when it validates |
| ColorApply.Color | src/format/color_apply.rs:3-9 | Ok exactly when the input has a code; the error is the validator's `InvalidHex` for that hex string; the output is the text framed by `ESC[38;5;<code>m` and the reset |
| ColorApply.Background | src/format/color_apply.rs:11-17 | as `Color`, framed by `ESC[48;5;<code>m` |
| ColorApply.ColorIsWrap | src/format/color_apply.rs:8 | a convertible input gives the wrapped text with the code's decimal spelling |
| ColorApply.SelectorIsParameter | src/format/color_apply.rs:8 | `38;5;<code>` and `48;5;<code>` contain no `m`, so they cannot end the sequence early |
| ColorApply.ColorInjective | src/format/color_apply.rs:3-9 | two colourings that print the same are of the same text with the same code |
| ColorApply.ForegroundNotBackground | src/format/color_apply.rs:3-17 | a foreground colouring never equals a background colouring |
| ColorApply.SelectorAt | src/format/color_apply.rs:3-17 | the character after `ESC [` is `3` for every foreground colouring and `4` for every background one |
| ColorApply.OnlyHexFails | src/format/color_apply.rs:7 | a byte or RGB input never fails |
| Text.Bold | src/format/text.rs:6-8 | every cell bold, the shape unchanged |
| Text.Italic | src/format/text.rs:10-12 | every cell italic, the shape unchanged |
| Text.Faint | src/format/text.rs:14-16 | every cell faint, the shape unchanged |
| Text.Inverse | src/format/text.rs:18-20 | every cell inverse, the shape unchanged |
| Text.Underline | src/format/text.rs:22-24 | every cell underlined, the shape unchanged |
| Text.ScalarAgreesWithStyle | src/format/text.rs:6-20 | on one string the container functions agree with src/format/style.rs |
| Text.Color | src/format/text.rs:27-37 | fails exactly when the colour does not convert and there is a cell, with the conversion's error; a convertible colour frames every cell with the same `38;5;<code>` selector and keeps the shape; with no cells the input comes back unchanged; src/format/colors.rs:5-18 has the same body |
| Text.Background | src/format/text.rs:39-49 | as `Color`, with the `48;5;<code>` selector; src/format/colors.rs:21-32 has the same body |
| Text.ScalarAgreesWithColorApply | src/format/text.rs:27-49 | on one string, `color` and `background` agree with src/format/color_apply.rs, in success and in the error returned |
| Text.EmptyContainerNeverFails | src/format/text.rs:32-36 | an empty row or grid of empty rows is returned unchanged even for an invalid colour |
| Text.ColorReachesEveryCell | src/format/text.rs:32-36 | the coloured cells, in row-major order, are the framed input cells, all with the same code |
| FormatTests.RgbCodes | tests/format.rs:3-31 | red and blue triples carry codes 196 and 21 |
| FormatTests.CodeSpellings | tests/format.rs:4-43 | the tested codes spell as `196`, `21`, `82`, `226`, `46` and `51` |
| FormatTests.HexValid | tests/format.rs:15-19 | `#00FF00` and `#00FFFF` pass the validator |
| FormatTests.HexChannels | tests/format.rs:39-43 | `#00FF00` decodes to green and `#00FFFF` to cyan |
| FormatTests.GreenHexCode | tests/format.rs:39-43 | `#00FF00` has code 46 |
| FormatTests.CyanHexCode | tests/format.rs:15-19 | `#00FFFF` has code 51 |
| FormatTests.Spelled | src/format/color_apply.rs:8 | a convertible input colours any text as the format string `\x1b[38;5;{code}m{text}\x1b[0m`, and `48;5;` for the background |
| FormatTests.RgbColorExample | tests/format.rs:27-31 | `color([255,0,0], "Red")` is the tested literal |
| FormatTests.ByteColorExample | tests/format.rs:33-37 | `color(82u8, "ANSI Green")` is the tested literal |
| FormatTests.HexColorExample | tests/format.rs:39-43 | `color("#00FF00", "Green")` is the tested literal |
| FormatTests.RgbBackgroundExample | tests/format.rs:3-7 | `background([0,0,255], "Blue")` is the tested literal |
| FormatTests.ByteBackgroundExample | tests/format.rs:9-13 | `background(226u8, ...)` is the tested literal |
| FormatTests.HexBackgroundExample | tests/format.rs:15-19 | `background("#00FFFF", "Cyan")` is the tested literal |
| FormatTests.InvalidHexExamples | tests/format.rs:21-25 | `#XYZ` and `##bad` make the colouring fail |
| FormatTests.UnderlineExample | tests/format.rs:107-112 | `underline("Hello, World!")` is the tested literal |
| FormatTests.UnderlineEmptyExample | tests/format.rs:114-119 | `underline("")` leaves only the two escape sequences |
| FormatTests.BoldRowExample | tests/format.rs:294-303 | `bold` on a vector styles each element on its own |
| FormatTests.ColorGridExample | tests/format.rs:419-435 | `color(46u8, grid)` frames all four cells of any 2x2 grid with code 46 |
| FormatTests.InvalidColorEmptyRowExample | src/format/stylable.rs:90-94 | `background("##bad", vec![])` is `Ok` of the empty vector |

## Left out

- `validate_ansi`: tests/color.rs calls it, but its source is not among the
  crate's files, and src/color/mod.rs does not export it. It is not part of
  this model.
- The example programs under `examples/`: they read standard input, use
  randomness, sleep and print, and contain no logic of their own.
- `Display` for `ColorConversionError`: presentation only. The variants
  `InvalidRgb`, `InvalidAnsiValue` and `UnknownFormat` are declared but never
  constructed by the modelled code.
- src/color/mod.rs and src/format/mod.rs: re-exports only. src/format/mod.rs
  wires in `color_apply` and `style` but not `text`, `colors` or `stylable`,
  although tests/format.rs uses the latter (`underline`, vector inputs). Each
  file is modelled on its own terms.
- Rust ownership and dispatch: the `&str`, `String` and `&String` impls are one
  `Scalar` case. `&Vec` forwards to `Vec`, so it shares the `Row` and `Grid`
  cases. The `String` and `&str` colour inputs are one `HexInput` case. The
  closure `f` is a function-valued parameter.
- IEEE `f64` arithmetic in `rgb_to_ansi8`: replaced by the integer forms above.
  For a grey channel ending in 5, the model assumes the rounding goes up.
- src/format/colors.rs and src/format/text.rs define `color` and
  `background` with identical bodies. Both files are modelled by
  `Text.Color` and `Text.Background`.
- Hex.HexToRgb: requires a validated input, as the source's doc comment
  demands. Off that domain the source either panics or returns a colour. It
  panics in a slice or in `unwrap` (`""`, `12345z`). It returns a colour read
  from the first three characters when the trimmed length is not 6 (`1234`
  gives (17, 34, 51)), or from what is left once every `#` is removed
  (`##123456` gives (18, 52, 86)). The model describes neither;
  `Hex.ExtraHashMismatch` and `Hex.DoubleHashFamily` only show where the two
  strippings part.
- Byte-versus-character indexing: `len()` and slicing in the source count
  bytes. The model counts characters. `Validate.AcceptedBodyIsAscii` shows
  the two agree on every accepted input; a rejected input is rejected either
  way, because a non-ASCII character fails the digit test.
- Text.Color: the source resolves the colour once per cell. The resolution is
  pure, so only its result is modelled, not how often it runs.
