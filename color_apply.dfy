/**
 * The single-string colouring of src/format/color_apply.rs: convert the
 * colour to its ANSI-256 code once, then frame the text with the 256-colour
 * SGR `38;5;<n>` (foreground) or `48;5;<n>` (background).
 */
module ColorApply {
  import opened Common
  import opened ColorError
  import opened Validate
  import opened Decimal
  import opened RgbColor
  import opened Hex
  import opened Ansi
  import opened Sgr

  /** The SGR parameter selecting an indexed foreground colour, before the index. */
  const ForegroundParam: string := "38;5;"
  /** The SGR parameter selecting an indexed background colour, before the index. */
  const BackgroundParam: string := "48;5;"

  /** The ANSI-256 code a colour input stands for, when it has one. */
  function CodeOf(input: ColorInput): (n: Option<u8>)
    ensures input.AnsiInput? ==> n == Some(input.code)
    ensures input.RgbInput? ==> n == Some(RgbToAnsi8(input.rgb))
    ensures input.HexInput? ==> (n.Some? <==> ValidateHex(input.hex).Ok?)
    ensures input.HexInput? && n.Some? ==> n.value == RgbToAnsi8(HexToRgb(input.hex))
  {
    match input
    case RgbInput(rgb) => Some(RgbToAnsi8(rgb))
    case HexInput(hex) => if ValidateHex(hex).Ok? then Some(HexToAnsi8(hex)) else None
    case AnsiInput(code) => Some(code)
  }

  /**
   * `color_apply::color`: fails exactly when the colour does, with its error;
   * otherwise the text framed by `ESC[38;5;<code>m` and the reset, where
   * `<code>` is the decimal spelling of the input's ANSI-256 code.
   */
  function Color(input: ColorInput, text: string): (r: Result<string, ColorConversionError>)
    ensures r.Ok? <==> CodeOf(input).Some?
    ensures r.Err? ==> input.HexInput? && r.error == InvalidHex(InvalidHexPrefix + input.hex)
    ensures r.Ok? ==> Framed(ForegroundParam + DecimalString(CodeOf(input).value), text, r.value)
  {
    match AnsiFromColorDefinition(input)
    case Err(e) => Err(e)
    case Ok(code) =>
      FramedWrap(ForegroundParam + code, text);
      Ok(Wrap(ForegroundParam + code, text))
  }

  /** `color_apply::background`: as `Color`, with the background selector `48;5;`. */
  function Background(input: ColorInput, text: string): (r: Result<string, ColorConversionError>)
    ensures r.Ok? <==> CodeOf(input).Some?
    ensures r.Err? ==> input.HexInput? && r.error == InvalidHex(InvalidHexPrefix + input.hex)
    ensures r.Ok? ==> Framed(BackgroundParam + DecimalString(CodeOf(input).value), text, r.value)
  {
    match AnsiFromColorDefinition(input)
    case Err(e) => Err(e)
    case Ok(code) =>
      FramedWrap(BackgroundParam + code, text);
      Ok(Wrap(BackgroundParam + code, text))
  }

  /** The result of `Color`/`Background` is the framed text itself. */
  lemma ColorIsWrap(input: ColorInput, text: string)
    requires CodeOf(input).Some?
    ensures Color(input, text) == Ok(Wrap(ForegroundParam + DecimalString(CodeOf(input).value), text))
    ensures Background(input, text) == Ok(Wrap(BackgroundParam + DecimalString(CodeOf(input).value), text))
  {
  }

  lemma {:induction false} SelectorIsParameter(selector: string, n: nat)
    requires selector == ForegroundParam || selector == BackgroundParam
    ensures IsParameter(selector + DecimalString(n))
  {
    var p := selector + DecimalString(n);
    forall i | 0 <= i < |p| ensures p[i] != 'm' {
      if i >= |selector| {
        assert p[i] == DecimalString(n)[i - |selector|];
      }
    }
  }

  /**
   * A coloured string gives back its text and its colour code: two
   * successful colourings that print the same are of the same text with the
   * same ANSI-256 code.
   */
  lemma ColorInjective(a: ColorInput, b: ColorInput, s: string, t: string)
    requires Color(a, s).Ok? && Color(a, s) == Color(b, t)
    ensures s == t && CodeOf(a) == CodeOf(b)
  {
    var m, n := CodeOf(a).value, CodeOf(b).value;
    ColorIsWrap(a, s);
    ColorIsWrap(b, t);
    SelectorIsParameter(ForegroundParam, m);
    SelectorIsParameter(ForegroundParam, n);
    WrapInjective(ForegroundParam + DecimalString(m), ForegroundParam + DecimalString(n), s, t);
    assert DecimalString(m) == (ForegroundParam + DecimalString(m))[5..];
    assert DecimalString(n) == (ForegroundParam + DecimalString(n))[5..];
    DecimalInjective(m, n);
  }

  /** A foreground colouring never prints the same as a background one. */
  lemma ForegroundNotBackground(a: ColorInput, b: ColorInput, s: string, t: string)
    requires Color(a, s).Ok? && Background(b, t).Ok?
    ensures Color(a, s) != Background(b, t)
  {
    SelectorAt(a, s);
    SelectorAt(b, t);
  }

  /** The character after `ESC [` is `3` for a foreground colouring and `4` for a background one. */
  lemma SelectorAt(input: ColorInput, text: string)
    requires CodeOf(input).Some?
    ensures Color(input, text).value[2] == '3' && Background(input, text).value[2] == '4'
  {
    ColorIsWrap(input, text);
    var code := DecimalString(CodeOf(input).value);
    ParameterAt(ForegroundParam + code, text);
    ParameterAt(BackgroundParam + code, text);
  }

  /** Byte codes and RGB triples always convert; only a hex string can fail. */
  lemma OnlyHexFails(input: ColorInput, text: string)
    requires !input.HexInput?
    ensures Color(input, text).Ok? && Background(input, text).Ok?
  {
  }
}
