/**
 * The literal expectations of tests/format.rs, stated about the model of
 * the formatting functions on single strings, rows and grids.
 */
module FormatTests {
  import opened Common
  import opened Validate
  import opened Decimal
  import opened RgbColor
  import opened Hex
  import opened Ansi
  import opened Sgr
  import opened ColorApply
  import Style
  import Stylable
  import Text

  /** The colour codes behind the test suite's inputs. */
  lemma RgbCodes()
    ensures CodeOf(RgbInput(Rgb(255, 0, 0))) == Some(196)
    ensures CodeOf(RgbInput(Rgb(0, 0, 255))) == Some(21)
  {
    RgbToAnsi8CubeExamples();
  }

  /** The decimal spellings of those codes. */
  lemma CodeSpellings()
    ensures DecimalString(196) == "196" && DecimalString(21) == "21"
    ensures DecimalString(82) == "82" && DecimalString(226) == "226"
    ensures DecimalString(46) == "46" && DecimalString(51) == "51"
  {
  }

  /** The test suite's valid hex strings pass the validator. */
  lemma HexValid()
    ensures ValidateHex("#00FF00").Ok? && ValidateHex("#00FFFF").Ok?
  {
    assert "#00FF00"[1..] == "00FF00";
    assert "#00FFFF"[1..] == "00FFFF";
  }

  /** ... and decode to pure green and cyan. */
  lemma HexChannels()
    ensures ValidateHex("#00FF00").Ok? && HexToRgb("#00FF00") == Rgb(0, 255, 0)
    ensures ValidateHex("#00FFFF").Ok? && HexToRgb("#00FFFF") == Rgb(0, 255, 255)
  {
    HexValid();
    assert StripOneHash("#00FF00") == "00FF00";
    assert StripOneHash("#00FFFF") == "00FFFF";
    assert HexDigitValue('0') == 0 && HexDigitValue('F') == 15;
  }

  lemma GreenHexCode()
    ensures CodeOf(HexInput("#00FF00")) == Some(46)
  {
    HexChannels();
    RgbToAnsi8CubeExamples();
  }

  lemma CyanHexCode()
    ensures CodeOf(HexInput("#00FFFF")) == Some(51)
  {
    HexChannels();
    RgbToAnsi8CubeExamples();
  }

  /** Both colourings of a convertible input, spelled as the source's format strings. */
  lemma Spelled(input: ColorInput, text: string, digits: string)
    requires CodeOf(input).Some? && DecimalString(CodeOf(input).value) == digits
    ensures Color(input, text) == Ok("\U{1B}[38;5;" + digits + "m" + text + "\U{1B}[0m")
    ensures Background(input, text) == Ok("\U{1B}[48;5;" + digits + "m" + text + "\U{1B}[0m")
  {
    ColorIsWrap(input, text);
    assert Reset == "\U{1B}[0m";
    assert [Esc, '['] + ForegroundParam == "\U{1B}[38;5;";
    assert [Esc, '['] + BackgroundParam == "\U{1B}[48;5;";
    assert [Esc, '['] + (ForegroundParam + digits) == "\U{1B}[38;5;" + digits;
    assert [Esc, '['] + (BackgroundParam + digits) == "\U{1B}[48;5;" + digits;
  }

  /** `color([255, 0, 0], "Red")`. */
  lemma RgbColorExample()
    ensures Color(RgbInput(Rgb(255, 0, 0)), "Red") == Ok("\U{1B}[38;5;196m" + "Red" + "\U{1B}[0m")
  {
    RgbCodes();
    CodeSpellings();
    assert "\U{1B}[38;5;" + "196" + "m" == "\U{1B}[38;5;196m";
    Spelled(RgbInput(Rgb(255, 0, 0)), "Red", "196");
  }

  /** `color(82u8, "ANSI Green")`. */
  lemma ByteColorExample()
    ensures Color(AnsiInput(82), "ANSI Green") == Ok("\U{1B}[38;5;82m" + "ANSI Green" + "\U{1B}[0m")
  {
    CodeSpellings();
    assert "\U{1B}[38;5;" + "82" + "m" == "\U{1B}[38;5;82m";
    Spelled(AnsiInput(82), "ANSI Green", "82");
  }

  /** `color("#00FF00", "Green")`. */
  lemma HexColorExample()
    ensures Color(HexInput("#00FF00"), "Green") == Ok("\U{1B}[38;5;46m" + "Green" + "\U{1B}[0m")
  {
    GreenHexCode();
    CodeSpellings();
    assert "\U{1B}[38;5;" + "46" + "m" == "\U{1B}[38;5;46m";
    Spelled(HexInput("#00FF00"), "Green", "46");
  }

  /** `background([0, 0, 255], "Blue")`. */
  lemma RgbBackgroundExample()
    ensures Background(RgbInput(Rgb(0, 0, 255)), "Blue") == Ok("\U{1B}[48;5;21m" + "Blue" + "\U{1B}[0m")
  {
    RgbCodes();
    CodeSpellings();
    assert "\U{1B}[48;5;" + "21" + "m" == "\U{1B}[48;5;21m";
    Spelled(RgbInput(Rgb(0, 0, 255)), "Blue", "21");
  }

  /** `background(226u8, "Yellow Background")`. */
  lemma ByteBackgroundExample()
    ensures Background(AnsiInput(226), "Yellow Background") == Ok("\U{1B}[48;5;226m" + "Yellow Background" + "\U{1B}[0m")
  {
    CodeSpellings();
    assert "\U{1B}[48;5;" + "226" + "m" == "\U{1B}[48;5;226m";
    Spelled(AnsiInput(226), "Yellow Background", "226");
  }

  /** `background("#00FFFF", "Cyan")`. */
  lemma HexBackgroundExample()
    ensures Background(HexInput("#00FFFF"), "Cyan") == Ok("\U{1B}[48;5;51m" + "Cyan" + "\U{1B}[0m")
  {
    CyanHexCode();
    CodeSpellings();
    assert "\U{1B}[48;5;" + "51" + "m" == "\U{1B}[48;5;51m";
    Spelled(HexInput("#00FFFF"), "Cyan", "51");
  }

  /** The malformed hex strings of the test suite are rejected. */
  lemma InvalidHexExamples()
    ensures Color(HexInput("#XYZ"), "Invalid").Err?
    ensures Background(HexInput("##bad"), "Oops").Err?
  {
    assert !IsAsciiHexDigit('X');
    assert !IsAsciiHexDigit('#');
  }

  /** `underline("Hello, World!")`. */
  lemma UnderlineExample()
    ensures Text.Underline(Stylable.Scalar("Hello, World!")) == Stylable.Scalar("\U{1B}[4m" + "Hello, World!" + "\U{1B}[0m")
  {
    assert Style.Underline("Hello, World!") == Wrap("4", "Hello, World!");
  }

  /** `underline("")`. */
  lemma UnderlineEmptyExample()
    ensures Text.Underline(Stylable.Scalar("")) == Stylable.Scalar("\U{1B}[4m\U{1B}[0m")
  {
    assert Wrap("4", "") == "\U{1B}[4m\U{1B}[0m";
    assert Style.Underline("") == Wrap("4", "");
  }

  /** `bold(vec!["A", "B"])`: each element framed on its own. */
  lemma BoldRowExample()
    ensures Text.Bold(Stylable.Row(["A", "B"])) == Stylable.Row([Style.Bold("A"), Style.Bold("B")])
  {
    var r := Text.Bold(Stylable.Row(["A", "B"]));
    assert r.cells == [Style.Bold("A"), Style.Bold("B")];
  }

  /**
   * `color(46u8, vec![vec!["One", "Two"], vec!["Three", "Four"]])`, for any
   * four texts: every cell gets code 46.
   */
  lemma ColorGridExample(a: string, b: string, c: string, d: string)
    ensures Text.Color(AnsiInput(46), Stylable.Grid([[a, b], [c, d]])) ==
      Ok(Stylable.Grid([[Wrap("38;5;46", a), Wrap("38;5;46", b)], [Wrap("38;5;46", c), Wrap("38;5;46", d)]]))
  {
    var x := [[a, b], [c, d]];
    var r := Text.Color(AnsiInput(46), Stylable.Grid(x));
    CodeSpellings();
    var code := AnsiFromColorDefinition(AnsiInput(46)).value;
    assert ForegroundParam + code == "38;5;46";
    assert r.Ok? && |r.value.rows| == 2 && |r.value.rows[0]| == 2 && |r.value.rows[1]| == 2;
    assert x[0][0] == a && x[0][1] == b && x[1][0] == c && x[1][1] == d;
    assert r.value.rows[0][0] == Wrap(ForegroundParam + code, a);
    assert r.value.rows[0][1] == Wrap(ForegroundParam + code, b);
    assert r.value.rows[1][0] == Wrap(ForegroundParam + code, c);
    assert r.value.rows[1][1] == Wrap(ForegroundParam + code, d);
    assert r.value.rows[0] == [Wrap("38;5;46", a), Wrap("38;5;46", b)];
    assert r.value.rows[1] == [Wrap("38;5;46", c), Wrap("38;5;46", d)];
    assert r.value.Grid? && r.value.rows == [r.value.rows[0], r.value.rows[1]];
  }

  /** `background("##bad", vec![])`: the colour is never resolved, so nothing fails. */
  lemma InvalidColorEmptyRowExample()
    ensures Text.Background(HexInput("##bad"), Stylable.Row([])) == Ok(Stylable.Row([]))
  {
    Text.EmptyContainerNeverFails(HexInput("##bad"));
  }
}
