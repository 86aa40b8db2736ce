/**
 * The container-wide formatting of src/format/text.rs: every text attribute
 * and both colourings applied to each cell of a `Stylable` value.
 */
module Text {
  import opened Common
  import opened ColorError
  import opened Ansi
  import opened Sgr
  import Style
  import opened Stylable
  import ColorApply

  /** `text::bold`: every cell in bold, the shape unchanged. */
  function Bold(t: Container): (r: Container)
    ensures MapsCells(t, r, Style.Bold)
  {
    Apply(t, Style.Bold)
  }

  /** `text::italic`. */
  function Italic(t: Container): (r: Container)
    ensures MapsCells(t, r, Style.Italic)
  {
    Apply(t, Style.Italic)
  }

  /** `text::faint`. */
  function Faint(t: Container): (r: Container)
    ensures MapsCells(t, r, Style.Faint)
  {
    Apply(t, Style.Faint)
  }

  /** `text::inverse`. */
  function Inverse(t: Container): (r: Container)
    ensures MapsCells(t, r, Style.Inverse)
  {
    Apply(t, Style.Inverse)
  }

  /** `text::underline`. */
  function Underline(t: Container): (r: Container)
    ensures MapsCells(t, r, Style.Underline)
  {
    Apply(t, Style.Underline)
  }

  /** A single string styled in place is what src/format/style.rs gives it. */
  lemma ScalarAgreesWithStyle(s: string)
    ensures Bold(Scalar(s)) == Scalar(Style.Bold(s)) && Italic(Scalar(s)) == Scalar(Style.Italic(s))
    ensures Faint(Scalar(s)) == Scalar(Style.Faint(s)) && Inverse(Scalar(s)) == Scalar(Style.Inverse(s))
  {
  }

  /**
   * `text::color`. The closure converts the colour on every call, so the
   * conversion runs once per cell: the result fails exactly when the colour
   * does not convert and there is a cell to colour, with the conversion's
   * error. A convertible colour frames every cell with the foreground SGR of
   * its code; a container without cells comes back as it was, whatever the
   * colour.
   */
  function Color(input: ColorInput, t: Container): (r: Result<Container, ColorConversionError>)
    ensures r.Err? <==> AnsiFromColorDefinition(input).Err? && |Cells(t)| > 0
    ensures r.Err? ==> r.error == AnsiFromColorDefinition(input).error
    ensures AnsiFromColorDefinition(input).Ok? ==>
      r.Ok? && MapsCells(t, r.value, s => Wrap(ColorApply.ForegroundParam + AnsiFromColorDefinition(input).value, s))
    ensures r.Ok? && AnsiFromColorDefinition(input).Err? ==> r.value == t
  {
    var f := s => ColorApply.Color(input, s);
    match AnsiFromColorDefinition(input)
    case Ok(code) =>
      ApplyResultOfTotal(t, f, s => Wrap(ColorApply.ForegroundParam + code, s));
      ApplyResult(t, f)
    case Err(e) =>
      if |Cells(t)| > 0 then
        UniformFailure(t, f, e);
        ApplyResult(t, f)
      else
        NoCellsUnchanged(t, f);
        ApplyResult(t, f)
  }

  /** `text::background`: as `Color`, with the background selector. */
  function Background(input: ColorInput, t: Container): (r: Result<Container, ColorConversionError>)
    ensures r.Err? <==> AnsiFromColorDefinition(input).Err? && |Cells(t)| > 0
    ensures r.Err? ==> r.error == AnsiFromColorDefinition(input).error
    ensures AnsiFromColorDefinition(input).Ok? ==>
      r.Ok? && MapsCells(t, r.value, s => Wrap(ColorApply.BackgroundParam + AnsiFromColorDefinition(input).value, s))
    ensures r.Ok? && AnsiFromColorDefinition(input).Err? ==> r.value == t
  {
    var f := s => ColorApply.Background(input, s);
    match AnsiFromColorDefinition(input)
    case Ok(code) =>
      ApplyResultOfTotal(t, f, s => Wrap(ColorApply.BackgroundParam + code, s));
      ApplyResult(t, f)
    case Err(e) =>
      if |Cells(t)| > 0 then
        UniformFailure(t, f, e);
        ApplyResult(t, f)
      else
        NoCellsUnchanged(t, f);
        ApplyResult(t, f)
  }

  /** Colouring a single string in place is what src/format/color_apply.rs gives it. */
  lemma ScalarAgreesWithColorApply(input: ColorInput, s: string)
    ensures Color(input, Scalar(s)).Ok? <==> ColorApply.Color(input, s).Ok?
    ensures Color(input, Scalar(s)).Ok? ==> Color(input, Scalar(s)).value == Scalar(ColorApply.Color(input, s).value)
    ensures Color(input, Scalar(s)).Err? ==> Color(input, Scalar(s)).error == ColorApply.Color(input, s).error
    ensures Background(input, Scalar(s)).Ok? <==> ColorApply.Background(input, s).Ok?
    ensures Background(input, Scalar(s)).Ok? ==>
      Background(input, Scalar(s)).value == Scalar(ColorApply.Background(input, s).value)
    ensures Background(input, Scalar(s)).Err? ==>
      Background(input, Scalar(s)).error == ColorApply.Background(input, s).error
  {
  }

  /** An invalid hex colour goes unreported on a container without cells. */
  lemma EmptyContainerNeverFails(input: ColorInput)
    ensures Color(input, Row([])) == Ok(Row([]))
    ensures Background(input, Grid([[], []])) == Ok(Grid([[], []]))
  {
    var rows: seq<seq<string>> := [[], []];
    assert rows[..1] == [[]] && rows[..1][..0] == [];
    assert Flatten(rows) == [];
    var r := Background(input, Grid(rows));
    if r.Ok? {
      assert r.value.rows[0] == [] && r.value.rows[1] == [];
      assert r.value.rows == rows;
    }
  }

  /**
   * On a grid, the colouring reaches every cell: the cells of the result, in
   * row-major order, are the framed cells of the input.
   */
  lemma {:induction false} ColorReachesEveryCell(input: ColorInput, t: Container)
    requires AnsiFromColorDefinition(input).Ok?
    ensures var code := AnsiFromColorDefinition(input).value;
      var out := Cells(Color(input, t).value);
      |out| == |Cells(t)| &&
      forall k :: 0 <= k < |Cells(t)| ==> out[k] == Wrap(ColorApply.ForegroundParam + code, Cells(t)[k])
  {
    var code := AnsiFromColorDefinition(input).value;
    var g := s => Wrap(ColorApply.ForegroundParam + code, s);
    ApplyResultOfTotal(t, s => ColorApply.Color(input, s), g);
    CellsOfApply(t, g);
  }
}
