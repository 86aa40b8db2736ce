/**
 * The single-string text attributes of src/format/style.rs: each one puts
 * the text between an SGR switching the attribute on and the reset.
 */
module Style {
  import opened Sgr

  /** SGR parameters: 1 bold, 2 faint, 3 italic, 4 underline, 7 inverse. */
  const BoldParam: string := "1"
  const FaintParam: string := "2"
  const ItalicParam: string := "3"
  const UnderlineParam: string := "4"
  const InverseParam: string := "7"

  /** `style::bold`. */
  function Bold(text: string): (s: string)
    ensures Framed(BoldParam, text, s)
  {
    FramedWrap(BoldParam, text);
    Wrap(BoldParam, text)
  }

  /** `style::italic`. */
  function Italic(text: string): (s: string)
    ensures Framed(ItalicParam, text, s)
  {
    FramedWrap(ItalicParam, text);
    Wrap(ItalicParam, text)
  }

  /** `style::faint`. */
  function Faint(text: string): (s: string)
    ensures Framed(FaintParam, text, s)
  {
    FramedWrap(FaintParam, text);
    Wrap(FaintParam, text)
  }

  /** `style::inverse`. */
  function Inverse(text: string): (s: string)
    ensures Framed(InverseParam, text, s)
  {
    FramedWrap(InverseParam, text);
    Wrap(InverseParam, text)
  }

  /**
   * The underline attribute. It has no function in src/format/style.rs;
   * the container-wide form in src/format/text.rs uses this cell function.
   */
  function Underline(text: string): (s: string)
    ensures Framed(UnderlineParam, text, s)
  {
    FramedWrap(UnderlineParam, text);
    Wrap(UnderlineParam, text)
  }

  /** The attribute parameters. */
  predicate IsAttribute(p: string) {
    p in {BoldParam, FaintParam, ItalicParam, UnderlineParam, InverseParam}
  }

  /**
   * A styled string determines both its attribute and its text: no two
   * different attribute/text pairs give the same output.
   */
  lemma StyledInjective(p: string, q: string, s: string, t: string)
    requires IsAttribute(p) && IsAttribute(q)
    requires Wrap(p, s) == Wrap(q, t)
    ensures p == q && s == t
  {
    WrapInjective(p, q, s, t);
  }

  /** The four attributes of src/format/style.rs never agree on any pair of texts. */
  lemma AttributesDistinct(s: string, t: string)
    ensures Bold(s) != Italic(t) && Bold(s) != Faint(t) && Bold(s) != Inverse(t)
    ensures Italic(s) != Faint(t) && Italic(s) != Inverse(t) && Faint(s) != Inverse(t)
    ensures Underline(s) != Bold(t) && Underline(s) != Italic(t)
    ensures Underline(s) != Faint(t) && Underline(s) != Inverse(t)
  {
    forall text | text == s || text == t
      ensures Bold(text)[2] == '1' && Faint(text)[2] == '2' && Italic(text)[2] == '3'
      ensures Underline(text)[2] == '4' && Inverse(text)[2] == '7'
    {
      ParameterAt(BoldParam, text);
      ParameterAt(FaintParam, text);
      ParameterAt(ItalicParam, text);
      ParameterAt(UnderlineParam, text);
      ParameterAt(InverseParam, text);
    }
  }

  /** The literal output the test suite expects for plain text. */
  lemma BoldExample()
    ensures Bold("Hello, World!") == "\U{1B}[1m" + "Hello, World!" + "\U{1B}[0m"
  {
    assert Bold("Hello, World!") == Wrap("1", "Hello, World!");
  }

  /** An empty text leaves only the two escape sequences. */
  lemma EmptyExamples()
    ensures Bold("") == "\U{1B}[1m\U{1B}[0m"
    ensures Faint("") == "\U{1B}[2m\U{1B}[0m"
    ensures Italic("") == "\U{1B}[3m\U{1B}[0m"
    ensures Inverse("") == "\U{1B}[7m\U{1B}[0m"
  {
    assert Bold("") == Wrap("1", "");
    assert Faint("") == Wrap("2", "");
    assert Italic("") == Wrap("3", "");
    assert Inverse("") == Wrap("7", "");
  }

  /** Punctuation and digits pass through untouched. */
  lemma SpecialCharacterExample()
    ensures Faint("Hello, World! 123 @#$%") == "\U{1B}[2m" + "Hello, World! 123 @#$%" + "\U{1B}[0m"
  {
    assert Faint("Hello, World! 123 @#$%") == Wrap("2", "Hello, World! 123 @#$%");
  }
}
