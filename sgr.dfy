/**
 * The escape sequences the formatting layer emits: Select Graphic Rendition,
 * the SGR control function of ECMA-48 section 8.3.117, written
 * `ESC [ <parameters> m`, and closed by the reset `ESC [ 0 m`.
 */
module Sgr {

  const Esc: char := '\U{1B}'

  /** `ESC[0m`: SGR 0, every attribute back to its default. */
  const Reset: string := [Esc, '[', '0', 'm']

  /** A parameter string that cannot end the control sequence early. */
  predicate IsParameter(p: string) {
    forall i :: 0 <= i < |p| ==> p[i] != 'm'
  }

  /** `format!("\x1b[{p}m{text}\x1b[0m")`: the text between an SGR and the reset. */
  function Wrap(param: string, text: string): (s: string)
    ensures |s| == |param| + |text| + 7
    ensures s[..2] == [Esc, '['] && s[2 + |param|] == 'm' && s[|s| - 4..] == Reset
  {
    [Esc, '['] + param + "m" + text + Reset
  }

  /** The text framed as `ESC [ p m` + text + `ESC [ 0 m`. */
  predicate Framed(p: string, text: string, s: string) {
    && |s| == |p| + |text| + 7
    && s[..2 + |p|] == [Esc, '['] + p
    && s[2 + |p|] == 'm'
    && s[3 + |p|..|s| - 4] == text
    && s[|s| - 4..] == Reset
  }

  /** `Wrap` frames its text. */
  lemma FramedWrap(p: string, text: string)
    ensures Framed(p, text, Wrap(p, text))
  {
    var s := Wrap(p, text);
    assert s == [Esc, '['] + p + ['m'] + text + Reset;
    assert s[..2 + |p|] == [Esc, '['] + p;
    assert s[3 + |p|..|s| - 4] == text;
  }

  /** The character after `ESC [` is the first character of the parameter. */
  lemma ParameterAt(p: string, text: string)
    requires |p| > 0
    ensures Wrap(p, text)[2] == p[0]
  {
  }

  /**
   * A wrapped text determines its parameter and its payload: the first `m`
   * ends the parameter, the final four characters are the reset.
   */
  lemma {:induction false} WrapInjective(p: string, q: string, s: string, t: string)
    requires IsParameter(p) && IsParameter(q)
    requires Wrap(p, s) == Wrap(q, t)
    ensures p == q && s == t
  {
    var w := Wrap(p, s);
    assert w == [Esc, '['] + p + ['m'] + s + Reset;
    assert w == [Esc, '['] + q + ['m'] + t + Reset;
    if |p| < |q| {
      assert false;
    } else if |q| < |p| {
      assert false;
    }
    assert p == w[2..2 + |p|] == q;
    assert s == w[3 + |p|..|w| - 4] == t;
  }
}
