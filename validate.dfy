/** The hex-string validator (src/color/validate.rs). */
module Validate {
  import opened Common
  import opened ColorError

  /** Rust's `char::is_ascii_hexdigit`. */
  predicate IsAsciiHexDigit(c: char) {
    ('0' <= c <= '9') || ('a' <= c <= 'f') || ('A' <= c <= 'F')
  }

  predicate AllHexDigits(s: string) {
    forall i :: 0 <= i < |s| ==> IsAsciiHexDigit(s[i])
  }

  /** `input.strip_prefix('#').unwrap_or(input)`: removes at most one leading `#`. */
  function StripOneHash(input: string): (h: string)
    ensures if |input| > 0 && input[0] == '#' then input == ['#'] + h else h == input
  {
    if |input| > 0 && input[0] == '#' then input[1..] else input
  }

  /** The text that precedes the offending input in every `InvalidHex` message. */
  const InvalidHexPrefix: string := "Expected 3 or 6-digit hex string, got: "

  /**
   * The strings the validator accepts, described without a stripping step:
   * three or six hex digits, or a `#` followed by three or six hex digits.
   */
  predicate HexNotation(s: string) {
    || ((|s| == 3 || |s| == 6) && AllHexDigits(s))
    || ((|s| == 4 || |s| == 7) && s[0] == '#' && AllHexDigits(s[1..]))
  }

  /**
   * `validate_hex`: `Ok(())` exactly for the strings in hex notation; otherwise
   * an `InvalidHex` error whose message carries the original, unstripped input.
   */
  function ValidateHex(input: string): (r: Result<(), ColorConversionError>)
    ensures r.Ok? <==> HexNotation(input)
    ensures r.Err? ==> r.error == InvalidHex(InvalidHexPrefix + input)
  {
    var hex := StripOneHash(input);
    if !(|hex| == 6 || |hex| == 3) || !AllHexDigits(hex) then
      Err(InvalidHex(InvalidHexPrefix + input))
    else
      Ok(())
  }

  /** Only one `#` is stripped, so a doubled `#` always fails the digit test. */
  lemma DoubleHashRejected(s: string)
    requires |s| >= 2 && s[0] == '#' && s[1] == '#'
    ensures ValidateHex(s).Err?
  {
    assert !IsAsciiHexDigit(s[1]);
    assert StripOneHash(s)[0] == s[1];
  }

  /**
   * Every character of an accepted body is ASCII, so the source's byte-length
   * test and this model's character count agree on every accepted input.
   */
  lemma AcceptedBodyIsAscii(s: string)
    requires ValidateHex(s).Ok?
    ensures var h := StripOneHash(s); (|h| == 3 || |h| == 6) && forall i :: 0 <= i < |h| ==> h[i] < '\U{80}'
  {
  }

  /** The accepted and rejected inputs named by the source's doc comment and tests. */
  lemma ValidateHexExamples()
    ensures ValidateHex("#fff").Ok? && ValidateHex("#FFFFFF").Ok? && ValidateHex("#000000").Ok?
    ensures ValidateHex("abc").Ok? && ValidateHex("123456").Ok? && ValidateHex("#ffcc00").Ok?
    ensures ValidateHex("xyz").Err? && ValidateHex("").Err? && ValidateHex("#").Err?
    ensures ValidateHex("#12").Err? && ValidateHex("#1234").Err? && ValidateHex("#abcd").Err?
    ensures ValidateHex("#12345g").Err? && ValidateHex("12345z").Err? && ValidateHex("##123456").Err?
  {
    DoubleHashRejected("##123456");
    assert !IsAsciiHexDigit("#12345g"[6]);
    assert !IsAsciiHexDigit("12345z"[5]);
    assert !IsAsciiHexDigit("xyz"[0]);
  }
}
