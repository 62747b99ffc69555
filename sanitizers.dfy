/**
 * The setting sanitizers of the Notepad theme customizer. The host runs each one
 * on every value written to the setting it guards, before the value is stored.
 */
module Sanitizers {

  import opened Php

  // ---------------------------------------------------------------------------
  // Hex colour (primary and secondary colour settings)
  // ---------------------------------------------------------------------------

  predicate IsHexDigit(c: char) {
    '0' <= c <= '9' || 'a' <= c <= 'f' || 'A' <= c <= 'F'
  }

  /** Three or six hexadecimal digits, in either letter case. */
  predicate IsHexDigits(s: string) {
    (|s| == 3 || |s| == 6) && forall k :: 0 <= k < |s| ==> IsHexDigit(s[k])
  }

  /** A hex colour as stored: `#` followed by three or six hexadecimal digits. */
  predicate IsHexColor(s: string) {
    s != [] && s[0] == '#' && IsHexDigits(s[1..])
  }

  /**
   * WordPress's `sanitize_hex_color_no_hash`: strip the leading `#`s; nothing
   * left gives "", three or six hex digits are returned as they are, anything
   * else gives null. Only the second outcome is truthy.
   */
  function SanitizeHexColorNoHash(color: string): (r: Scalar)
    ensures Truthy(r) <==> IsHexDigits(LTrimChar(color, '#'))
    ensures Truthy(r) ==> r == Str(LTrimChar(color, '#'))
    ensures !Truthy(r) ==> r == Str("") || r == Null
  {
    var digits := LTrimChar(color, '#');
    if digits == "" then Str("")
    else if IsHexDigits(digits) then Str(digits)
    else Null
  }

  /** A stored hex colour loses exactly its one `#` to `ltrim`. */
  lemma HashStrippedHexColor(color: string)
    ensures IsHexColor(color) ==> LTrimChar(color, '#') == color[1..]
  {
    if IsHexColor(color) {
      assert color[1..][0] != '#';
    }
  }

  /**
   * `notepad_sanitize_hex_color`: when the helper above yields a truthy value,
   * store it behind a single `#`; otherwise store the input as it came (the
   * sanitizer fails open).
   */
  function SanitizeHexColor(color: string): (r: string)
    ensures r == color || IsHexColor(r)
    ensures IsHexColor(color) ==> r == color
    ensures IsHexColor(r) ==>
              |r| - 1 <= |color| && r[1..] == color[|color| - (|r| - 1)..]
              && forall k :: 0 <= k < |color| - (|r| - 1) ==> color[k] == '#'
  {
    HashStrippedHexColor(color);
    var unhashed := SanitizeHexColorNoHash(color);
    if Truthy(unhashed) then
      assert ("#" + unhashed.s)[1..] == unhashed.s;
      "#" + unhashed.s
    else
      color
  }

  /**
   * The two outcomes in terms of the input: hash-stripped text that is a hex
   * colour is stored behind one `#`, anything else is stored untouched.
   */
  lemma SanitizeHexColorOutcome(color: string)
    ensures IsHexDigits(LTrimChar(color, '#')) ==> SanitizeHexColor(color) == "#" + LTrimChar(color, '#')
    ensures !IsHexDigits(LTrimChar(color, '#')) ==> SanitizeHexColor(color) == color
  {
  }

  /** Sanitizing a stored colour again changes nothing. */
  lemma SanitizeHexColorIdempotent(color: string)
    ensures SanitizeHexColor(SanitizeHexColor(color)) == SanitizeHexColor(color)
  {
  }

  // ---------------------------------------------------------------------------
  // Integer
  // ---------------------------------------------------------------------------

  /**
   * `notepad_sanitize_integer`: the integer value of a numeric input; a
   * non-numeric input falls off the end of the function, which returns null.
   */
  function SanitizeInteger(input: Scalar): (r: Scalar)
    ensures r.Int? <==> IsNumeric(input)
    ensures !r.Int? ==> r == Null
    ensures input.Int? ==> r == input
    ensures input.Str? && r.Int? ==> IntMin <= r.i <= IntMax
  {
    if IsNumeric(input) then Int(IntVal(input)) else Null
  }

  /** Sanitizing a stored integer (or the stored null) again changes nothing. */
  lemma SanitizeIntegerIdempotent(input: Scalar)
    ensures SanitizeInteger(SanitizeInteger(input)) == SanitizeInteger(input)
  {
  }

  /** The decimal text of any 64-bit integer is sanitized to that integer. */
  lemma SanitizeIntegerOfText(i: int)
    requires IntMin <= i <= IntMax
    ensures SanitizeInteger(Str(IntToString(i))) == Int(i)
  {
    IntToStringRoundTrip(i);
  }

  /**
   * Any signed, zero-padded numeral is stored as its value, and a value past
   * either end of the 64-bit range is stored as that end.
   */
  lemma SanitizeIntegerOfNumeral(sign: string, z: string, n: nat)
    requires sign == "" || sign == "+" || sign == "-"
    requires AllZeros(z)
    ensures sign != "-" ==> SanitizeInteger(Str(sign + z + NatToDigits(n))) == Int(if n <= IntMax then n else IntMax)
    ensures sign == "-" ==> SanitizeInteger(Str(sign + z + NatToDigits(n))) == Int(if n <= -IntMin then -(n as int) else IntMin)
  {
    IntValStringOfNumeral(sign, z, n);
  }

  // ---------------------------------------------------------------------------
  // Checkbox
  // ---------------------------------------------------------------------------

  /** What a ticked and an unticked checkbox store: the string '1' and false. */
  const CheckboxOn: Scalar := Str("1")
  const CheckboxOff: Scalar := Bool(false)

  /** `notepad_sanitize_checkbox`: '1' for a truthy input, false otherwise. */
  function SanitizeCheckbox(input: Scalar): (r: Scalar)
    ensures r == CheckboxOn || r == CheckboxOff
    ensures Truthy(r) == Truthy(input)
  {
    if Truthy(input) then CheckboxOn else CheckboxOff
  }

  /** Sanitizing a stored flag again changes nothing. */
  lemma SanitizeCheckboxIdempotent(input: Scalar)
    ensures SanitizeCheckbox(SanitizeCheckbox(input)) == SanitizeCheckbox(input)
  {
  }

  // ---------------------------------------------------------------------------
  // Layout option
  // ---------------------------------------------------------------------------

  /** The accepted layouts, and the one every other value is replaced by. */
  const LayoutOptions: seq<string> := ["full-width", "boxed"]
  const LayoutFallback: string := "boxed"

  lemma LayoutOptionsAreWords()
    ensures forall k :: 0 <= k < |LayoutOptions| ==> IsWord(LayoutOptions[k])
  {
  }

  /**
   * `notepad_sanitize_layout_option`: a value found in the option list by PHP's
   * loose `in_array` is kept, anything else becomes the fallback.
   */
  function SanitizeLayoutOption(layout: Scalar): (r: Scalar)
    ensures r == layout || r == Str(LayoutFallback)
    ensures r == layout <==> layout == Str("full-width") || layout == Str("boxed") || layout == Bool(true)
  {
    LayoutOptionsAreWords();
    if !InArrayLoose(layout, LayoutOptions) then Str(LayoutFallback) else layout
  }

  /** For a string input the stored layout is always one of the two options. */
  lemma SanitizeLayoutOptionOfString(layout: string)
    ensures SanitizeLayoutOption(Str(layout)).Str?
    ensures SanitizeLayoutOption(Str(layout)).s in LayoutOptions
    ensures SanitizeLayoutOption(Str(layout)) == Str(layout) <==> layout in LayoutOptions
  {
  }

  /** Sanitizing a stored layout again changes nothing. */
  lemma SanitizeLayoutOptionIdempotent(layout: Scalar)
    ensures SanitizeLayoutOption(SanitizeLayoutOption(layout)) == SanitizeLayoutOption(layout)
  {
  }

  // ---------------------------------------------------------------------------
  // Behaviour on sample inputs
  // ---------------------------------------------------------------------------

  /** Bare digits gain one `#` with their case kept; other text passes unchanged. */
  lemma SanitizeHexColorSamples()
    ensures SanitizeHexColor("1a2B3c") == "#1a2B3c"
    ensures SanitizeHexColor("red") == "red"
  {
    assert LTrimChar("1a2B3c", '#') == "1a2B3c";
    assert IsHexDigits("1a2B3c");
    assert LTrimChar("red", '#') == "red";
    assert !IsHexDigit('r');
  }

  /** A numeric string gives its value, any other text gives null. */
  lemma SanitizeIntegerSamples()
    ensures SanitizeInteger(Str("42")) == Int(42)
    ensures SanitizeInteger(Str("abc")) == Null
  {
    assert Unsigned("42") == "42";
    assert DigitsValue("42") == 42 by {
      assert "42"[..1] == "4";
      assert "4"[..0] == "";
    }
    assert !IsDigit("abc"[0]);
  }

  /** `true` stores '1'; the integer 0, "" and "0" store false. */
  lemma SanitizeCheckboxSamples()
    ensures SanitizeCheckbox(Bool(true)) == Str("1")
    ensures SanitizeCheckbox(Int(0)) == Bool(false)
    ensures SanitizeCheckbox(Str("")) == Bool(false)
    ensures SanitizeCheckbox(Str("0")) == Bool(false)
  {
  }

  /** The options are kept, other text becomes "boxed", and `true` slips through. */
  lemma SanitizeLayoutOptionSamples()
    ensures SanitizeLayoutOption(Str("full-width")) == Str("full-width")
    ensures SanitizeLayoutOption(Str("wide")) == Str("boxed")
    ensures SanitizeLayoutOption(Bool(true)) == Bool(true)
    ensures SanitizeLayoutOption(Int(0)) == Str("boxed")
  {
  }
}
