# Notepad theme customizer: sanitizers and colour-scheme render

This project models the logic of the Notepad WordPress theme's customizer
(`inc/customizer.php`) and proves properties of it in Dafny. Two parts are modelled:

- **The setting sanitizers.** The host runs these on every value written to a
  setting. `notepad_sanitize_hex_color` guards the primary and secondary colours.
  `notepad_sanitize_integer`, `notepad_sanitize_checkbox` and
  `notepad_sanitize_layout_option` normalise a number, a flag and a layout choice.
  They are total functions from a PHP value to the stored value (module `Sanitizers`).
- **The colour-scheme render hook** `notepad_color_style`. It is modelled as a pure
  function of the primary colour, the secondary colour and the custom CSS. It
  returns `None` when the hook returns before echoing anything. Otherwise it
  returns the exact text the hook echoes: a `<style id="notepad-colorscheme-css">`
  block and then a `<style id="notepad-custom-css">` block (module `ColorStyle`).

The PHP semantics these functions depend on are in module `Php`:

- scalar values and their truthiness;
- loose `==` and `in_array`;
- `is_numeric` and `intval` on decimal text, on a 64-bit build with its saturation;
- `ltrim` with a character list;
- `trim` with its default character set (space, `\t`, `\n`, `\r`, `\0`, `\x0B`).

Points where the code behaves differently from what its comments and defaults might suggest:

- The render guard does not compare case-insensitively. It suppresses output only
  for the two spellings `#ef7a7a` and `#EF7A7A`. Any mixed-case spelling of the
  default colour renders both blocks.
- The hex-colour sanitizer does not canonicalise. It keeps the letter case of its
  input and only replaces the leading `#`s with a single one.
- The custom-CSS block is emitted only inside the guarded branch. It carries the
  trimmed CSS verbatim.
- PHP swallows a newline that directly follows `?>`. The modelled output therefore
  has no newline between the trimmed CSS and the closing `</style>`. It also ends
  with the tab that precedes the final `<?php`.

`sanitize_hex_color_no_hash` is a WordPress function and is not part of this
model's source. `SanitizeHexColorNoHash` gives it a body that follows its
WordPress definition:

- remove every leading `#`;
- return `""` if nothing is left;
- return the remaining text if it is three or six hex digits;
- return null otherwise.

## Model

| member | source | states |
|---|---|---|
| `Php.Truthy` | inc/customizer.php:212 | A value tested by `if` is false exactly for null, `false`, 0, `""` and `"0"`. |
| `Php.IsNumericString` | inc/customizer.php:190 | A string counts as numeric exactly when it is one or more decimal digits, optionally behind a single `+` or `-`. |
| `Php.IsNumeric` | inc/customizer.php:190 | Every integer is numeric. Null and booleans never are. A string is numeric exactly by its text. |
| `Php.IntVal` | inc/customizer.php:191 | `intval` returns an integer input as it is. A numeric string's value lies within the 64-bit range. |
| `Php.IntValString` | inc/customizer.php:191 | `intval` of a numeric string always lies within PHP's 64-bit range. |
| `Php.IntValStringOfNumeral` | inc/customizer.php:191 | Take any sign (none, `+` or `-`), any run of leading zeros and the digits of `n`. The numeral is numeric, and `intval` reads it as `n` or `-n`. A value above `PHP_INT_MAX` reads as `PHP_INT_MAX`, and one below `PHP_INT_MIN` as `PHP_INT_MIN`. |
| `Php.IntToStringRoundTrip` | inc/customizer.php:190-191 | `intval` of the decimal text of any 64-bit integer is that integer. |
| `Php.LooseEqualsWord` | inc/customizer.php:226 | Under PHP 8 loose `==`, a word equals exactly its own string and `true`. |
| `Php.InArrayLoose` | inc/customizer.php:226 | Loose `in_array` over a list of words holds exactly for a listed string, or for `true` when the list is non-empty. |
| `Php.LTrimChar` | inc/customizer.php:167 | `ltrim($s, '#')` is the suffix of `s` left after a run of `#`s. It does not start with `#`. |
| `Php.Trim` | inc/customizer.php:292 | `trim` yields a slice of the input, surrounded by runs of trim characters. The slice neither starts nor ends with a trim character. |
| `Php.TrimCharacterization` | inc/customizer.php:292 | For any input made of trim characters, a text that neither starts nor ends with one, and more trim characters, `trim` yields exactly that text. |
| `Php.TrimIdempotent` | inc/customizer.php:292 | Trimming twice equals trimming once. |
| `Sanitizers.SanitizeHexColorNoHash` | inc/customizer.php:167 | The helper's result is truthy exactly when the hash-stripped input is 3 or 6 hex digits. It is then that text. Otherwise it is `""` or null. |
| `Sanitizers.SanitizeHexColor` | inc/customizer.php:166-171 | The stored value is either the input unchanged or a well-formed `#` hex colour. A valid colour is a fixed point. A rewritten colour's digits are the input's own trailing characters, with case kept, after a run of `#`s. |
| `Sanitizers.SanitizeHexColorOutcome` | inc/customizer.php:166-171 | Hash-stripped hex digits are stored behind exactly one `#`. Every other input is stored unchanged (fails open). |
| `Sanitizers.SanitizeHexColorIdempotent` | inc/customizer.php:166-171 | Sanitizing a stored colour a second time changes nothing. |
| `Sanitizers.SanitizeHexColorSamples` | inc/customizer.php:166-171 | `"1a2B3c"` is stored as `"#1a2B3c"`, and `"red"` passes through unchanged. |
| `Sanitizers.SanitizeInteger` | inc/customizer.php:189-193 | The result is an integer exactly when the input is numeric. Otherwise it is null. An integer input is returned as it is. A string's value lies within the 64-bit range. |
| `Sanitizers.SanitizeIntegerIdempotent` | inc/customizer.php:189-193 | Sanitizing a stored integer (or the stored null) again changes nothing. |
| `Sanitizers.SanitizeIntegerOfText` | inc/customizer.php:189-193 | The decimal text of every 64-bit integer is sanitized back to that integer. |
| `Sanitizers.SanitizeIntegerOfNumeral` | inc/customizer.php:189-193 | A signed, zero-padded numeral is stored as its value. A value past either end of the 64-bit range is stored as that end. |
| `Sanitizers.SanitizeIntegerSamples` | inc/customizer.php:189-193 | `"42"` gives 42, and `"abc"` gives null. |
| `Sanitizers.SanitizeCheckbox` | inc/customizer.php:211-218 | The stored value is `'1'` or `false`. It is truthy exactly when the input is. |
| `Sanitizers.SanitizeCheckboxIdempotent` | inc/customizer.php:211-218 | Sanitizing a stored flag again changes nothing. |
| `Sanitizers.SanitizeCheckboxSamples` | inc/customizer.php:211-218 | `true` gives `'1'`. The integer 0, `""` and `"0"` give `false`. |
| `Sanitizers.SanitizeLayoutOption` | inc/customizer.php:225-231 | The result is the input or `"boxed"`. It is the input exactly for `"full-width"`, `"boxed"` and the boolean `true`, which loose `in_array` lets through. |
| `Sanitizers.SanitizeLayoutOptionOfString` | inc/customizer.php:225-231 | For any string input the stored layout is one of the two options. A string is kept exactly when it is an option. |
| `Sanitizers.SanitizeLayoutOptionIdempotent` | inc/customizer.php:225-231 | Sanitizing a stored layout again changes nothing. |
| `Sanitizers.SanitizeLayoutOptionSamples` | inc/customizer.php:225-231 | `"full-width"` is kept. `"wide"` and the integer 0 become `"boxed"`. `true` is kept. |
| `ColorStyle.IsDefaultSpelling` | inc/customizer.php:243 | Both spellings the guard compares against are well-formed hex colours. By the colour sanitizer's contract, it stores them unchanged. |
| `ColorStyle.FillLength` | inc/customizer.php:248-290 | A filled template is its fixed text plus one full copy of the matching colour per hole. |
| `ColorStyle.SchemeLayoutFill` | inc/customizer.php:248-290 | Filling the template shape puts the colours in verbatim between the six fixed runs, in the order primary, primary, secondary, primary, secondary. |
| `ColorStyle.ColorSchemeTemplateHoles` | inc/customizer.php:263-287 | The colour-scheme template substitutes the primary colour at three places and the secondary colour at two. |
| `ColorStyle.ColorSchemeBlock` | inc/customizer.php:248-290 | The colour block starts with `\t<style type="text/css" id="notepad-colorscheme-css">`: a tab, then the tag. It ends with `\t</style>\n`: a tab, the closing tag and a newline. |
| `ColorStyle.ColorSchemeBlockShape` | inc/customizer.php:248-290 | The colour block is the fixed CSS text with the colours written in unescaped. Nothing else in it depends on the inputs. |
| `ColorStyle.ColorSchemeBlockLength` | inc/customizer.php:248-290 | The block's length is the template text's length plus 3 times the primary colour's length plus 2 times the secondary's. |
| `ColorStyle.CustomCssBlock` | inc/customizer.php:291-293 | The custom-CSS block starts with its style tag and ends with `</style>`, a newline and a tab. Removing that fixed text leaves exactly `trim(customCss)`. |
| `ColorStyle.RenderColorStyle` | inc/customizer.php:238-295 | Nothing is echoed exactly when the primary colour is `#ef7a7a` or `#EF7A7A`. Any echoed text starts with a tab and the colour-scheme style tag. It ends with the custom-CSS block's closing text. |
| `ColorStyle.RenderBailIgnoresOtherSettings` | inc/customizer.php:243-245 | When the guard bails, the secondary colour and the custom CSS have no effect. |
| `ColorStyle.RenderGuardIsCaseSensitive` | inc/customizer.php:243 | Mixed-case spellings of the default colour (`#Ef7A7a`, `#ef7a7A`) still render. |
| `ColorStyle.SanitizedDefaultRendersNothing` | inc/customizer.php:243-245 | The registered default `#EF7A7A` survives the colour sanitizer. A primary colour stored as that registered default renders nothing. |
| `ColorStyle.SanitizedMixedCaseDefaultRenders` | inc/customizer.php:243-245 | A mixed-case spelling of the default is stored as typed, and then renders. |
| `ColorStyle.RenderOrder` | inc/customizer.php:247-294 | Rendered output is the colour-scheme block immediately followed by the custom-CSS block. |

## Left out

- `notepad_customize_organizer` and `notepad_customize_register` (lines 16-144): these only create and relabel sections, settings and controls in the host's registry, which is not part of this model.
- The textarea control's `render_content` (lines 57-66): HTML emission through WordPress escaping functions that are not part of this model.
- `notepad_customize_preview_js` and the `add_action` hook wiring (lines 38, 146, 154-158, 296): script enqueueing and hook registration on the host.
- `notepad_sanitize_custom_css` and `notepad_sanitize_escaping` (lines 179-182, 200-203): one-line wrappers around `wp_kses_stripslashes` and `esc_attr`, which are not part of this model.
- `get_theme_mod` and `echo` in `notepad_color_style`: replaced by parameters and a returned string. Which defaults the host store supplies for unsaved settings is not modelled.
- `__()` translation lookups: internationalisation only.
- Floating-point PHP values: `Scalar` has no float case.
- `Php.IsNumericString`: it accepts only an optional sign followed by decimal digits. PHP's `is_numeric` also accepts decimals, exponents and surrounding whitespace, so for those strings `SanitizeInteger` gives null where PHP gives a truncated integer.
- `Php.LooseEqualsWord`: it follows PHP 8 rules. Under PHP 7 the integer 0 also loosely equals a word, so `SanitizeLayoutOption(Int(0))` would keep 0.
- `Sanitizers.SanitizeHexColorNoHash`: it follows the helper's documented contract. WordPress checks the digits with a regular expression whose `$` also matches before one trailing newline, and that quirk is not reproduced.
- Non-string inputs to the hex-colour sanitizer and the render: WordPress passes these as strings, and so does the model.
