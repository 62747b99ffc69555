/**
 * The part of PHP's value semantics the customizer leans on: scalar values and
 * their truthiness, loose `==` against a word, `is_numeric`/`intval` on decimal
 * text, `ltrim` with a character list, and `trim` with its default character set.
 * Integers follow a 64-bit build of PHP.
 */
module Php {

  /** A PHP scalar as it can reach a sanitizer (floats are not modelled). */
  datatype Scalar = Null | Bool(b: bool) | Int(i: int) | Str(s: string)

  /** PHP_INT_MIN and PHP_INT_MAX on a 64-bit build. */
  const IntMin: int := -0x8000_0000_0000_0000
  const IntMax: int := 0x7FFF_FFFF_FFFF_FFFF

  /** `if ($v)`: the falsy scalars are null, false, 0, "" and "0". */
  predicate Truthy(v: Scalar)
    ensures !Truthy(v) <==> v == Null || v == Bool(false) || v == Int(0) || v == Str("") || v == Str("0")
  {
    match v
    case Null => false
    case Bool(b) => b
    case Int(i) => i != 0
    case Str(s) => s != "" && s != "0"
  }

  // ---------------------------------------------------------------------------
  // Decimal text: is_numeric, intval and the int-to-string conversion
  // ---------------------------------------------------------------------------

  predicate IsDigit(c: char) { '0' <= c <= '9' }

  predicate AllDigits(s: string) {
    forall k :: 0 <= k < |s| ==> IsDigit(s[k])
  }

  /** The digits of a decimal numeral after its optional sign. */
  function Unsigned(s: string): string {
    if s != [] && (s[0] == '+' || s[0] == '-') then s[1..] else s
  }

  /**
   * `is_numeric` on a string, restricted to an optional sign followed by one
   * or more decimal digits.
   */
  predicate IsNumericString(s: string)
    ensures IsNumericString(s) <==>
              s != [] && (IsDigit(s[0]) || ((s[0] == '+' || s[0] == '-') && |s| >= 2))
              && forall k :: 1 <= k < |s| ==> IsDigit(s[k])
  {
    Unsigned(s) != [] && AllDigits(Unsigned(s))
  }

  /** `is_numeric` on a scalar: integers always, strings by their text. */
  predicate IsNumeric(v: Scalar)
    ensures v.Int? ==> IsNumeric(v)
    ensures IsNumeric(v) ==> v.Int? || v.Str?
    ensures v.Str? ==> (IsNumeric(v) <==> IsNumericString(v.s))
  {
    match v
    case Int(_) => true
    case Str(s) => IsNumericString(s)
    case _ => false
  }

  /** The value of a run of decimal digits, read most significant first. */
  function DigitsValue(ds: string): nat
    requires AllDigits(ds)
  {
    if ds == [] then 0
    else DigitsValue(ds[..|ds| - 1]) * 10 + (ds[|ds| - 1] as int - '0' as int)
  }

  /** PHP saturates an integer string that does not fit in 64 bits. */
  function Saturate(n: int): (r: int)
    ensures IntMin <= r <= IntMax
    ensures IntMin <= n <= IntMax ==> r == n
    ensures n < IntMin ==> r == IntMin
    ensures IntMax < n ==> r == IntMax
  {
    if n < IntMin then IntMin else if IntMax < n then IntMax else n
  }

  /** `intval` of a numeric string. */
  function IntValString(s: string): (n: int)
    requires IsNumericString(s)
    ensures IntMin <= n <= IntMax
  {
    var magnitude: int := DigitsValue(Unsigned(s));
    Saturate(if s[0] == '-' then -magnitude else magnitude)
  }

  /** `intval` of a numeric scalar. */
  function IntVal(v: Scalar): (n: int)
    requires IsNumeric(v)
    ensures v.Int? ==> n == v.i
    ensures v.Str? ==> IntMin <= n <= IntMax
  {
    match v
    case Int(i) => i
    case Str(s) => IntValString(s)
  }

  /** The shortest decimal numeral of a natural number. */
  function NatToDigits(n: nat): (ds: string)
    ensures ds != [] && AllDigits(ds)
    ensures DigitsValue(ds) == n
    ensures ds[0] == '0' ==> n == 0
    decreases n
  {
    if n < 10 then [('0' as int + n) as char]
    else
      var prefix := NatToDigits(n / 10);
      var ds := prefix + [('0' as int + n % 10) as char];
      assert ds[..|ds| - 1] == prefix;
      ds
  }

  /** The text PHP produces when it converts an integer to a string. */
  function IntToString(i: int): (s: string)
    ensures IsNumericString(s)
    ensures s[0] == '-' || IsDigit(s[0])
  {
    if i < 0 then "-" + NatToDigits(-i) else NatToDigits(i)
  }

  /** Reading back the text of any 64-bit integer gives that integer. */
  lemma IntToStringRoundTrip(i: int)
    requires IntMin <= i <= IntMax
    ensures IntValString(IntToString(i)) == i
  {
    var s := IntToString(i);
    if i < 0 {
      assert Unsigned(s) == NatToDigits(-i);
    } else {
      assert Unsigned(s) == NatToDigits(i);
    }
  }

  /** A run of zeros, as may pad a numeral on the left. */
  predicate AllZeros(z: string) {
    forall k :: 0 <= k < |z| ==> z[k] == '0'
  }

  lemma {:induction false} DigitsValueOfZeros(z: string)
    requires AllZeros(z)
    ensures AllDigits(z) && DigitsValue(z) == 0
    decreases |z|
  {
    if z != [] {
      DigitsValueOfZeros(z[..|z| - 1]);
    }
  }

  /** Leading zeros do not change the value of a run of digits. */
  lemma {:induction false} DigitsValueLeadingZeros(z: string, ds: string)
    requires AllZeros(z) && AllDigits(ds)
    ensures AllDigits(z + ds) && DigitsValue(z + ds) == DigitsValue(ds)
    decreases |ds|
  {
    DigitsValueOfZeros(z);
    if ds == [] {
      assert z + ds == z;
    } else {
      var zd := z + ds;
      assert zd[..|zd| - 1] == z + ds[..|ds| - 1];
      assert zd[|zd| - 1] == ds[|ds| - 1];
      DigitsValueLeadingZeros(z, ds[..|ds| - 1]);
    }
  }

  /** A sign in front of a numeral is what `Unsigned` removes, and only "-" reads as minus. */
  lemma SignedNumeral(sign: string, z: string, ds: string)
    requires sign == "" || sign == "+" || sign == "-"
    requires AllZeros(z) && ds != [] && AllDigits(ds)
    ensures sign + z + ds != [] && Unsigned(sign + z + ds) == z + ds
    ensures (sign + z + ds)[0] == '-' <==> sign == "-"
  {
    var s := sign + z + ds;
    if sign == "" {
      assert s == z + ds;
      if z == [] {
        assert s[0] == ds[0];
      } else {
        assert s[0] == z[0];
      }
    } else {
      assert s == sign + (z + ds);
      assert s[0] == sign[0];
      assert s[1..] == z + ds;
    }
  }

  /**
   * `intval` of a numeral written as an optional sign, any number of leading
   * zeros and the digits of `n`: plus or minus `n`, clamped to the 64-bit range.
   */
  lemma IntValStringOfNumeral(sign: string, z: string, n: nat)
    requires sign == "" || sign == "+" || sign == "-"
    requires AllZeros(z)
    ensures IsNumericString(sign + z + NatToDigits(n))
    ensures sign != "-" ==> IntValString(sign + z + NatToDigits(n)) == if n <= IntMax then n else IntMax
    ensures sign == "-" ==> IntValString(sign + z + NatToDigits(n)) == if n <= -IntMin then -(n as int) else IntMin
  {
    var ds := NatToDigits(n);
    SignedNumeral(sign, z, ds);
    DigitsValueLeadingZeros(z, ds);
    assert DigitsValue(Unsigned(sign + z + ds)) == n;
  }

  // ---------------------------------------------------------------------------
  // Loose comparison and in_array
  // ---------------------------------------------------------------------------

  /**
   * A string PHP never reads as a number, not even as a leading-numeric one:
   * non-empty and starting with a letter.
   */
  predicate IsWord(w: string) {
    w != [] && ('a' <= w[0] <= 'z' || 'A' <= w[0] <= 'Z')
  }

  /**
   * `$v == $w` under PHP 8 rules when `$w` is a word: null compares as "",
   * a bool compares with the word's truthiness, an int is compared as its
   * decimal text (the word is not numeric), and two strings compare as text.
   */
  predicate LooseEqualsWord(v: Scalar, w: string)
    requires IsWord(w)
    ensures LooseEqualsWord(v, w) <==> v == Str(w) || v == Bool(true)
  {
    match v
    case Null => w == ""
    case Bool(b) => b == Truthy(Str(w))
    case Int(i) =>
      assert IntToString(i)[0] != w[0];
      IntToString(i) == w
    case Str(s) => s == w
  }

  /**
   * `in_array($v, $haystack)` with its default, loose comparison. Over words,
   * loose membership is string membership, plus `true` in any non-empty list.
   */
  predicate InArrayLoose(v: Scalar, haystack: seq<string>)
    requires forall k :: 0 <= k < |haystack| ==> IsWord(haystack[k])
    ensures InArrayLoose(v, haystack) <==> (v.Str? && v.s in haystack) || (v == Bool(true) && haystack != [])
  {
    assert haystack != [] ==> (LooseEqualsWord(v, haystack[0]) <==> v == Str(haystack[0]) || v == Bool(true));
    exists k :: 0 <= k < |haystack| && LooseEqualsWord(v, haystack[k])
  }

  // ---------------------------------------------------------------------------
  // ltrim and trim
  // ---------------------------------------------------------------------------

  /** `ltrim($s, $c)` for a one-character list: drops every leading `c`. */
  function LTrimChar(s: string, c: char): (r: string)
    ensures |r| <= |s| && r == s[|s| - |r|..]
    ensures forall k :: 0 <= k < |s| - |r| ==> s[k] == c
    ensures r == [] || r[0] != c
  {
    if s != [] && s[0] == c then LTrimChar(s[1..], c) else s
  }

  /** The characters `trim` removes by default: space, \t, \n, \r, \0 and \x0B. */
  predicate IsTrimSpace(c: char) {
    c == ' ' || c == '\t' || c == '\n' || c == '\r' || c == '\0' || c == '\U{0B}'
  }

  predicate AllTrimSpace(s: string) {
    forall k :: 0 <= k < |s| ==> IsTrimSpace(s[k])
  }

  /** Where the run of trim characters that starts at index `i` ends. */
  function RunEnd(s: string, i: nat): (n: nat)
    requires i <= |s|
    ensures i <= n <= |s|
    ensures forall k :: i <= k < n ==> IsTrimSpace(s[k])
    ensures n == |s| || !IsTrimSpace(s[n])
    decreases |s| - i
  {
    if i < |s| && IsTrimSpace(s[i]) then RunEnd(s, i + 1) else i
  }

  /** Where the run of trim characters that ends at index `j` starts, not going below `lo`. */
  function RunStart(s: string, lo: nat, j: nat): (m: nat)
    requires lo <= j <= |s|
    ensures lo <= m <= j
    ensures forall k :: m <= k < j ==> IsTrimSpace(s[k])
    ensures m == lo || !IsTrimSpace(s[m - 1])
    decreases j - lo
  {
    if lo < j && IsTrimSpace(s[j - 1]) then RunStart(s, lo, j - 1) else j
  }

  /**
   * `trim($s)`: skip the leading run of trim characters, then cut the trailing
   * run off what is left. The result is the slice of the input between the two
   * runs and neither starts nor ends with a trim character.
   */
  function Trim(s: string): (r: string)
    ensures r == [] || (!IsTrimSpace(r[0]) && !IsTrimSpace(r[|r| - 1]))
    ensures
      var lead := RunEnd(s, 0);
      lead + |r| <= |s| && r == s[lead..lead + |r|]
      && (forall k :: 0 <= k < lead ==> IsTrimSpace(s[k]))
      && (forall k :: lead + |r| <= k < |s| ==> IsTrimSpace(s[k]))
  {
    var lead := RunEnd(s, 0);
    s[lead..RunStart(s, lead, |s|)]
  }

  /** A run that stops at `p` has its end at `p`. */
  lemma {:induction false} RunEndAt(s: string, i: nat, p: nat)
    requires i <= p <= |s|
    requires forall k :: i <= k < p ==> IsTrimSpace(s[k])
    requires p == |s| || !IsTrimSpace(s[p])
    ensures RunEnd(s, i) == p
    decreases p - i
  {
    if i < p {
      RunEndAt(s, i + 1, p);
    }
  }

  /** A run that reaches back to `m` has its start at `m`. */
  lemma {:induction false} RunStartAt(s: string, lo: nat, j: nat, m: nat)
    requires lo <= m <= j <= |s|
    requires forall k :: m <= k < j ==> IsTrimSpace(s[k])
    requires m == lo || !IsTrimSpace(s[m - 1])
    ensures RunStart(s, lo, j) == m
    decreases j - lo
  {
    if m < j {
      RunStartAt(s, lo, j - 1, m);
    }
  }

  /**
   * `trim` is characterised by its result: whenever the input is a run of trim
   * characters, a text that neither starts nor ends with one, and another run,
   * trimming yields exactly that text.
   */
  lemma TrimCharacterization(a: string, t: string, b: string)
    requires AllTrimSpace(a) && AllTrimSpace(b)
    requires t == [] || (!IsTrimSpace(t[0]) && !IsTrimSpace(t[|t| - 1]))
    ensures Trim(a + t + b) == t
  {
    var s := a + t + b;
    var lead, tail := |a|, |a| + |t|;
    assert forall k :: 0 <= k < lead ==> s[k] == a[k];
    assert forall k :: tail <= k < |s| ==> s[k] == b[k - tail];
    if t == [] {
      RunEndAt(s, 0, |s|);
      RunStartAt(s, |s|, |s|, |s|);
    } else {
      assert s[lead] == t[0] && s[tail - 1] == t[|t| - 1];
      RunEndAt(s, 0, lead);
      RunStartAt(s, lead, |s|, tail);
      assert s[lead..tail] == t;
    }
  }

  /** Trimming twice is trimming once. */
  lemma TrimIdempotent(s: string)
    ensures Trim(Trim(s)) == Trim(s)
  {
    var t := Trim(s);
    assert [] + t + [] == t;
    TrimCharacterization([], t, []);
  }
}
