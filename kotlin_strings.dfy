/**
 * The parts of Kotlin's `String` and `Int` that the plugin relies on:
 * `trim`, `contains`, `startsWith`, `substringAfter`, `substringBefore`,
 * `toIntOrNull`, decimal rendering, 32-bit wrap-around, and `length` in UTF-16
 * code units. A Dafny `char` is a Unicode scalar value; a character outside the
 * Basic Multilingual Plane is one `char` here and two code units on the JVM.
 */
module KotlinStrings {
  import opened Wrappers

  const IntMin: int := -0x8000_0000
  const IntMax: int := 0x7FFF_FFFF

  predicate IsInt32(n: int)
  {
    IntMin <= n <= IntMax
  }

  /** The low 32 bits of `n`, read as a two's-complement `Int` (`Number.intValue()`, `Int.plus`). */
  function ToInt32(n: int): (r: int)
    ensures IsInt32(r)
    ensures (n - r) % 0x1_0000_0000 == 0
    ensures IsInt32(n) ==> r == n
  {
    (n - IntMin) % 0x1_0000_0000 + IntMin
  }

  // ---------------------------------------------------------------- UTF-16 length

  /** The UTF-16 code units of `c`: two (a surrogate pair) outside the Basic Multilingual Plane. */
  function Utf16Units(c: char): nat
  {
    if c as int < 0x1_0000 then 1 else 2
  }

  /** `String.length` on the JVM: the number of UTF-16 code units. */
  function Utf16Length(s: string): (n: nat)
    ensures |s| <= n <= 2 * |s|
    ensures n == 0 <==> s == []
  {
    if s == [] then 0 else Utf16Length(s[..|s| - 1]) + Utf16Units(s[|s| - 1])
  }

  /** The length of a concatenation is the sum of the lengths. */
  lemma {:induction false} Utf16LengthAppend(a: string, b: string)
    ensures Utf16Length(a + b) == Utf16Length(a) + Utf16Length(b)
    decreases |b|
  {
    if b == [] {
      assert a + b == a;
    } else {
      var c := a + b;
      assert c[..|c| - 1] == a + b[..|b| - 1];
      assert c[|c| - 1] == b[|b| - 1];
      Utf16LengthAppend(a, b[..|b| - 1]);
    }
  }

  /** Five U+1F600 are five characters and ten UTF-16 code units. */
  lemma Utf16LengthExample()
    ensures |"\U{1F600}\U{1F600}\U{1F600}\U{1F600}\U{1F600}"| == 5
    ensures Utf16Length("\U{1F600}\U{1F600}\U{1F600}\U{1F600}\U{1F600}") == 10
  {
    var e := "\U{1F600}";
    Utf16LengthAppend(e, e);
    Utf16LengthAppend(e + e, e);
    Utf16LengthAppend(e + e + e, e);
    Utf16LengthAppend(e + e + e + e, e);
    assert "\U{1F600}\U{1F600}\U{1F600}\U{1F600}\U{1F600}" == e + e + e + e + e;
  }

  // ---------------------------------------------------------------- whitespace and trim

  /** `Char.isWhitespace()` on the JVM: `Character.isWhitespace || Character.isSpaceChar`. */
  predicate IsWhitespace(c: char)
  {
    || c == ' '
    || ('\t' <= c <= '\r')
    || ('\U{1C}' <= c <= '\U{1F}')
    || c == '\U{A0}'
    || c == '\U{1680}'
    || ('\U{2000}' <= c <= '\U{200A}')
    || c == '\U{2028}'
    || c == '\U{2029}'
    || c == '\U{202F}'
    || c == '\U{205F}'
    || c == '\U{3000}'
  }

  predicate AllWhitespace(s: string)
  {
    forall i :: 0 <= i < |s| ==> IsWhitespace(s[i])
  }

  /** The number of whitespace characters `s` starts with. */
  function LeadingWhitespace(s: string): (k: nat)
    ensures k <= |s|
    ensures forall i :: 0 <= i < k ==> IsWhitespace(s[i])
    ensures k < |s| ==> !IsWhitespace(s[k])
  {
    if s == [] || !IsWhitespace(s[0]) then 0 else 1 + LeadingWhitespace(s[1..])
  }

  /** The number of whitespace characters `s` ends with. */
  function TrailingWhitespace(s: string): (k: nat)
    ensures k <= |s|
    ensures forall i :: |s| - k <= i < |s| ==> IsWhitespace(s[i])
    ensures k < |s| ==> !IsWhitespace(s[|s| - 1 - k])
  {
    if s == [] || !IsWhitespace(s[|s| - 1]) then 0 else 1 + TrailingWhitespace(s[..|s| - 1])
  }

  /** `String.trim()` */
  function Trim(s: string): (r: string)
    ensures |r| <= |s|
    ensures r == [] || (!IsWhitespace(r[0]) && !IsWhitespace(r[|r| - 1]))
  {
    var t := s[LeadingWhitespace(s)..];
    t[..|t| - TrailingWhitespace(t)]
  }

  /** Trimming removes exactly the whitespace around a core that neither starts nor ends with whitespace. */
  lemma TrimAround(before: string, core: string, after: string)
    requires AllWhitespace(before) && AllWhitespace(after)
    requires core == [] || (!IsWhitespace(core[0]) && !IsWhitespace(core[|core| - 1]))
    ensures Trim(before + core + after) == core
  {
    var s := before + core + after;
    var k := LeadingWhitespace(s);
    if core == [] {
      assert s == before + after;
      assert AllWhitespace(s) by {
        forall i | 0 <= i < |s| ensures IsWhitespace(s[i]) {
          if i < |before| { assert s[i] == before[i]; } else { assert s[i] == after[i - |before|]; }
        }
      }
      assert k == |s|;
    } else {
      assert s[|before|] == core[0];
      assert forall i :: 0 <= i < |before| ==> s[i] == before[i];
      assert k == |before|;
      var t := s[k..];
      assert t == core + after;
      var m := TrailingWhitespace(t);
      assert t[|core| - 1] == core[|core| - 1];
      assert forall i :: 0 <= i < |after| ==> t[|core| + i] == after[i];
      assert m == |after|;
      assert t[..|t| - m] == core;
    }
  }

  // ---------------------------------------------------------------- searching

  /** `pat` occurs in `s` starting at index `i`. */
  predicate OccursAt(s: string, pat: string, i: nat)
  {
    i + |pat| <= |s| && s[i..i + |pat|] == pat
  }

  /** The first occurrence of `pat` in `s` at or after `from`. */
  function IndexFrom(s: string, pat: string, from: nat): (r: Option<nat>)
    decreases |s| - from
    ensures r.Some? ==> from <= r.value && OccursAt(s, pat, r.value)
    ensures r.Some? ==> forall j: nat :: from <= j < r.value ==> !OccursAt(s, pat, j)
    ensures r.None? ==> forall j: nat :: from <= j ==> !OccursAt(s, pat, j)
  {
    if from + |pat| > |s| then None
    else if s[from..from + |pat|] == pat then Some(from)
    else IndexFrom(s, pat, from + 1)
  }

  /** `String.indexOf(pat)`, `None` for -1 */
  function IndexOf(s: string, pat: string): Option<nat>
  {
    IndexFrom(s, pat, 0)
  }

  /** A first occurrence is what `indexOf` finds. */
  lemma IndexOfFirst(s: string, pat: string, i: nat)
    requires OccursAt(s, pat, i)
    requires forall j: nat :: j < i ==> !OccursAt(s, pat, j)
    ensures IndexOf(s, pat) == Some(i)
  {
  }

  /** `String.contains(pat)` */
  predicate Contains(s: string, pat: string)
  {
    IndexOf(s, pat).Some?
  }

  /** `String.startsWith(prefix)` */
  predicate StartsWith(s: string, prefix: string)
  {
    |prefix| <= |s| && s[..|prefix|] == prefix
  }

  /** `pat` occurs at `i` and nowhere before it. */
  predicate FirstAt(s: string, pat: string, i: nat)
  {
    OccursAt(s, pat, i) && forall j: nat :: j < i ==> !OccursAt(s, pat, j)
  }

  /** `String.substringAfter(delimiter)`: the rest after its first occurrence, or the whole string when it is missing. */
  function SubstringAfter(s: string, delimiter: string): (r: string)
    ensures Contains(s, delimiter) ==> exists i: nat :: FirstAt(s, delimiter, i) && r == s[i + |delimiter|..]
    ensures forall i: nat :: FirstAt(s, delimiter, i) ==> r == s[i + |delimiter|..]
    ensures !Contains(s, delimiter) ==> r == s
  {
    match IndexOf(s, delimiter)
    case Some(i) =>
      assert FirstAt(s, delimiter, i);
      FirstIsUnique(s, delimiter, i);
      s[i + |delimiter|..]
    case None => s
  }

  /** At most one index is a first occurrence. */
  lemma FirstIsUnique(s: string, pat: string, i: nat)
    requires FirstAt(s, pat, i)
    ensures forall k: nat :: FirstAt(s, pat, k) ==> k == i
  {
  }

  /** `String.substringBefore(delimiter)`: the text before its first occurrence, or the whole string when it is missing. */
  function SubstringBefore(s: string, delimiter: string): (r: string)
    ensures StartsWith(s, r)
    ensures Contains(s, delimiter) ==> FirstAt(s, delimiter, |r|)
    ensures !Contains(s, delimiter) ==> r == s
  {
    match IndexOf(s, delimiter)
    case Some(i) => s[..i]
    case None => s
  }

  // ---------------------------------------------------------------- integers

  /**
   * The first code point of each run of ten decimal digits (general category Nd)
   * in the Basic Multilingual Plane above U+0660, in ascending order.
   */
  const DigitZeros: seq<int> := [
    0x0660, 0x06F0, 0x07C0, 0x0966, 0x09E6, 0x0A66, 0x0AE6, 0x0B66, 0x0BE6, 0x0C66,
    0x0CE6, 0x0D66, 0x0DE6, 0x0E50, 0x0ED0, 0x0F20, 0x1040, 0x1090, 0x17E0, 0x1810,
    0x1946, 0x19D0, 0x1A80, 0x1A90, 0x1B50, 0x1BB0, 0x1C40, 0x1C50, 0xA620, 0xA8D0,
    0xA900, 0xA9D0, 0xA9F0, 0xAA50, 0xABF0, 0xFF10]

  /** The digit `c` stands for if it lies in one of the runs from `DigitZeros[i]` on. */
  function DigitIn(c: char, i: nat): (r: Option<nat>)
    decreases |DigitZeros| - i
    ensures r.Some? ==> r.value < 10
  {
    if i >= |DigitZeros| then None
    else if DigitZeros[i] <= c as int < DigitZeros[i] + 10 then Some(c as int - DigitZeros[i])
    else DigitIn(c, i + 1)
  }

  /**
   * `Character.digit(c, 10)`, which Kotlin's `digitOf` calls: the value of any
   * decimal digit, ASCII or not. A character outside the Basic Multilingual Plane
   * is a surrogate pair on the JVM, whose halves are not digits.
   */
  function DigitOf(c: char): (r: Option<nat>)
    ensures r.Some? ==> r.value < 10
    ensures '0' <= c <= '9' ==> r == Some(c as int - '0' as int)
    ensures c as int < 0x660 && !('0' <= c <= '9') ==> r.None?
    ensures c as int >= 0x1_0000 ==> r.None?
  {
    if '0' <= c <= '9' then Some(c as int - '0' as int)
    else if c as int < 0x660 || c as int >= 0x1_0000 then None
    else DigitIn(c, 0)
  }

  predicate IsDigit(c: char)
  {
    DigitOf(c).Some?
  }

  predicate AllDigits(s: string)
  {
    forall i :: 0 <= i < |s| ==> IsDigit(s[i])
  }

  /** The value of a string of decimal digits, most significant first. */
  function DigitsValue(s: string): nat
    requires AllDigits(s)
  {
    if s == [] then 0 else 10 * DigitsValue(s[..|s| - 1]) + DigitOf(s[|s| - 1]).value
  }

  /** The value of a non-empty digit string with a sign, or `None` outside the `Int` range. */
  function SignedDigits(digits: string, negative: bool): (r: Option<int>)
    ensures r.Some? ==> digits != [] && AllDigits(digits) && IsInt32(r.value)
    ensures digits != [] && AllDigits(digits) && IsInt32(if negative then -(DigitsValue(digits) as int) else DigitsValue(digits))
      ==> r.Some?
  {
    if digits == [] || !AllDigits(digits) then None
    else
      var v: int := if negative then -(DigitsValue(digits) as int) else DigitsValue(digits);
      if IsInt32(v) then Some(v) else None
  }

  /**
   * `String.toIntOrNull()`: an optional `+` or `-` followed by at least one decimal
   * digit (of any script), whose value fits in an `Int`; otherwise `None`.
   */
  function ToIntOrNull(s: string): (r: Option<int>)
    ensures r.Some? ==> IsInt32(r.value)
    ensures s == [] ==> r.None?
  {
    if s == [] then None
    else if s[0] < '0' then
      if |s| == 1 then None
      else if s[0] == '-' then SignedDigits(s[1..], true)
      else if s[0] == '+' then SignedDigits(s[1..], false)
      else None
    else SignedDigits(s, false)
  }

  function DigitChar(d: nat): (c: char)
    requires d < 10
    ensures DigitOf(c) == Some(d)
  {
    ('0' as int + d) as char
  }

  /** `Int.toString()` for a non-negative value */
  function NatToString(n: nat): (r: string)
    ensures r != [] && AllDigits(r)
  {
    if n < 10 then [DigitChar(n)] else NatToString(n / 10) + [DigitChar(n % 10)]
  }

  /** `Int.toString()` writes ASCII digits only. */
  lemma {:induction false} NatToStringAscii(n: nat)
    ensures forall i :: 0 <= i < |NatToString(n)| ==> '0' <= NatToString(n)[i] <= '9'
  {
    if n >= 10 {
      NatToStringAscii(n / 10);
    }
  }

  /** `Int.toString()` */
  function IntToString(n: int): string
  {
    if n < 0 then "-" + NatToString(-n) else NatToString(n)
  }

  /** Non-ASCII decimal digits are read too: ARABIC-INDIC DIGIT FIVE is 5, ARABIC-INDIC "42" is 42. */
  lemma ToIntOrNullExamples()
    ensures ToIntOrNull("\U{0665}") == Some(5)
    ensures ToIntOrNull("-\U{0664}\U{0662}") == Some(-42)
    ensures ToIntOrNull("\U{1D7D3}").None?
  {
    assert DigitOf('\U{0665}') == Some(5);
    assert DigitsValue("\U{0665}") == 5;
    var f := "\U{0664}\U{0662}";
    assert DigitOf('\U{0664}') == Some(4) && DigitOf('\U{0662}') == Some(2);
    assert f[..1] == "\U{0664}";
    assert DigitsValue(f) == 42;
    assert "-\U{0664}\U{0662}"[1..] == f;
    assert DigitOf('\U{1D7D3}').None?;
  }

  lemma {:induction false} DigitsValueOfNatToString(n: nat)
    ensures DigitsValue(NatToString(n)) == n
  {
    if n >= 10 {
      DigitsValueOfNatToString(n / 10);
      var s := NatToString(n);
      assert s[..|s| - 1] == NatToString(n / 10);
    }
  }

  /** `toIntOrNull` reads back every `Int` that `toString` writes. */
  lemma ToIntOrNullOfIntToString(n: int)
    requires IsInt32(n)
    ensures ToIntOrNull(IntToString(n)) == Some(n)
  {
    var s := IntToString(n);
    if n < 0 {
      var d := NatToString(-n);
      DigitsValueOfNatToString(-n);
      assert s == "-" + d && s[0] == '-' && |s| >= 2;
      assert s[1..] == d;
      assert SignedDigits(d, true) == Some(n);
    } else {
      var d := NatToString(n);
      DigitsValueOfNatToString(n);
      NatToStringAscii(n);
      assert s == d && '0' <= s[0] <= '9';
      assert SignedDigits(d, false) == Some(n);
    }
  }
}
