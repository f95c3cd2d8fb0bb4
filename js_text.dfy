/**
 * The JavaScript string and number built-ins the bot relies on, stated on
 * `seq<char>`: `trim`, `replace` with a one-character pattern, `split` on
 * one character, `parseInt` without a radix, and `parseFloat` on text that
 * holds only digits and dots. A `None` result stands for NaN.
 *
 * The functions carry no quantified postconditions; what they compute is
 * stated by the lemmas beside them, so that unfolding a parser elsewhere
 * stays cheap.
 */
module JsText {
  import opened Wrappers

  /** ECMAScript WhiteSpace and LineTerminator characters (what `trim` and `parseInt` skip). */
  predicate IsJsSpace(c: char) {
    c == ' ' || c == '\t' || c == '\n' || c == '\r' || c == '\U{000B}' || c == '\U{000C}'
    || c == '\U{00A0}' || c == '\U{1680}' || ('\U{2000}' <= c <= '\U{200A}')
    || c == '\U{2028}' || c == '\U{2029}' || c == '\U{202F}' || c == '\U{205F}'
    || c == '\U{3000}' || c == '\U{FEFF}'
  }

  /** The text without its leading white space (`trimStart`). */
  function TrimStart(s: string): string {
    if s != [] && IsJsSpace(s[0]) then TrimStart(s[1..]) else s
  }

  /** `TrimStart` drops exactly the leading white space: a suffix, starting with a non-space. */
  lemma {:induction false} TrimStartSpec(s: string)
    ensures var r := TrimStart(s);
      && |r| <= |s| && r == s[|s| - |r|..]
      && (r == [] || !IsJsSpace(r[0]))
      && forall i :: 0 <= i < |s| - |r| ==> IsJsSpace(s[i])
  {
    if s != [] && IsJsSpace(s[0]) {
      TrimStartSpec(s[1..]);
      var r := TrimStart(s[1..]);
      assert s[1..][|s| - 1 - |r|..] == s[|s| - |r|..];
      forall i | 0 <= i < |s| - |r| ensures IsJsSpace(s[i]) {
        if i > 0 { assert s[i] == s[1..][i - 1]; }
      }
    }
  }

  /** The text without its trailing white space (`trimEnd`). */
  function TrimEnd(s: string): string {
    if s != [] && IsJsSpace(s[|s| - 1]) then TrimEnd(s[..|s| - 1]) else s
  }

  /** `TrimEnd` drops exactly the trailing white space: a prefix, ending with a non-space. */
  lemma {:induction false} TrimEndSpec(s: string)
    ensures var r := TrimEnd(s);
      && |r| <= |s| && r == s[..|r|]
      && (r == [] || !IsJsSpace(r[|r| - 1]))
      && forall i :: |r| <= i < |s| ==> IsJsSpace(s[i])
  {
    if s != [] && IsJsSpace(s[|s| - 1]) {
      TrimEndSpec(s[..|s| - 1]);
      var r := TrimEnd(s[..|s| - 1]);
      assert s[..|s| - 1][..|r|] == s[..|r|];
      forall i | |r| <= i < |s| ensures IsJsSpace(s[i]) {
        if i < |s| - 1 { assert s[i] == s[..|s| - 1][i]; }
      }
    }
  }

  /** `String.prototype.trim`: the infix of `s` left after dropping white space at both ends. */
  function Trim(s: string): (r: string)
    ensures r == [] || (!IsJsSpace(r[0]) && !IsJsSpace(r[|r| - 1]))
    ensures |r| <= |s|
  {
    TrimStartSpec(s);
    TrimEndSpec(TrimStart(s));
    TrimEnd(TrimStart(s))
  }

  /**
   * `trim` removes exactly the white space at both ends: the result is an
   * infix of `s` with only white space before and after it, and it neither
   * starts nor ends with white space.
   */
  lemma TrimSpec(s: string)
    ensures var r := Trim(s);
      && (r == [] || (!IsJsSpace(r[0]) && !IsJsSpace(r[|r| - 1])))
      && exists i, j :: (0 <= i <= j <= |s| && r == s[i..j]
           && (forall k :: 0 <= k < i ==> IsJsSpace(s[k]))
           && (forall k :: j <= k < |s| ==> IsJsSpace(s[k])))
  {
    TrimStartSpec(s);
    var t := TrimStart(s);
    TrimEndSpec(t);
    var r := TrimEnd(t);
    var i := |s| - |t|;
    var j := i + |r|;
    assert r == s[i..j];
    forall k | j <= k < |s| ensures IsJsSpace(s[k]) {
      assert s[k] == t[k - i];
    }
  }

  /** Trimming text that has no white space at either end leaves it as it is. */
  lemma TrimUntouched(s: string)
    requires s == [] || (!IsJsSpace(s[0]) && !IsJsSpace(s[|s| - 1]))
    ensures Trim(s) == s
  {
  }

  /** Trimming twice is trimming once. */
  lemma TrimIdempotent(s: string)
    ensures Trim(Trim(s)) == Trim(s)
  {
    TrimUntouched(Trim(s));
  }

  predicate IsDecimalDigit(c: char) { '0' <= c <= '9' }

  predicate IsHexDigit(c: char) { '0' <= c <= '9' || 'a' <= c <= 'f' || 'A' <= c <= 'F' }

  function DigitValue(c: char): (d: nat)
    requires IsHexDigit(c)
    ensures d < 16
    ensures IsDecimalDigit(c) <==> d < 10
  {
    if '0' <= c <= '9' then c as int - '0' as int
    else if 'a' <= c <= 'f' then c as int - 'a' as int + 10
    else c as int - 'A' as int + 10
  }

  /** `c` is a digit of base `radix` (at most 16). */
  predicate IsDigitIn(c: char, radix: nat) { IsHexDigit(c) && DigitValue(c) < radix }

  predicate AllDigitsIn(d: string, radix: nat) {
    forall i :: 0 <= i < |d| ==> IsDigitIn(d[i], radix)
  }

  function Pow(b: nat, e: nat): (p: nat)
    ensures b >= 1 ==> p >= 1
  {
    if e == 0 then 1 else b * Pow(b, e - 1)
  }

  /** The length of the longest prefix of `s` made of base-`radix` digits. */
  function LeadingDigits(s: string, radix: nat): nat {
    if s != [] && IsDigitIn(s[0], radix) then 1 + LeadingDigits(s[1..], radix) else 0
  }

  /** `LeadingDigits` is the length of the longest digit prefix: digits up to it, a non-digit at it. */
  lemma {:induction false} LeadingDigitsSpec(s: string, radix: nat)
    ensures var n := LeadingDigits(s, radix);
      && n <= |s|
      && AllDigitsIn(s[..n], radix)
      && (n < |s| ==> !IsDigitIn(s[n], radix))
  {
    if s != [] && IsDigitIn(s[0], radix) {
      LeadingDigitsSpec(s[1..], radix);
      var n := LeadingDigits(s, radix);
      assert s[..n] == [s[0]] + s[1..][..n - 1];
    }
  }

  /** The number a string of base-`radix` digits denotes, most significant first. */
  function DigitsValue(d: string, radix: nat): nat
    requires AllDigitsIn(d, radix)
  {
    if d == [] then 0 else DigitsValue(d[..|d| - 1], radix) * radix + DigitValue(d[|d| - 1])
  }

  /** `n` digits of base `radix` denote a number below `radix` to the power `n`. */
  lemma {:induction false} DigitsValueBound(d: string, radix: nat)
    requires AllDigitsIn(d, radix)
    ensures DigitsValue(d, radix) < Pow(radix, |d|)
  {
    if d != [] {
      var init := d[..|d| - 1];
      DigitsValueBound(init, radix);
      var low := DigitValue(d[|d| - 1]);
      assert low < radix;
      assert Pow(radix, |d|) == radix * Pow(radix, |init|);
      AppendDigitBound(DigitsValue(init, radix), low, Pow(radix, |init|), radix);
    }
  }

  /** Appending a digit to a number below `p` gives a number below `p * radix`. */
  lemma AppendDigitBound(high: nat, low: nat, p: nat, radix: nat)
    requires high < p && low < radix
    ensures high * radix + low < radix * p
  {
    assert high * radix <= (p - 1) * radix by {
      MulLeft(high, p - 1, radix);
    }
    assert (p - 1) * radix == radix * p - radix;
  }

  lemma MulLeft(a: nat, b: nat, c: nat)
    requires a <= b
    ensures a * c <= b * c
  {
  }

  /** The value of the longest base-`radix` digit prefix of `s`; `None` when it is empty. */
  function DigitPrefixValue(s: string, radix: nat): Option<nat> {
    var n := LeadingDigits(s, radix);
    LeadingDigitsSpec(s, radix);
    if n == 0 then None else Some(DigitsValue(s[..n], radix))
  }

  /** The text after an optional leading `+` or `-`. */
  function Unsigned(t: string): string {
    if t != [] && (t[0] == '+' || t[0] == '-') then t[1..] else t
  }

  /** `0x` or `0X`, which makes `parseInt` read base 16. */
  predicate HasHexPrefix(u: string) {
    |u| >= 2 && u[0] == '0' && (u[1] == 'x' || u[1] == 'X')
  }

  /** A sign applied to a parsed magnitude; NaN stays NaN. */
  function Signed(negative: bool, magnitude: Option<nat>): Option<int> {
    match magnitude
    case None => None
    case Some(v) =>
      var value: int := v;
      Some(if negative then -value else value)
  }

  /**
   * `parseInt(s)` with no radix: leading white space, an optional sign, a
   * `0x`/`0X` prefix that switches to base 16, then the longest digit prefix;
   * NaN (`None`) when that prefix is empty.
   */
  function ParseInt(s: string): Option<int> {
    var t := TrimStart(s);
    var unsigned := Unsigned(t);
    Signed(t != [] && t[0] == '-',
      if HasHexPrefix(unsigned) then DigitPrefixValue(unsigned[2..], 16)
      else DigitPrefixValue(unsigned, 10))
  }

  /** `parseInt(s, 10)`: as `ParseInt`, but a `0x` prefix is not special (it reads as 0). */
  function ParseIntDecimal(s: string): Option<int> {
    var t := TrimStart(s);
    Signed(t != [] && t[0] == '-', DigitPrefixValue(Unsigned(t), 10))
  }

  /** The two readings differ only on hexadecimal literals. */
  lemma ParseIntAgreesOffHex(s: string)
    requires !HasHexPrefix(Unsigned(TrimStart(s)))
    ensures ParseInt(s) == ParseIntDecimal(s)
  {
  }

  /**
   * Text whose first non-space character is a decimal digit (and not the
   * `0x` of a hexadecimal literal) parses to a non-negative number; text
   * that is all white space parses to NaN.
   */
  lemma ParseIntSpec(s: string)
    ensures var t := TrimStart(s);
      t != [] && IsDecimalDigit(t[0]) && !HasHexPrefix(t) ==> ParseInt(s).Some? && ParseInt(s).value >= 0
    ensures TrimStart(s) == [] ==> ParseInt(s).None?
  {
    var t := TrimStart(s);
    if t != [] && IsDecimalDigit(t[0]) && !HasHexPrefix(t) {
      assert Unsigned(t) == t && IsDigitIn(t[0], 10);
      assert LeadingDigits(t, 10) > 0;
    }
  }

  /** Leading white space is skipped; a decimal-digit prefix is all that is read. */
  lemma {:induction false} TrimStartPadded(ws: string, t: string)
    requires forall k :: 0 <= k < |ws| ==> IsJsSpace(ws[k])
    requires t == [] || !IsJsSpace(t[0])
    ensures TrimStart(ws + t) == t
  {
    if ws == [] {
      assert ws + t == t;
    } else {
      assert (ws + t)[1..] == ws[1..] + t;
      TrimStartPadded(ws[1..], t);
    }
  }

  /**
   * White space, then decimal digits, then text that does not go on with a
   * digit (and is not the `x` of a hexadecimal literal) parses to the
   * digits' value: " 2" and "2 " both read as 2.
   */
  lemma ParseIntPadded(ws: string, d: string, x: string)
    requires forall k :: 0 <= k < |ws| ==> IsJsSpace(ws[k])
    requires d != [] && AllDigitsIn(d, 10)
    requires x == [] || !IsDecimalDigit(x[0])
    requires !HasHexPrefix(d + x)
    ensures ParseInt(ws + d + x) == Some(DigitsValue(d, 10))
    ensures ParseIntDecimal(ws + d + x) == Some(DigitsValue(d, 10))
  {
    assert IsDigitIn(d[0], 10);
    assert (d + x)[0] == d[0];
    TrimStartPadded(ws, d + x);
    assert ws + d + x == ws + (d + x);
    assert Unsigned(d + x) == d + x;
    if x != [] {
      assert !IsDigitIn(x[0], 10);
    }
    LeadingDigitsOfConcat(d, x, 10);
  }

  /** A plain string of decimal digits parses to the number it spells. */
  lemma ParseIntOfDecimal(d: string)
    requires d != [] && AllDigitsIn(d, 10)
    ensures ParseInt(d) == Some(DigitsValue(d, 10))
    ensures ParseIntDecimal(d) == Some(DigitsValue(d, 10))
  {
    assert IsDigitIn(d[0], 10);
    assert IsDecimalDigit(d[0]);
    assert !IsJsSpace(d[0]);
    assert TrimStart(d) == d;
    assert Unsigned(d) == d;
    assert !HasHexPrefix(d) by {
      if |d| >= 2 { assert IsDigitIn(d[1], 10); }
    }
    LeadingDigitsOfConcat(d, [], 10);
    assert d + [] == d;
  }

  /** The characters that `replace(/[^0-9.]/g, '')` keeps. */
  predicate IsNumberChar(c: char) { IsDecimalDigit(c) || c == '.' }

  predicate AllNumberChars(t: string) {
    forall i :: 0 <= i < |t| ==> IsNumberChar(t[i])
  }

  /** `s.replace(/[^0-9.]/g, '')`: every digit and dot of `s`, in order, and nothing else. */
  function StripNonNumeric(s: string): string {
    if s == [] then []
    else (if IsNumberChar(s[0]) then [s[0]] else []) + StripNonNumeric(s[1..])
  }

  /** Stripping keeps every digit and dot, as often as it occurs, and nothing else. */
  lemma {:induction false} StripNonNumericSpec(s: string)
    ensures AllNumberChars(StripNonNumeric(s))
    ensures forall c :: IsNumberChar(c) ==> multiset(StripNonNumeric(s))[c] == multiset(s)[c]
  {
    if s != [] {
      StripNonNumericSpec(s[1..]);
      assert s == [s[0]] + s[1..];
    }
  }

  /** Stripping distributes over concatenation. */
  lemma {:induction false} StripAppend(a: string, b: string)
    ensures StripNonNumeric(a + b) == StripNonNumeric(a) + StripNonNumeric(b)
  {
    if a == [] {
      assert a + b == b;
    } else {
      assert (a + b)[1..] == a[1..] + b;
      StripAppend(a[1..], b);
    }
  }

  /** Text made only of digits and dots is left as it is. */
  lemma {:induction false} StripUntouched(t: string)
    requires AllNumberChars(t)
    ensures StripNonNumeric(t) == t
  {
    if t != [] {
      StripUntouched(t[1..]);
    }
  }

  /** Stripping twice is stripping once. */
  lemma StripIdempotent(s: string)
    ensures StripNonNumeric(StripNonNumeric(s)) == StripNonNumeric(s)
  {
    StripNonNumericSpec(s);
    StripUntouched(StripNonNumeric(s));
  }

  /** The text starts with a number `parseFloat` can read: a digit, or a dot followed by a digit. */
  predicate HasNumericPrefix(t: string) {
    t != [] && (IsDecimalDigit(t[0]) || (t[0] == '.' && |t| >= 2 && IsDecimalDigit(t[1])))
  }

  /** The number written `whole.frac` where `frac` has `places` digits. */
  function DecimalValue(whole: nat, frac: nat, places: nat): real {
    whole as real + frac as real / Pow(10, places) as real
  }

  /**
   * `parseFloat(t)` for text of digits and dots only: the longest prefix of
   * the form digits, optionally a dot and more digits, with at least one
   * digit; NaN (`None`) when there is none. The value is exact.
   */
  function ParseFloatOfNumberChars(t: string): (r: Option<real>)
    requires AllNumberChars(t)
    ensures r.Some? <==> HasNumericPrefix(t)
    ensures r.Some? ==> r.value >= 0.0
  {
    var i := LeadingDigits(t, 10);
    LeadingDigitsSpec(t, 10);
    var whole := DigitsValue(t[..i], 10);
    assert t != [] && IsDecimalDigit(t[0]) ==> IsDigitIn(t[0], 10) && i > 0;
    if i < |t| && t[i] == '.' then
      var rest := t[i + 1..];
      var j := LeadingDigits(rest, 10);
      LeadingDigitsSpec(rest, 10);
      assert i == 0 ==> (j > 0 <==> HasNumericPrefix(t)) by {
        if i == 0 && |t| >= 2 && IsDecimalDigit(t[1]) { assert IsDigitIn(rest[0], 10); }
      }
      if i + j == 0 then None
      else
        var frac := DigitsValue(rest[..j], 10);
        DigitsValueBound(rest[..j], 10);
        FractionBelowOne(frac, Pow(10, j));
        Some(DecimalValue(whole, frac, j))
    else if i == 0 then None
    else Some(whole as real)
  }

  lemma FractionBelowOne(frac: nat, scale: nat)
    requires frac < scale
    ensures 0.0 <= frac as real / scale as real < 1.0
  {
  }

  /** The digit prefix of digits followed by a non-digit is those digits. */
  lemma {:induction false} LeadingDigitsOfConcat(d: string, x: string, radix: nat)
    requires AllDigitsIn(d, radix)
    requires x == [] || !IsDigitIn(x[0], radix)
    ensures LeadingDigits(d + x, radix) == |d|
    ensures (d + x)[..|d|] == d
  {
    if d != [] {
      assert (d + x)[1..] == d[1..] + x;
      LeadingDigitsOfConcat(d[1..], x, radix);
    }
  }

  /** Digits, a dot, digits, then anything: the value of the literal before the second dot. */
  lemma ParseFloatOfLiteral(whole: string, frac: string, rest: string)
    requires AllDigitsIn(whole, 10) && AllDigitsIn(frac, 10) && |whole| + |frac| > 0
    requires AllNumberChars(rest) && (rest == [] || rest[0] == '.')
    ensures AllNumberChars(whole + ['.'] + frac + rest)
    ensures ParseFloatOfNumberChars(whole + ['.'] + frac + rest)
         == Some(DecimalValue(DigitsValue(whole, 10), DigitsValue(frac, 10), |frac|))
  {
    var t := whole + ['.'] + frac + rest;
    LiteralIsNumberChars(whole, frac, rest);
    LeadingDigitsSpec(t, 10);
    LiteralPrefixes(whole, frac, rest);
    ParseFloatAfterDot(t, |whole|, |frac|);
  }

  /** Where the digit runs of `whole.frac…` start and end. */
  lemma LiteralPrefixes(whole: string, frac: string, rest: string)
    requires AllDigitsIn(whole, 10) && AllDigitsIn(frac, 10)
    requires rest == [] || rest[0] == '.'
    ensures var t := whole + ['.'] + frac + rest;
      && LeadingDigits(t, 10) == |whole| && t[..|whole|] == whole && t[|whole|] == '.'
      && LeadingDigits(t[|whole| + 1..], 10) == |frac| && t[|whole| + 1..][..|frac|] == frac
  {
    var after := frac + rest;
    var t := whole + (['.'] + after);
    assert t == whole + ['.'] + frac + rest;
    LeadingDigitsOfConcat(whole, ['.'] + after, 10);
    assert t[|whole| + 1..] == after;
    LeadingDigitsOfConcat(frac, rest, 10);
  }

  /** The unfolding of `ParseFloatOfNumberChars` when the digit prefix is followed by a dot. */
  lemma ParseFloatAfterDot(t: string, i: nat, j: nat)
    requires AllNumberChars(t)
    requires LeadingDigits(t, 10) == i && i < |t| && t[i] == '.'
    requires LeadingDigits(t[i + 1..], 10) == j && i + j > 0 && i + 1 + j <= |t|
    requires AllDigitsIn(t[..i], 10) && AllDigitsIn(t[i + 1..][..j], 10)
    ensures ParseFloatOfNumberChars(t)
         == Some(DecimalValue(DigitsValue(t[..i], 10), DigitsValue(t[i + 1..][..j], 10), j))
  {
  }

  lemma LiteralIsNumberChars(whole: string, frac: string, rest: string)
    requires AllDigitsIn(whole, 10) && AllDigitsIn(frac, 10) && AllNumberChars(rest)
    ensures AllNumberChars(whole + ['.'] + frac + rest)
  {
    var t := whole + ['.'] + frac + rest;
    forall i | 0 <= i < |t| ensures IsNumberChar(t[i]) {
      if i < |whole| {
        assert t[i] == whole[i] && IsDigitIn(whole[i], 10);
      } else if i == |whole| {
      } else if i < |whole| + 1 + |frac| {
        assert t[i] == frac[i - |whole| - 1] && IsDigitIn(frac[i - |whole| - 1], 10);
      } else {
        assert t[i] == rest[i - |whole| - 1 - |frac|];
      }
    }
  }

  /** A plain digit string reads as the whole number it spells. */
  lemma ParseFloatOfWhole(whole: string)
    requires whole != [] && AllDigitsIn(whole, 10)
    ensures AllNumberChars(whole)
    ensures ParseFloatOfNumberChars(whole) == Some(DigitsValue(whole, 10) as real)
  {
    assert AllNumberChars(whole) by {
      forall i | 0 <= i < |whole| ensures IsNumberChar(whole[i]) {
        assert IsDigitIn(whole[i], 10);
      }
    }
    LeadingDigitsOfConcat(whole, [], 10);
    assert whole + [] == whole;
  }

  /** The first index of `c` in `s`, or `|s|` when there is none. */
  function IndexOf(s: string, c: char): nat {
    if s == [] then 0 else if s[0] == c then 0 else 1 + IndexOf(s[1..], c)
  }

  /** `IndexOf` finds the first occurrence, and reports `|s|` only when there is none. */
  lemma {:induction false} IndexOfSpec(s: string, c: char)
    ensures var i := IndexOf(s, c);
      && i <= |s|
      && (i < |s| ==> s[i] == c)
      && (forall j :: 0 <= j < i ==> s[j] != c)
  {
    if s != [] && s[0] != c {
      IndexOfSpec(s[1..], c);
    }
  }

  /** `s.replace(from, to)` with a one-character string pattern: only the first occurrence changes. */
  function ReplaceFirst(s: string, from: char, to: char): string {
    var i := IndexOf(s, from);
    IndexOfSpec(s, from);
    if i == |s| then s else s[..i] + [to] + s[i + 1..]
  }

  /** Replacing the first `from`: text without one is unchanged, otherwise exactly one position changes. */
  lemma ReplaceFirstSpec(s: string, from: char, to: char)
    ensures |ReplaceFirst(s, from, to)| == |s|
    ensures from !in s ==> ReplaceFirst(s, from, to) == s
    ensures from in s ==>
      var i := IndexOf(s, from);
      && i < |s| && s[i] == from && ReplaceFirst(s, from, to) == s[..i] + [to] + s[i + 1..]
      && (forall j :: 0 <= j < i ==> s[j] != from)
  {
    IndexOfSpec(s, from);
  }

  /** `s.split(sep)` with a one-character separator. */
  function Split(s: string, sep: char): (parts: seq<string>)
    ensures |parts| >= 1
  {
    if s == [] then [[]]
    else
      var tail := Split(s[1..], sep);
      if s[0] == sep then [[]] + tail
      else [[s[0]] + tail[0]] + tail[1..]
  }

  /** No part of a split holds the separator. */
  lemma {:induction false} SplitPartsOmitSeparator(s: string, sep: char)
    ensures forall k :: 0 <= k < |Split(s, sep)| ==> sep !in Split(s, sep)[k]
  {
    if s != [] {
      SplitPartsOmitSeparator(s[1..], sep);
    }
  }

  /** `parts.join(sep)`, the inverse of `Split`. */
  function Join(parts: seq<string>, sep: char): string
    requires |parts| >= 1
  {
    if |parts| == 1 then parts[0] else parts[0] + [sep] + Join(parts[1..], sep)
  }

  /** Joining the parts of a split with the same separator gives the text back. */
  lemma {:induction false} JoinSplit(s: string, sep: char)
    ensures Join(Split(s, sep), sep) == s
  {
    if s != [] {
      var tail := Split(s[1..], sep);
      JoinSplit(s[1..], sep);
      if s[0] == sep {
        assert Split(s, sep) == [[]] + tail;
      } else {
        var parts := Split(s, sep);
        assert parts == [[s[0]] + tail[0]] + tail[1..];
        if |tail| == 1 {
          assert Join(parts, sep) == [s[0]] + tail[0];
        } else {
          assert parts[1..] == tail[1..];
          assert Join(parts, sep) == [s[0]] + tail[0] + [sep] + Join(tail[1..], sep);
        }
      }
    }
  }

  /** Text without the separator splits into one part, itself. */
  lemma {:induction false} SplitWithoutSeparator(s: string, sep: char)
    requires sep !in s
    ensures Split(s, sep) == [s]
  {
    if s != [] {
      assert sep !in s[1..] by {
        forall i | 0 <= i < |s| - 1 ensures s[1..][i] != sep { assert s[1..][i] == s[i + 1]; }
      }
      SplitWithoutSeparator(s[1..], sep);
      assert [s[0]] + s[1..] == s;
    }
  }

  /** Splitting at the first separator: the part before it, then the split of the rest. */
  lemma {:induction false} SplitAtFirst(a: string, sep: char, b: string)
    requires sep !in a
    ensures Split(a + [sep] + b, sep) == [a] + Split(b, sep)
  {
    if a == [] {
      assert a + [sep] + b == [sep] + b;
      assert ([sep] + b)[1..] == b;
    } else {
      assert (a + [sep] + b)[1..] == a[1..] + [sep] + b;
      SplitAtFirst(a[1..], sep, b);
      assert a == [a[0]] + a[1..];
    }
  }
}
