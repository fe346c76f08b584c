/** Decimal text in and out (packages/shared/src/money/decimal.ts:20-103). */
module Decimal {
  import opened Basics
  import opened Text
  import opened Rounding

  const MAX_DECIMALS := 36

  predicate ValidDecimals(decimals: int) {
    0 <= decimals <= MAX_DECIMALS
  }

  function Pow10(n: nat): (p: nat)
    ensures p >= 1
  {
    if n == 0 then 1 else 10 * Pow10(n - 1)
  }

  // ---------------------------------------------------------------- numerals

  predicate IsDigit(c: char) {
    '0' <= c <= '9'
  }

  predicate Digits(s: string) {
    forall i :: 0 <= i < |s| ==> IsDigit(s[i])
  }

  function DigitValue(c: char): (d: nat)
    requires IsDigit(c)
    ensures d < 10
  {
    c as int - '0' as int
  }

  function DigitChar(d: nat): (c: char)
    requires d < 10
    ensures IsDigit(c) && DigitValue(c) == d
  {
    (d + '0' as int) as char
  }

  /** `BigInt` of a string of digits; the empty string stands for zero here. */
  function NatValue(s: string): nat
    requires Digits(s)
  {
    if s == [] then 0 else NatValue(s[..|s| - 1]) * 10 + DigitValue(s[|s| - 1])
  }

  function NatString(n: nat): (s: string)
    ensures s != [] && Digits(s)
  {
    if n < 10 then [DigitChar(n)] else NatString(n / 10) + [DigitChar(n % 10)]
  }

  function PadStart(s: string, n: nat): string {
    if |s| < n then Zeros(n - |s|) + s else s
  }

  function PadEnd(s: string, n: nat): string {
    if |s| < n then s + Zeros(n - |s|) else s
  }

  /** White space as `trim` removes it. */
  predicate IsSpace(c: char) {
    '\t' <= c <= '\r' || c == ' ' || c == '\U{00A0}' || c == '\U{1680}' || '\U{2000}' <= c <= '\U{200A}' ||
    c == '\U{2028}' || c == '\U{2029}' || c == '\U{202F}' || c == '\U{205F}' || c == '\U{3000}' || c == '\U{FEFF}'
  }

  /** The white space and line terminators of ECMAScript, by code point. */
  lemma SpaceCodes(c: char)
    ensures IsSpace(c) <==>
            var code := c as int;
            9 <= code <= 13 || code in {32, 160, 5760, 8232, 8233, 8239, 8287, 12288, 65279} || 8192 <= code <= 8202
  {
  }

  function TrimLeft(s: string): string {
    if s != [] && IsSpace(s[0]) then TrimLeft(s[1..]) else s
  }

  function TrimRight(s: string): string {
    if s != [] && IsSpace(s[|s| - 1]) then TrimRight(s[..|s| - 1]) else s
  }

  function Trim(s: string): string {
    TrimRight(TrimLeft(s))
  }

  // ---------------------------------------------------------------- parsing and printing

  function Unsigned(s: string): string {
    if s != [] && s[0] == '-' then s[1..] else s
  }

  function Point(u: string): int {
    IndexFrom(u, '.', 0)
  }

  function WholePart(u: string): string {
    if Point(u) == -1 then u else u[..Point(u)]
  }

  function FractionPart(u: string): string {
    if Point(u) == -1 then [] else u[Point(u) + 1..]
  }

  /** An optional sign, digits, and optionally a point followed by digits. */
  predicate IsDecimal(s: string) {
    var u := Unsigned(s);
    && WholePart(u) != [] && Digits(WholePart(u))
    && (Point(u) != -1 ==> FractionPart(u) != []) && Digits(FractionPart(u))
  }

  function ParseUnits(value: string, decimals: int): Outcome<int> {
    if !ValidDecimals(decimals) then Abort
    else
      var trimmed := Trim(value);
      if !IsDecimal(trimmed) then Abort
      else
        var u := Unsigned(trimmed);
        if |FractionPart(u)| > decimals then Abort
        else
          var padded := PadEnd(FractionPart(u), decimals);
          var units := NatValue(WholePart(u)) * Pow10(decimals) + NatValue(padded);
          Commit(if trimmed[0] == '-' then -units else units)
  }

  function Quotient(n: nat, d: nat): nat
    requires d >= 1
  {
    n / d
  }

  function Remainder(n: nat, d: nat): (r: nat)
    requires d >= 1
    ensures r < d && n == Quotient(n, d) * d + r
  {
    n % d
  }

  function IntString(n: int): string {
    if n < 0 then "-" + NatString(-n) else NatString(n)
  }

  function FormatUnits(units: int, decimals: int): Outcome<string> {
    if !ValidDecimals(decimals) then Abort
    else if decimals == 0 then Commit(IntString(units))
    else
      var absolute := Abs(units);
      var divisor := Pow10(decimals);
      var text := NatString(Quotient(absolute, divisor)) + "." + PadStart(NatString(Remainder(absolute, divisor)), decimals);
      Commit(if units < 0 then "-" + text else text)
  }

  function DropZeros(s: string): string {
    if s != [] && s[|s| - 1] == '0' then DropZeros(s[..|s| - 1]) else s
  }

  /** `replace(/\.?0+$/, '')` on a text holding a point: trailing zeros go, and then a bare point. */
  function Trimmed(formatted: string): string {
    if '.' !in formatted then formatted
    else
      var dropped := DropZeros(formatted);
      if dropped != formatted && dropped != [] && dropped[|dropped| - 1] == '.' then dropped[..|dropped| - 1] else dropped
  }

  function FormatUnitsTrimmed(units: int, decimals: int): Outcome<string> {
    var formatted :- FormatUnits(units, decimals);
    Commit(Trimmed(formatted))
  }

  /** Sign, whole digits and, if any, fraction digits. */
  function Spelled(negative: bool, whole: string, fraction: string): string {
    var body := if fraction == [] then whole else whole + "." + fraction;
    if negative then "-" + body else body
  }

  // ---------------------------------------------------------------- numerals read back

  lemma NatValueSnoc(s: string, c: char)
    requires Digits(s) && IsDigit(c)
    ensures Digits(s + [c]) && NatValue(s + [c]) == NatValue(s) * 10 + DigitValue(c)
  {
    assert (s + [c])[..|s|] == s;
  }

  lemma {:induction false} NumeralReadsBack(n: nat)
    ensures NatValue(NatString(n)) == n
  {
    if n < 10 {
      assert [DigitChar(n)][..0] == [];
      assert NatValue([]) == 0;
    } else {
      NumeralReadsBack(n / 10);
      NatValueSnoc(NatString(n / 10), DigitChar(n % 10));
    }
  }

  lemma {:induction false} LeadingZeros(k: nat, s: string)
    requires Digits(s)
    ensures Digits(Zeros(k) + s) && NatValue(Zeros(k) + s) == NatValue(s)
    decreases |s|, k
  {
    if s == [] {
      assert Zeros(k) + s == Zeros(k);
      if k > 0 {
        assert Zeros(k)[..k - 1] == Zeros(k - 1) && Zeros(k - 1) + [] == Zeros(k - 1);
        LeadingZeros(k - 1, []);
      }
    } else {
      var init := s[..|s| - 1];
      LeadingZeros(k, init);
      assert Zeros(k) + s == (Zeros(k) + init) + [s[|s| - 1]];
      NatValueSnoc(Zeros(k) + init, s[|s| - 1]);
    }
  }

  /** The number of digits of n is at most d when n < 10^d. */
  lemma {:induction false} NumeralLength(n: nat, d: nat)
    requires d >= 1 && n < Pow10(d)
    ensures |NatString(n)| <= d
  {
    if n >= 10 {
      assert Pow10(1) == 10;
      NumeralLength(n / 10, d - 1);
    }
  }

  lemma PaddedFraction(n: nat, d: nat)
    requires d >= 1 && n < Pow10(d)
    ensures var f := PadStart(NatString(n), d); Digits(f) && |f| == d && NatValue(f) == n
  {
    NumeralReadsBack(n);
    NumeralLength(n, d);
    LeadingZeros(d - |NatString(n)|, NatString(n));
  }

  // ---------------------------------------------------------------- what a printed text parses to

  lemma PointOf(whole: string, rest: string)
    requires Digits(whole)
    ensures Point(whole) == -1
    ensures Point(whole + "." + rest) == |whole|
  {
    var u := whole + "." + rest;
    assert u[|whole|] == '.';
    assert forall i :: 0 <= i < |whole| ==> u[i] == whole[i];
  }

  lemma NothingToTrim(s: string)
    requires s != [] && !IsSpace(s[0]) && !IsSpace(s[|s| - 1])
    ensures Trim(s) == s
  {
  }

  /** A text of sign, whole digits and fraction digits parses to the number it spells. */
  lemma ParsesTo(negative: bool, whole: string, fraction: string, decimals: nat)
    requires ValidDecimals(decimals) && whole != [] && Digits(whole) && Digits(fraction) && |fraction| <= decimals
    ensures var units := NatValue(whole) * Pow10(decimals) + NatValue(PadEnd(fraction, decimals));
            ParseUnits(Spelled(negative, whole, fraction), decimals) == Commit(if negative then -units else units)
  {
    hide Pow10, NatValue, PadEnd;
    PrintedParts(negative, whole, fraction);
  }

  /** The text spells a number: an optional sign, whole digits, and a point only before fraction digits. */
  ghost predicate Numeral(text: string, negative: bool, whole: string, fraction: string) {
    whole != [] && Digits(whole) && Digits(fraction) && text == Spelled(negative, whole, fraction)
  }

  /** What is accepted: exactly a numeral, surrounded by nothing but white space, with no more fraction digits than places. */
  lemma ParsesExactly(value: string, decimals: int)
    ensures ParseUnits(value, decimals).Commit? <==>
            0 <= decimals <= 36 && exists negative, whole, fraction :: Numeral(Trim(value), negative, whole, fraction) && |fraction| <= decimals
  {
    hide Pow10, NatValue, PadEnd, Trim;
    var text := Trim(value);
    if negative, whole, fraction :| Numeral(text, negative, whole, fraction) && |fraction| <= decimals {
      PrintedParts(negative, whole, fraction);
    }
    if ParseUnits(value, decimals).Commit? {
      var u := Unsigned(text);
      var negative, whole, fraction := text[0] == '-', WholePart(u), FractionPart(u);
      if Point(u) != -1 { assert u == u[..Point(u)] + [u[Point(u)]] + u[Point(u) + 1..]; }
      assert Numeral(text, negative, whole, fraction);
    }
  }

  predicate Spaces(s: string) {
    forall i :: 0 <= i < |s| ==> IsSpace(s[i])
  }

  /** Trimming removes white space from both ends, all of it and nothing else. */
  lemma TrimMeaning(s: string) returns (left: string, right: string)
    ensures s == left + Trim(s) + right && Spaces(left) && Spaces(right)
    ensures Trim(s) == [] || (!IsSpace(Trim(s)[0]) && !IsSpace(Trim(s)[|Trim(s)| - 1]))
  {
    left := LeftMeaning(s);
    right := RightMeaning(TrimLeft(s));
    var t := TrimLeft(s);
    if Trim(s) != [] { assert Trim(s)[0] == t[0]; }
  }

  lemma {:induction false} LeftMeaning(s: string) returns (left: string)
    ensures s == left + TrimLeft(s) && Spaces(left) && (TrimLeft(s) == [] || !IsSpace(TrimLeft(s)[0]))
  {
    left := [];
    if s != [] && IsSpace(s[0]) {
      var rest := LeftMeaning(s[1..]);
      left := [s[0]] + rest;
      assert s == [s[0]] + s[1..];
    }
  }

  lemma {:induction false} RightMeaning(s: string) returns (right: string)
    ensures s == TrimRight(s) + right && Spaces(right) && (TrimRight(s) == [] || !IsSpace(TrimRight(s)[|TrimRight(s)| - 1]))
  {
    right := [];
    if s != [] && IsSpace(s[|s| - 1]) {
      var rest := RightMeaning(s[..|s| - 1]);
      right := rest + [s[|s| - 1]];
      assert s == s[..|s| - 1] + [s[|s| - 1]];
    }
  }

  /** More fraction digits than the asset has are refused, never cut off. */
  lemma RefusesExtraDigits(negative: bool, whole: string, fraction: string, decimals: int)
    requires whole != [] && Digits(whole) && Digits(fraction) && |fraction| > decimals
    ensures ParseUnits(Spelled(negative, whole, fraction), decimals) == Abort
  {
    hide Pow10, NatValue, PadEnd;
    PrintedParts(negative, whole, fraction);
  }

  /** Parsing is exact: one more decimal place gives exactly ten times the units. */
  lemma FinerPrecision(value: string, decimals: int)
    requires ParseUnits(value, decimals).Commit? && ValidDecimals(decimals + 1)
    ensures ParseUnits(value, decimals + 1) == Commit(10 * ParseUnits(value, decimals).value)
  {
    var u := Unsigned(Trim(value));
    OneMoreZero(WholePart(u), FractionPart(u), decimals);
    hide Pow10, NatValue, PadEnd, Trim, FractionPart, WholePart;
  }

  lemma OneMoreZero(whole: string, fraction: string, decimals: nat)
    requires Digits(whole) && Digits(fraction) && |fraction| <= decimals
    ensures Digits(PadEnd(fraction, decimals)) && Digits(PadEnd(fraction, decimals + 1))
    ensures NatValue(whole) * Pow10(decimals + 1) + NatValue(PadEnd(fraction, decimals + 1)) ==
            10 * (NatValue(whole) * Pow10(decimals) + NatValue(PadEnd(fraction, decimals)))
  {
    var f := PadEnd(fraction, decimals);
    assert PadEnd(fraction, decimals + 1) == f + ['0'];
    NatValueSnoc(f, '0');
    assert Pow10(decimals + 1) == 10 * Pow10(decimals);
    hide Pow10, NatValue, PadEnd;
    TenTimes(NatValue(whole), Pow10(decimals), NatValue(f));
  }

  lemma TenTimes(w: nat, p: nat, v: nat)
    ensures w * (10 * p) + v * 10 == 10 * (w * p + v)
  {
  }

  lemma PrintedParts(negative: bool, whole: string, fraction: string)
    requires whole != [] && Digits(whole) && Digits(fraction)
    ensures var body := if fraction == [] then whole else whole + "." + fraction;
            var text := Spelled(negative, whole, fraction);
            && Trim(text) == text && Unsigned(text) == body && text != [] && (text[0] == '-' <==> negative)
            && WholePart(body) == whole && FractionPart(body) == fraction
            && (Point(body) == -1 <==> fraction == [])
  {
    hide Trim;
    var body := if fraction == [] then whole else whole + "." + fraction;
    var text := if negative then "-" + body else body;
    PointOf(whole, fraction);
    assert body[0] == whole[0] && IsDigit(whole[0]);
    assert body[|body| - 1] == if fraction == [] then whole[|whole| - 1] else fraction[|fraction| - 1];
    assert text[|text| - 1] == body[|body| - 1];
    NothingToTrim(text);
    if fraction != [] {
      assert body[..|whole|] == whole;
      assert body[|whole| + 1..] == fraction;
    }
  }

  // ---------------------------------------------------------------- round trips

  lemma {:induction false} DroppedZeros(s: string)
    ensures |DropZeros(s)| <= |s| && s == DropZeros(s) + Zeros(|s| - |DropZeros(s)|)
    ensures DropZeros(s) == [] || DropZeros(s)[|DropZeros(s)| - 1] != '0'
  {
    if s != [] && s[|s| - 1] == '0' {
      DroppedZeros(s[..|s| - 1]);
      var d := DropZeros(s);
      assert s == s[..|s| - 1] + ['0'] && Zeros(|s| - |d|) == Zeros(|s| - 1 - |d|) + ['0'];
    }
  }

  lemma {:induction false} DropAfterPoint(whole: string, fraction: string)
    ensures DropZeros(whole + "." + fraction) == whole + "." + DropZeros(fraction)
    decreases |fraction|
  {
    var s := whole + "." + fraction;
    if fraction == [] {
      assert s[|s| - 1] == '.';
    } else {
      var init := fraction[..|fraction| - 1];
      assert s[|s| - 1] == fraction[|fraction| - 1];
      if fraction[|fraction| - 1] == '0' {
        assert s[..|s| - 1] == whole + "." + init;
        DropAfterPoint(whole, init);
      }
    }
  }

  /** Printing with every decimal place and parsing returns the amount. */
  lemma RoundTrip(units: int, decimals: nat)
    requires ValidDecimals(decimals)
    ensures FormatUnits(units, decimals).Commit?
    ensures ParseUnits(FormatUnits(units, decimals).value, decimals) == Commit(units)
  {
    hide FormatUnits, ParseUnits, Spelled, NatValue, PadEnd, Pow10;
    var whole, fraction := Printed(units, decimals);
    ParsesTo(units < 0, whole, fraction, decimals);
    FullyPadded(fraction, decimals);
  }

  lemma FullyPadded(fraction: string, decimals: nat)
    requires |fraction| == decimals
    ensures PadEnd(fraction, decimals) == fraction
  {
  }

  lemma {:induction false} NoLeadingZero(n: nat)
    ensures NatString(n) == "0" || NatString(n)[0] != '0'
  {
    if n >= 10 {
      NoLeadingZero(n / 10);
      NumeralReadsBack(n / 10);
      assert NatValue("0") == 0 by { assert "0"[..0] == []; }
      assert NatString(n)[0] == NatString(n / 10)[0];
    }
  }

  /** The printed text: no needless leading zero, every decimal place, and the number they spell together. */
  lemma Printed(units: int, decimals: nat) returns (whole: string, fraction: string)
    requires ValidDecimals(decimals)
    ensures whole != [] && Digits(whole) && Digits(fraction) && |fraction| == decimals && (whole == "0" || whole[0] != '0')
    ensures FormatUnits(units, decimals) == Commit(Spelled(units < 0, whole, fraction))
    ensures NatValue(whole) * Pow10(decimals) + NatValue(fraction) == Abs(units)
  {
    if decimals == 0 {
      whole, fraction := NatString(Abs(units)), [];
      NoLeadingZero(Abs(units));
      NumeralReadsBack(Abs(units));
      assert Pow10(0) == 1 && NatValue([]) == 0;
    } else {
      hide NatValue, Pow10;
      var q, r := Quotient(Abs(units), Pow10(decimals)), Remainder(Abs(units), Pow10(decimals));
      NumeralReadsBack(q);
      NoLeadingZero(q);
      PaddedFraction(r, decimals);
      whole, fraction := NatString(q), PadStart(NatString(r), decimals);
      hide PadStart, NatString, Quotient, Remainder;
    }
  }

  /** Dropping the trailing zeros loses nothing either. */
  lemma TrimmedRoundTrip(units: int, decimals: nat)
    requires ValidDecimals(decimals)
    ensures FormatUnitsTrimmed(units, decimals).Commit?
    ensures ParseUnits(FormatUnitsTrimmed(units, decimals).value, decimals) == Commit(units)
  {
    hide FormatUnits, ParseUnits, Spelled, NatValue, PadEnd, Pow10, Trimmed, DropZeros;
    var whole, fraction := Printed(units, decimals);
    TrimmedText(units < 0, whole, fraction);
    KeptDigits(fraction, decimals);
    ParsesTo(units < 0, whole, DropZeros(fraction), decimals);
  }

  lemma KeptDigits(fraction: string, decimals: nat)
    requires Digits(fraction) && |fraction| == decimals
    ensures |DropZeros(fraction)| <= decimals && Digits(DropZeros(fraction)) && PadEnd(DropZeros(fraction), decimals) == fraction
  {
    DroppedZeros(fraction);
    var kept := DropZeros(fraction);
    assert kept == fraction[..|kept|];
  }

  /** What trimming makes of sign, whole and fraction. */
  lemma TrimmedText(negative: bool, whole: string, fraction: string)
    requires Digits(whole) && Digits(fraction)
    ensures Trimmed(Spelled(negative, whole, fraction)) == Spelled(negative, whole, DropZeros(fraction))
  {
    var front := if negative then "-" + whole else whole;
    SpelledFrom(negative, whole, fraction);
    SpelledFrom(negative, whole, DropZeros(fraction));
    hide Spelled;
    if fraction == [] {
      assert '.' !in front;
    } else {
      TrimmedAfterPoint(front, fraction);
      hide Trimmed, DropZeros;
    }
  }

  lemma SpelledFrom(negative: bool, whole: string, fraction: string)
    ensures var front := if negative then "-" + whole else whole;
            Spelled(negative, whole, fraction) == if fraction == [] then front else front + "." + fraction
  {
    assert "-" + (whole + "." + fraction) == ("-" + whole) + "." + fraction;
  }

  lemma TrimmedAfterPoint(front: string, fraction: string)
    requires Digits(fraction) && fraction != []
    ensures var kept := DropZeros(fraction);
            Trimmed(front + "." + fraction) == if kept == [] then front else front + "." + kept
  {
    var formatted := front + "." + fraction;
    var kept := DropZeros(fraction);
    hide DropZeros, PadEnd;
    DropAfterPoint(front, fraction);
    KeptDigits(fraction, |fraction|);
    var dropped := DropZeros(formatted);
    assert formatted[|front|] == '.';
    if kept == [] {
      assert |dropped| < |formatted|;
      assert dropped[|dropped| - 1] == '.' && dropped[..|dropped| - 1] == front;
    } else {
      assert dropped[|dropped| - 1] == kept[|kept| - 1];
    }
  }
}
