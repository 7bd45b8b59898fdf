/**
 * `ColorPicker._ensureHexColor`: turns a colour as the browser reports it
 * (`"rgb(156, 39, 176)"`) into the `#rrggbb` form a colour input accepts.
 * A colour that already starts with `#` is returned as it is; otherwise the
 * runs of decimal digits in it (`color.match(/\d+/g)`) are taken, and
 * exactly three of them become `#` and three two-digit hexadecimal numbers.
 */
module HexColor {
  import opened Numerals

  predicate StartsWithHash(s: string) {
    |s| > 0 && s[0] == '#'
  }

  /** The length of the longest prefix of `s` made of decimal digits. */
  function LeadingDigits(s: string): (n: nat)
    ensures n <= |s| && AllDigits(s[..n])
    ensures n < |s| ==> !IsDigit(s[n])
    decreases |s|
  {
    if s == [] || !IsDigit(s[0]) then 0
    else
      var m := LeadingDigits(s[1..]);
      assert s[1..][..m] == s[1..m + 1];
      1 + m
  }

  /** The maximal runs of decimal digits in `s`, left to right (`s.match(/\d+/g)`, with `[]` for `null`). */
  function DigitRuns(s: string): (runs: seq<string>)
    ensures forall i :: 0 <= i < |runs| ==> runs[i] != [] && AllDigits(runs[i])
    decreases |s|
  {
    if s == [] then []
    else if !IsDigit(s[0]) then DigitRuns(s[1..])
    else
      var n := LeadingDigits(s);
      [s[..n]] + DigitRuns(s[n..])
  }

  /** `hex.length === 1 ? '0' + hex : hex` applied to `n.toString(16)`. */
  function Hex2(n: nat): (r: string)
    ensures |r| >= 2 && AllHexDigits(r)
    ensures |r| > 2 ==> r[0] != '0'
    ensures n < 256 <==> |r| == 2
  {
    var h := Hex(n);
    if |h| == 1 then "0" + h else h
  }

  function EnsureHexColor(color: string): (r: string)
    ensures StartsWithHash(color) ==> r == color
    ensures !StartsWithHash(color) && |DigitRuns(color)| != 3 ==> r == color
    ensures !StartsWithHash(color) && |DigitRuns(color)| == 3 ==> StartsWithHash(r)
  {
    if StartsWithHash(color) then color
    else
      var runs := DigitRuns(color);
      if |runs| != 3 then color
      else "#" + Hex2(DecimalValue(runs[0])) + Hex2(DecimalValue(runs[1])) + Hex2(DecimalValue(runs[2]))
  }

  /** A `#rrggbb` colour: a hash and six lower-case hexadecimal digits. */
  predicate IsHexColor(s: string) {
    |s| == 7 && s[0] == '#' && AllHexDigits(s[1..])
  }

  /** A component up to 255 becomes exactly two hexadecimal digits that read back as it. */
  lemma Hex2RoundTrip(n: nat)
    requires n < 256
    ensures |Hex2(n)| == 2 && AllHexDigits(Hex2(n))
    ensures HexValue(Hex2(n)) == n
  {
    HexRoundTrip(n);
    var h := Hex(n);
    if |h| == 1 {
      var p := "0" + h;
      assert p[..1] == "0";
      assert HexValue(p) == HexValue(p[..1]) * 16 + HexDigitValue(p[1]);
      assert HexValue(p[..1]) == HexValue([]) * 16 + HexDigitValue('0');
    }
  }

  /**
   * Three digit runs whose values are at most 255 give a `#rrggbb` colour
   * whose three components read back as those values.
   */
  lemma EnsureHexOfThreeComponents(color: string)
    requires !StartsWithHash(color)
    requires |DigitRuns(color)| == 3
    requires forall i :: 0 <= i < 3 ==> DecimalValue(DigitRuns(color)[i]) < 256
    ensures var r := EnsureHexColor(color);
      && IsHexColor(r)
      && HexValue(r[1..3]) == DecimalValue(DigitRuns(color)[0])
      && HexValue(r[3..5]) == DecimalValue(DigitRuns(color)[1])
      && HexValue(r[5..7]) == DecimalValue(DigitRuns(color)[2])
  {
    var runs := DigitRuns(color);
    var a, b, c := DecimalValue(runs[0]), DecimalValue(runs[1]), DecimalValue(runs[2]);
    Hex2RoundTrip(a);
    Hex2RoundTrip(b);
    Hex2RoundTrip(c);
    var r := EnsureHexColor(color);
    assert r == "#" + Hex2(a) + Hex2(b) + Hex2(c);
    assert r[1..3] == Hex2(a);
    assert r[3..5] == Hex2(b);
    assert r[5..7] == Hex2(c);
    assert r[1..] == Hex2(a) + Hex2(b) + Hex2(c);
  }

  /** A component above 255 gives more than two digits, so the result is longer than `#rrggbb`. */
  lemma EnsureHexOfLargeComponent(color: string)
    requires !StartsWithHash(color)
    requires |DigitRuns(color)| == 3
    requires exists i :: 0 <= i < 3 && DecimalValue(DigitRuns(color)[i]) >= 256
    ensures |EnsureHexColor(color)| > 7
  {
    var runs := DigitRuns(color);
    var a, b, c := DecimalValue(runs[0]), DecimalValue(runs[1]), DecimalValue(runs[2]);
    Hex2Length(a);
    Hex2Length(b);
    Hex2Length(c);
    assert EnsureHexColor(color) == "#" + Hex2(a) + Hex2(b) + Hex2(c);
  }

  lemma Hex2Length(n: nat)
    ensures |Hex2(n)| >= 2
    ensures n >= 256 ==> |Hex2(n)| > 2
  {
  }

  lemma EnsureHexIdempotent(color: string)
    ensures EnsureHexColor(EnsureHexColor(color)) == EnsureHexColor(color)
  {
  }

  // ---- the browser's `rgb(r, g, b)` serialisation is converted component by component ----

  predicate NoDigits(p: string) {
    forall i :: 0 <= i < |p| ==> !IsDigit(p[i])
  }

  /** The separators of `rgb(r, g, b)` hold no digits. */
  lemma SeparatorsHaveNoDigits()
    ensures NoDigits("rgb(") && NoDigits(", ") && NoDigits(")")
  {
  }

  lemma {:induction false} RunsSkipNonDigits(p: string, t: string)
    requires NoDigits(p)
    ensures DigitRuns(p + t) == DigitRuns(t)
    decreases |p|
  {
    if p != [] {
      assert (p + t)[1..] == p[1..] + t;
      RunsSkipNonDigits(p[1..], t);
    } else {
      assert p + t == t;
    }
  }

  lemma {:induction false} LeadingDigitsOfRun(d: string, t: string)
    requires AllDigits(d)
    requires t == [] || !IsDigit(t[0])
    ensures LeadingDigits(d + t) == |d|
    decreases |d|
  {
    if d != [] {
      assert (d + t)[1..] == d[1..] + t;
      LeadingDigitsOfRun(d[1..], t);
    }
  }

  lemma RunsTakeRun(d: string, t: string)
    requires d != [] && AllDigits(d)
    requires t == [] || !IsDigit(t[0])
    ensures DigitRuns(d + t) == [d] + DigitRuns(t)
  {
    LeadingDigitsOfRun(d, t);
    assert (d + t)[..|d|] == d;
    assert (d + t)[|d|..] == t;
  }

  /** The text `rgb(r, g, b)` that a browser reports for a colour. */
  function RgbText(r: nat, g: nat, b: nat): string {
    "rgb(" + Decimal(r) + ", " + Decimal(g) + ", " + Decimal(b) + ")"
  }

  /** A run of digits after a digit-free separator is the next run. */
  lemma RunsAfterSeparator(p: string, d: string, t: string)
    requires NoDigits(p) && d != [] && AllDigits(d)
    requires t == [] || !IsDigit(t[0])
    ensures DigitRuns(p + (d + t)) == [d] + DigitRuns(t)
  {
    RunsSkipNonDigits(p, d + t);
    RunsTakeRun(d, t);
  }

  lemma RgbShape(r: nat, g: nat, b: nat)
    ensures RgbText(r, g, b) == "rgb(" + (Decimal(r) + (", " + (Decimal(g) + (", " + (Decimal(b) + ")")))))
  {
  }

  lemma DigitRunsOfRgb(r: nat, g: nat, b: nat)
    ensures DigitRuns(RgbText(r, g, b)) == [Decimal(r), Decimal(g), Decimal(b)]
  {
    var dr, dg, db := Decimal(r), Decimal(g), Decimal(b);
    var tail2 := ", " + (db + ")");
    var tail1 := ", " + (dg + tail2);
    SeparatorsHaveNoDigits();
    RgbShape(r, g, b);
    RunsSkipNonDigits(")", []);
    assert ")" + [] == ")";
    RunsAfterSeparator(", ", db, ")");
    RunsAfterSeparator(", ", dg, tail2);
    RunsAfterSeparator("rgb(", dr, tail1);
  }

  /** `rgb(r, g, b)` with components up to 255 becomes the `#rrggbb` colour of those components. */
  lemma EnsureHexOfRgb(r: nat, g: nat, b: nat)
    requires r < 256 && g < 256 && b < 256
    ensures var h := EnsureHexColor(RgbText(r, g, b));
      && IsHexColor(h)
      && HexValue(h[1..3]) == r && HexValue(h[3..5]) == g && HexValue(h[5..7]) == b
  {
    DigitRunsOfRgb(r, g, b);
    DecimalRoundTrip(r);
    DecimalRoundTrip(g);
    DecimalRoundTrip(b);
    EnsureHexOfThreeComponents(RgbText(r, g, b));
  }
}
