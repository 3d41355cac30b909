/**
  The text of the overlay's size readout, f"{w} x {h}": Python's decimal
  rendering of a non-negative int, and a reader that recovers the two numbers
  from the readout, so that the readout is shown to name the size exactly.
 */
module Decimal {
  import opened Wrappers

  predicate IsDigit(c: char) {
    '0' <= c <= '9'
  }

  predicate AllDigits(s: string) {
    forall i :: 0 <= i < |s| ==> IsDigit(s[i])
  }

  function DigitChar(d: nat): (c: char)
    requires d < 10
    ensures IsDigit(c) && c as int - '0' as int == d
  {
    ('0' as int + d) as char
  }

  function DigitValue(c: char): nat
    requires IsDigit(c)
  {
    c as int - '0' as int
  }

  /** str(n) for n >= 0: at least one digit, and no leading zero unless n is 0. */
  function NatToString(n: nat): (s: string)
    ensures 1 <= |s| && AllDigits(s)
    ensures s[0] == '0' <==> n == 0
    ensures n < 10 ==> s == [DigitChar(n)]
    decreases n
  {
    if n < 10 then [DigitChar(n)] else NatToString(n / 10) + [DigitChar(n % 10)]
  }

  /** The number a string of decimal digits denotes. */
  function DigitsValue(s: string): nat
    requires AllDigits(s)
    decreases |s|
  {
    if s == [] then 0 else DigitsValue(s[..|s| - 1]) * 10 + DigitValue(s[|s| - 1])
  }

  lemma {:induction false} NatToStringRoundTrip(n: nat)
    ensures DigitsValue(NatToString(n)) == n
  {
    if n >= 10 {
      var s := NatToString(n);
      assert s[..|s| - 1] == NatToString(n / 10);
      NatToStringRoundTrip(n / 10);
    }
  }

  /** The separator between width and height in the size readout. */
  const SEPARATOR := " x "


  /** Index of the first space in s, or |s| if there is none. */
  function FirstSpace(s: string): (i: nat)
    ensures i <= |s|
    ensures forall j :: 0 <= j < i ==> s[j] != ' '
    ensures i < |s| ==> s[i] == ' '
  {
    if s == [] then 0 else if s[0] == ' ' then 0 else 1 + FirstSpace(s[1..])
  }

  /** Reads a size readout back: "<digits> x <digits>". */
  function ParseSizeText(t: string): Option<(nat, nat)> {
    var i := FirstSpace(t);
    if i + |SEPARATOR| <= |t| && t[i..i + |SEPARATOR|] == SEPARATOR
       && 0 < i && AllDigits(t[..i])
       && i + |SEPARATOR| < |t| && AllDigits(t[i + |SEPARATOR|..])
    then Some((DigitsValue(t[..i]), DigitsValue(t[i + |SEPARATOR|..])))
    else None
  }

  lemma {:induction false} FirstSpaceAfterDigits(a: string, rest: string)
    requires AllDigits(a)
    ensures FirstSpace(a + rest) == |a| + FirstSpace(rest)
    decreases |a|
  {
    if a == [] {
      assert a + rest == rest;
    } else {
      assert (a + rest)[0] == a[0] != ' ';
      assert (a + rest)[1..] == a[1..] + rest;
      FirstSpaceAfterDigits(a[1..], rest);
    }
  }

  /**
    The size readout f"{w} x {h}" drawn next to the selection: the reader
    recovers exactly the width and the height from it.
   */
  function SizeText(width: nat, height: nat): (t: string)
    ensures ParseSizeText(t) == Some((width, height))
  {
    var w, h := NatToString(width), NatToString(height);
    var t := w + SEPARATOR + h;
    assert t == w + (SEPARATOR + h);
    FirstSpaceAfterDigits(w, SEPARATOR + h);
    assert FirstSpace(t) == |w|;
    assert t[..|w|] == w;
    assert t[|w|..|w| + |SEPARATOR|] == SEPARATOR;
    assert t[|w| + |SEPARATOR|..] == h;
    NatToStringRoundTrip(width);
    NatToStringRoundTrip(height);
    t
  }

  /** Different sizes are never shown with the same readout. */
  lemma SizeTextInjective(w1: nat, h1: nat, w2: nat, h2: nat)
    requires SizeText(w1, h1) == SizeText(w2, h2)
    ensures w1 == w2 && h1 == h2
  {
    assert ParseSizeText(SizeText(w1, h1)) == Some((w1, h1));
    assert ParseSizeText(SizeText(w2, h2)) == Some((w2, h2));
  }
}
