/** Decimal digits: reading a run of digit characters as a number and writing
    a number back as digits, shared by the date parser and the JSON text. */
module Digits {

  predicate IsDigit(c: char) { '0' <= c <= '9' }

  predicate AllDigits(s: string) {
    forall i :: 0 <= i < |s| ==> IsDigit(s[i])
  }

  function DigitValue(c: char): (v: nat)
    requires IsDigit(c)
    ensures v < 10
  {
    c as int - '0' as int
  }

  function DigitChar(n: nat): (c: char)
    requires n < 10
    ensures IsDigit(c) && DigitValue(c) == n
  {
    ('0' as int + n) as char
  }

  function Pow10(w: nat): (p: nat)
    ensures p >= 1
  {
    if w == 0 then 1 else 10 * Pow10(w - 1)
  }

  /** The value of a string of digits, most significant digit first. */
  function Number(s: string): nat
    requires AllDigits(s)
  {
    if s == [] then 0 else Number(s[..|s| - 1]) * 10 + DigitValue(s[|s| - 1])
  }

  /** The last `width` decimal digits of `n`, zero-padded (Python's `%0<width>d`
      for a value that fits the width). */
  function Pad(n: nat, width: nat): (s: string)
    ensures |s| == width && AllDigits(s)
  {
    if width == 0 then [] else Pad(n / 10, width - 1) + [DigitChar(n % 10)]
  }

  /** The shortest decimal rendering of `n` (Python's `str` of a non-negative int). */
  function NatText(n: nat): (s: string)
    ensures |s| >= 1 && AllDigits(s)
    ensures |s| == 1 || s[0] != '0'
  {
    if n < 10 then [DigitChar(n)] else NatText(n / 10) + [DigitChar(n % 10)]
  }

  lemma {:induction false} NumberBound(s: string)
    requires AllDigits(s)
    ensures Number(s) < Pow10(|s|)
  {
    if s != [] {
      NumberBound(s[..|s| - 1]);
    }
  }

  /** Padding a value that fits the width loses nothing. */
  lemma {:induction false} NumberOfPad(n: nat, width: nat)
    requires n < Pow10(width)
    ensures Number(Pad(n, width)) == n
  {
    if width > 0 {
      var s := Pad(n, width);
      assert s[..|s| - 1] == Pad(n / 10, width - 1);
      NumberOfPad(n / 10, width - 1);
    }
  }

  /** A digit string is the padding of its own value. */
  lemma {:induction false} PadOfNumber(s: string)
    requires AllDigits(s)
    ensures Pad(Number(s), |s|) == s
  {
    if s != [] {
      var init := s[..|s| - 1];
      var n := Number(s);
      assert n / 10 == Number(init) && n % 10 == DigitValue(s[|s| - 1]);
      PadOfNumber(init);
      assert DigitChar(n % 10) == s[|s| - 1];
    }
  }

  lemma {:induction false} NumberOfNatText(n: nat)
    ensures Number(NatText(n)) == n
  {
    if n >= 10 {
      var s := NatText(n);
      assert s[..|s| - 1] == NatText(n / 10);
      NumberOfNatText(n / 10);
    }
  }
}
