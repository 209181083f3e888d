/**
 * Positional numerals: the digits of a natural number in a base, the value of a digit
 * sequence, and the glyphs '0'..'9', 'A'..'F' that Kotlin's string templates and Java's
 * `%X` conversion print.
 */
module Numerals {
  import opened Wrappers

  /** The two bases this model prints numbers in. */
  type Radix = b: nat | b == 10 || b == 16 witness 10

  /** Division by a radix, spelled out per base so that the arithmetic stays linear. */
  lemma DivMod(n: nat, base: Radix)
    ensures n == (n / base) * base + n % base && n % base < base
    ensures n >= base ==> 1 <= n / base < n
  {
    if base == 10 {
      assert n == (n / 10) * 10 + n % 10;
    } else {
      assert n == (n / 16) * 16 + n % 16;
    }
  }

  /** All digits are smaller than the base. */
  predicate AllBelow(ds: seq<nat>, base: nat) {
    forall i :: 0 <= i < |ds| ==> ds[i] < base
  }

  /** A numeral without leading zeros ("0" itself is allowed). */
  predicate Canonical(ds: seq<nat>) {
    |ds| >= 1 && (|ds| > 1 ==> ds[0] != 0)
  }

  /** The value of a digit sequence read most significant digit first. */
  function Value(ds: seq<nat>, base: nat): nat {
    if ds == [] then 0 else Value(ds[..|ds| - 1], base) * base + ds[|ds| - 1]
  }

  /** The digits of `n` in `base`, most significant first. */
  function Digits(n: nat, base: Radix): (ds: seq<nat>)
    ensures Canonical(ds) && AllBelow(ds, base)
    decreases n
  {
    DivMod(n, base);
    if n < base then [n] else Digits(n / base, base) + [n % base]
  }

  lemma {:induction false} ValueOfDigits(n: nat, base: Radix)
    ensures Value(Digits(n, base), base) == n
    decreases n
  {
    if n >= base {
      var ds := Digits(n / base, base);
      DivMod(n, base);
      ValueOfDigits(n / base, base);
      assert (ds + [n % base])[..|ds|] == ds;
    }
  }

  lemma {:induction false} PositiveValue(ds: seq<nat>, base: nat)
    requires 2 <= base && |ds| >= 1 && ds[0] != 0
    ensures Value(ds, base) > 0
    decreases |ds|
  {
    if |ds| > 1 {
      PositiveValue(ds[..|ds| - 1], base);
    }
  }

  /** Every canonical numeral is the numeral of its own value. */
  lemma {:induction false} DigitsOfValue(ds: seq<nat>, base: Radix)
    requires Canonical(ds) && AllBelow(ds, base)
    ensures Digits(Value(ds, base), base) == ds
    decreases |ds|
  {
    if |ds| > 1 {
      var p := ds[..|ds| - 1];
      var x := ds[|ds| - 1];
      var v := Value(p, base);
      PositiveValue(p, base);
      DigitsOfValue(p, base);
      var n := Value(ds, base);
      assert n == v * base + x;
      assert x < base;
      QuotientUnique(n, base, v, x);
      DivMod(n, base);
      assert Digits(n, base) == Digits(v, base) + [x];
      assert ds == p + [x];
    }
  }

  lemma QuotientUnique(n: nat, base: Radix, q: nat, r: nat)
    requires n == q * base + r && r < base
    ensures n / base == q && n % base == r
  {
    if base == 10 {
      assert n == q * 10 + r;
    } else {
      assert n == q * 16 + r;
    }
  }

  /** `k` zero digits. */
  function ZeroDigits(k: nat): (zs: seq<nat>)
    ensures |zs| == k && forall i :: 0 <= i < k ==> zs[i] == 0
  {
    if k == 0 then [] else ZeroDigits(k - 1) + [0]
  }

  /** Leading zeros do not change the value of a numeral. */
  lemma {:induction false} LeadingZeros(k: nat, ds: seq<nat>, base: nat)
    ensures Value(ZeroDigits(k) + ds, base) == Value(ds, base)
    decreases |ds|
  {
    var zs := ZeroDigits(k);
    if ds == [] {
      ZerosValue(k, base);
      assert zs + ds == zs;
    } else {
      var p := ds[..|ds| - 1];
      LeadingZeros(k, p, base);
      assert (zs + ds)[..|zs + ds| - 1] == zs + p;
    }
  }

  lemma {:induction false} ZerosValue(k: nat, base: nat)
    ensures Value(ZeroDigits(k), base) == 0
  {
    if k > 0 {
      var zs := ZeroDigits(k);
      assert zs[..k - 1] == ZeroDigits(k - 1);
      ZerosValue(k - 1, base);
      assert Value(zs, base) == 0 * base + 0;
    }
  }

  function Pow(base: nat, k: nat): nat {
    if k == 0 then 1 else base * Pow(base, k - 1)
  }

  /** A number below base^k has at most k digits. */
  lemma {:induction false} DigitsLength(n: nat, base: Radix, k: nat)
    requires 1 <= k && n < Pow(base, k)
    ensures |Digits(n, base)| <= k
    decreases k
  {
    DivMod(n, base);
    if n >= base {
      assert k != 1;
      var m := Pow(base, k - 1);
      assert n < base * m;
      assert n / base < m;
      DigitsLength(n / base, base, k - 1);
    }
  }

  // ---- glyphs ----

  /** The upper-case glyph of a digit below sixteen. */
  function DigitChar(d: nat): (c: char)
    requires d < 16
  {
    if d < 10 then ('0' as int + d) as char else ('A' as int + d - 10) as char
  }

  predicate IsDecimalChar(c: char) { '0' <= c <= '9' }

  predicate IsUpperHexChar(c: char) { '0' <= c <= '9' || 'A' <= c <= 'F' }

  /** The digit an upper-case hexadecimal glyph stands for. */
  function CharDigit(c: char): (d: nat)
    requires IsUpperHexChar(c)
    ensures d < 16 && DigitChar(d) == c
  {
    if c <= '9' then c as int - '0' as int else c as int - 'A' as int + 10
  }

  function Glyphs(ds: seq<nat>): (s: string)
    requires AllBelow(ds, 16)
    ensures |s| == |ds|
    ensures forall i :: 0 <= i < |ds| ==> s[i] == DigitChar(ds[i])
  {
    seq(|ds|, i requires 0 <= i < |ds| => DigitChar(ds[i]))
  }

  function DigitsOf(s: string): (ds: seq<nat>)
    requires forall i :: 0 <= i < |s| ==> IsUpperHexChar(s[i])
    ensures |ds| == |s| && AllBelow(ds, 16)
    ensures forall i :: 0 <= i < |s| ==> ds[i] == CharDigit(s[i])
  {
    seq(|s|, i requires 0 <= i < |s| => CharDigit(s[i]))
  }

  lemma DigitsOfGlyphs(ds: seq<nat>)
    requires AllBelow(ds, 16)
    ensures DigitsOf(Glyphs(ds)) == ds
  {
    var s := Glyphs(ds);
    forall i | 0 <= i < |ds| ensures DigitsOf(s)[i] == ds[i] {
      assert DigitChar(CharDigit(s[i])) == DigitChar(ds[i]);
      if ds[i] < 10 {
        assert CharDigit(s[i]) < 10;
      }
    }
  }

  // ---- decimal ----

  /** The decimal numeral of a natural number, as Kotlin's string templates print it. */
  function Decimal(n: nat): (s: string)
    ensures |s| >= 1
    ensures forall i :: 0 <= i < |s| ==> IsDecimalChar(s[i])
    ensures |s| > 1 ==> s[0] != '0'
  {
    var ds := Digits(n, 10);
    assert forall i :: 0 <= i < |ds| ==> ds[i] < 10;
    Glyphs(ds)
  }

  /** The decimal numeral of an integer: a '-' sign before the magnitude when negative. */
  function DecimalInt(i: int): (s: string)
    ensures |s| >= 1
  {
    if i < 0 then "-" + Decimal(-i) else Decimal(i)
  }

  /** Reads a non-empty run of decimal glyphs. */
  function ParseDecimal(s: string): (r: Option<nat>)
  {
    if |s| >= 1 && forall i :: 0 <= i < |s| ==> IsDecimalChar(s[i])
    then Some(Value(DigitsOf(s), 10))
    else None
  }

  /** Reads an optionally '-'-signed decimal numeral. */
  function ParseDecimalInt(s: string): (r: Option<int>)
  {
    if |s| >= 1 && s[0] == '-' then
      match ParseDecimal(s[1..])
      case Some(n) => Some(0 - n)
      case None => None
    else
      match ParseDecimal(s)
      case Some(n) => Some(n)
      case None => None
  }

  lemma DecimalRoundTrip(n: nat)
    ensures ParseDecimal(Decimal(n)) == Some(n)
  {
    var ds := Digits(n, 10);
    DigitsOfGlyphs(ds);
    ValueOfDigits(n, 10);
  }

  lemma DecimalIntRoundTrip(i: int)
    ensures ParseDecimalInt(DecimalInt(i)) == Some(i)
  {
    if i < 0 {
      NegativeRoundTrip(i);
    } else {
      NonNegativeRoundTrip(i);
    }
  }

  lemma NegativeRoundTrip(i: int)
    requires i < 0
    ensures ParseDecimalInt(DecimalInt(i)) == Some(i)
  {
    var n: nat := -i;
    assert DecimalInt(i) == "-" + Decimal(n);
    SignedRoundTrip(n);
  }

  /** A '-' followed by the decimal numeral of `n` reads back as `-n`. */
  lemma SignedRoundTrip(n: nat)
    ensures ParseDecimalInt("-" + Decimal(n)) == Some(-(n as int))
  {
    var s := "-" + Decimal(n);
    assert s[0] == '-';
    assert s[1..] == Decimal(n);
    DecimalRoundTrip(n);
  }

  lemma NonNegativeRoundTrip(i: int)
    requires i >= 0
    ensures ParseDecimalInt(DecimalInt(i)) == Some(i)
  {
    assert DecimalInt(i) == Decimal(i);
    assert IsDecimalChar(Decimal(i)[0]);
    DecimalRoundTrip(i);
  }

  /** Distinct integers print as distinct numerals. */
  lemma DecimalIntInjective(a: int, b: int)
    requires DecimalInt(a) == DecimalInt(b)
    ensures a == b
  {
    DecimalIntRoundTrip(a);
    DecimalIntRoundTrip(b);
  }

  // ---- hexadecimal ----

  /** Reads a non-empty run of upper-case hexadecimal glyphs. */
  function ParseHex(s: string): (r: Option<nat>)
  {
    if |s| >= 1 && forall i :: 0 <= i < |s| ==> IsUpperHexChar(s[i])
    then Some(Value(DigitsOf(s), 16))
    else None
  }

  /** Upper-case hexadecimal numeral of `n`, left-padded with '0' to at least `width` glyphs. */
  function HexPadded(n: nat, width: nat): (s: string)
  {
    var ds := Digits(n, 16);
    var pad := if |ds| < width then width - |ds| else 0;
    ZeroGlyphs(pad) + Glyphs(ds)
  }

  /** `k` '0' glyphs. */
  function ZeroGlyphs(k: nat): (s: string)
    ensures |s| == k && forall i :: 0 <= i < k ==> s[i] == '0'
  {
    if k == 0 then "" else ZeroGlyphs(k - 1) + "0"
  }

  /** Reading zero glyphs and then the glyphs of `ds` gives zero digits and then `ds`. */
  lemma DigitsOfPadded(pad: nat, ds: seq<nat>)
    requires AllBelow(ds, 16)
    ensures var s := ZeroGlyphs(pad) + Glyphs(ds);
      && (forall i :: 0 <= i < |s| ==> IsUpperHexChar(s[i]))
      && DigitsOf(s) == ZeroDigits(pad) + ds
  {
    var s := ZeroGlyphs(pad) + Glyphs(ds);
    var zs := ZeroDigits(pad);
    DigitsOfGlyphs(ds);
    forall i | 0 <= i < |s| ensures IsUpperHexChar(s[i]) && DigitsOf(s)[i] == (zs + ds)[i] {
      if i < pad {
        assert s[i] == '0';
      } else {
        assert s[i] == Glyphs(ds)[i - pad];
      }
    }
  }

  lemma HexPaddedRoundTrip(n: nat, width: nat)
    ensures |HexPadded(n, width)| >= width
    ensures forall i :: 0 <= i < |HexPadded(n, width)| ==> IsUpperHexChar(HexPadded(n, width)[i])
    ensures ParseHex(HexPadded(n, width)) == Some(n)
  {
    var ds := Digits(n, 16);
    var pad := if |ds| < width then width - |ds| else 0;
    var s := ZeroGlyphs(pad) + Glyphs(ds);
    assert HexPadded(n, width) == s;
    DigitsOfPadded(pad, ds);
    LeadingZeros(pad, ds, 16);
    ValueOfDigits(n, 16);
    assert Value(DigitsOf(s), 16) == n;
  }

  /** With room for every digit, the padded numeral has exactly `width` glyphs. */
  lemma HexPaddedWidth(n: nat, width: nat)
    requires 1 <= width && n < Pow(16, width)
    ensures |HexPadded(n, width)| == width
  {
    DigitsLength(n, 16, width);
  }
}
