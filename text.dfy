/** Decimal numerals, zero padding, `str.join` and string repetition, as Python renders them. */
module Text {

  predicate IsDigit(c: char) { '0' <= c <= '9' }

  predicate AllDigits(s: string) { forall i :: 0 <= i < |s| ==> IsDigit(s[i]) }

  function DigitChar(d: nat): (c: char)
    requires d < 10
    ensures IsDigit(c)
  {
    (('0' as int) + d) as char
  }

  function DigitValue(c: char): (d: nat)
    requires IsDigit(c)
    ensures d < 10 && DigitChar(d) == c
  {
    (c as int) - ('0' as int)
  }

  /** The value of a decimal numeral. */
  function NumeralValue(s: string): nat
    requires AllDigits(s)
  {
    if s == [] then 0 else NumeralValue(s[..|s| - 1]) * 10 + DigitValue(s[|s| - 1])
  }

  /** `str(n)` for a non-negative integer: decimal, no leading zeros. */
  function NatToString(n: nat): (s: string)
    ensures |s| >= 1 && AllDigits(s)
    ensures |s| > 1 ==> s[0] != '0'
  {
    if n < 10 then [DigitChar(n)] else NatToString(n / 10) + [DigitChar(n % 10)]
  }

  /** Reading `str(n)` back as a numeral gives `n`. */
  lemma {:induction false} NatToStringValue(n: nat)
    ensures NumeralValue(NatToString(n)) == n
  {
    if n >= 10 {
      var s := NatToString(n);
      assert s[..|s| - 1] == NatToString(n / 10);
      NatToStringValue(n / 10);
    }
  }

  /** No string occurs twice in the list. */
  predicate Distinct(names: seq<string>)
  {
    forall i, j :: 0 <= i < j < |names| ==> names[i] != names[j]
  }

  /** Distinct integers have distinct renderings. */
  lemma NatToStringInjective(a: nat, b: nat)
    requires NatToString(a) == NatToString(b)
    ensures a == b
  {
    NatToStringValue(a);
    NatToStringValue(b);
  }

  /** Two digits, zero-padded, for `%m`, `%d`, `%H`, `%M` and `%S`. */
  function Pad2(n: nat): (s: string)
    requires n < 100
    ensures |s| == 2 && AllDigits(s)
  {
    [DigitChar(n / 10), DigitChar(n % 10)]
  }

  /** Four digits, zero-padded, for `%Y`. */
  function Pad4(n: nat): (s: string)
    requires n < 10000
    ensures |s| == 4 && AllDigits(s)
  {
    Pad2(n / 100) + Pad2(n % 100)
  }

  /** A two- or four-digit numeral read positionally. */
  lemma NumeralValueFixed(s: string)
    requires AllDigits(s) && (|s| == 2 || |s| == 4)
    ensures |s| == 2 ==> NumeralValue(s) == DigitValue(s[0]) * 10 + DigitValue(s[1])
    ensures |s| == 4 ==> NumeralValue(s) == NumeralValue(s[..2]) * 100 + NumeralValue(s[2..])
  {
    var s1 := s[..1];
    assert s1[..0] == [];
    assert NumeralValue(s1) == DigitValue(s[0]);
    if |s| == 2 {
      assert s[..|s| - 1] == s1;
    } else {
      var s2, s3, t, t1 := s[..2], s[..3], s[2..], s[2..3];
      assert s2[..1] == s1 && s3[..2] == s2 && s[..|s| - 1] == s3;
      assert t[..1] == t1 && t1[..0] == [] && t[..|t| - 1] == t1;
      assert NumeralValue(s2) == DigitValue(s[0]) * 10 + DigitValue(s[1]);
      assert NumeralValue(t) == DigitValue(s[2]) * 10 + DigitValue(s[3]);
      assert NumeralValue(s3) == NumeralValue(s2) * 10 + DigitValue(s[2]);
    }
  }

  lemma Pad2RoundTrip(n: nat)
    requires n < 100
    ensures NumeralValue(Pad2(n)) == n
  {
    NumeralValueFixed(Pad2(n));
  }

  lemma Pad4RoundTrip(n: nat)
    requires n < 10000
    ensures NumeralValue(Pad4(n)) == n
  {
    var s := Pad4(n);
    NumeralValueFixed(s);
    assert s[..2] == Pad2(n / 100) && s[2..] == Pad2(n % 100);
    Pad2RoundTrip(n / 100);
    Pad2RoundTrip(n % 100);
  }

  /** A fixed-width numeral is the padded rendering of its value. */
  lemma PaddedNumeral(s: string)
    requires AllDigits(s) && (|s| == 2 || |s| == 4)
    ensures |s| == 2 ==> NumeralValue(s) < 100 && Pad2(NumeralValue(s)) == s
    ensures |s| == 4 ==> NumeralValue(s) < 10000 && Pad4(NumeralValue(s)) == s
  {
    NumeralValueFixed(s);
    if |s| == 4 {
      var hi, lo := s[..2], s[2..];
      PaddedNumeral(hi);
      PaddedNumeral(lo);
      var v := NumeralValue(s);
      assert v / 100 == NumeralValue(hi) && v % 100 == NumeralValue(lo);
      assert s == hi + lo;
    }
  }

  /** The parts joined into one string with `sep` between each two neighbours. */
  function Join(parts: seq<string>, sep: string): string
  {
    if |parts| == 0 then "" else if |parts| == 1 then parts[0] else parts[0] + sep + Join(parts[1..], sep)
  }

  /** `s * n`. */
  function Repeat(s: string, n: nat): (r: string)
    ensures |r| == |s| * n
  {
    if n == 0 then "" else s + Repeat(s, n - 1)
  }

  /** `s[:-2]`: the last two characters removed, or nothing left when there are fewer. */
  function DropLastTwo(s: string): (r: string)
    ensures |r| == if |s| >= 2 then |s| - 2 else 0
  {
    if |s| >= 2 then s[..|s| - 2] else ""
  }
}
