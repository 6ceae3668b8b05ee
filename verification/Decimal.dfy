/** Decimal printing of natural numbers, as Go's "%d" verb does it, and reading the digits back. */
module Decimal {

  predicate IsDigit(c: char) {
    '0' <= c <= '9'
  }

  predicate AllDigits(s: string) {
    forall i :: 0 <= i < |s| ==> IsDigit(s[i])
  }

  function DigitChar(d: nat): (c: char)
    requires d < 10
    ensures IsDigit(c) && c as int - '0' as int == d
  {
    (d + '0' as int) as char
  }

  /** The shortest decimal form: "0" for zero, no leading zeros otherwise. */
  function Print(n: nat): (s: string)
    ensures AllDigits(s) && |s| > 0
  {
    if n < 10 then [DigitChar(n)] else Print(n / 10) + [DigitChar(n % 10)]
  }

  /** The number a digit string stands for; leading zeros do not matter. */
  function Read(s: string): (n: nat)
    requires AllDigits(s)
  {
    if s == "" then 0
    else 10 * Read(s[..|s| - 1]) + (s[|s| - 1] as int - '0' as int)
  }

  function Pow10(k: nat): (p: nat)
    ensures p > 0
  {
    if k == 0 then 1 else 10 * Pow10(k - 1)
  }

  function Zeros(k: nat): (s: string)
    ensures |s| == k && AllDigits(s)
  {
    if k == 0 then "" else Zeros(k - 1) + "0"
  }

  /** Go's "%0<width>d" verb for a number that is not negative. */
  function PrintPadded(n: nat, width: nat): (s: string)
    ensures AllDigits(s)
  {
    var d := Print(n);
    if |d| >= width then d else Zeros(width - |d|) + d
  }

  lemma {:induction false} ReadPrint(n: nat)
    ensures Read(Print(n)) == n
  {
    if n >= 10 {
      ReadPrint(n / 10);
      assert Print(n)[..|Print(n)| - 1] == Print(n / 10);
    }
  }

  lemma PrintInjective(m: nat, n: nat)
    requires Print(m) == Print(n)
    ensures m == n
  {
    ReadPrint(m);
    ReadPrint(n);
  }

  /** A number below a power of ten needs no more digits than the exponent. */
  lemma {:induction false} PrintLength(n: nat, k: nat)
    requires k > 0 && n < Pow10(k)
    ensures |Print(n)| <= k
  {
    if n >= 10 {
      assert Pow10(1) == 10;
      PrintLength(n / 10, k - 1);
    }
  }

  lemma {:induction false} ReadLeadingZeros(k: nat, s: string)
    requires AllDigits(s)
    ensures AllDigits(Zeros(k) + s) && Read(Zeros(k) + s) == Read(s)
  {
    var z := Zeros(k) + s;
    if s != "" {
      ReadLeadingZeros(k, s[..|s| - 1]);
      assert z[..|z| - 1] == Zeros(k) + s[..|s| - 1];
    } else {
      assert z == Zeros(k);
      if k > 0 {
        ReadLeadingZeros(k - 1, "");
        assert Zeros(k - 1) + "" == Zeros(k - 1);
        assert z[..|z| - 1] == Zeros(k - 1);
      }
    }
  }

  lemma PaddedForm(n: nat, width: nat)
    requires width > 0 && n < Pow10(width)
    ensures |PrintPadded(n, width)| == width
    ensures Read(PrintPadded(n, width)) == n
  {
    PrintLength(n, width);
    ReadPrint(n);
    ReadLeadingZeros(width - |Print(n)|, Print(n));
  }

  /** Digits in front of a separator that is not a digit can be read off unambiguously. */
  lemma SplitAtSeparator(d1: string, d2: string, sep: char, t1: string, t2: string)
    requires AllDigits(d1) && AllDigits(d2) && !IsDigit(sep)
    requires d1 + [sep] + t1 == d2 + [sep] + t2
    ensures d1 == d2 && t1 == t2
  {
    var a, b := d1 + [sep] + t1, d2 + [sep] + t2;
    assert a[|d1|] == sep && b[|d2|] == sep;
    assert |d1| == |d2|;
    assert d1 == a[..|d1|] == b[..|d2|] == d2;
    assert t1 == a[|d1| + 1..] == b[|d2| + 1..] == t2;
  }
}
