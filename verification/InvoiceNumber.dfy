/** `INV-{year}-{sequence}`, the sequence padded with zeros to five digits. */
module InvoiceNumber {
  import opened Basics

  const INVOICE_NUMBER_PREFIX := "INV"

  function Zeros(k: nat): (r: string)
    ensures |r| == k && forall i :: 0 <= i < k ==> r[i] == '0'
  {
    if k == 0 then "" else "0" + Zeros(k - 1)
  }

  /** `padStart(5, '0')`. */
  function PadStart5(s: string): string {
    if |s| < 5 then Zeros(5 - |s|) + s else s
  }

  function Format(year: nat, sequence: nat): string {
    INVOICE_NUMBER_PREFIX + "-" + Digits(year) + "-" + PadStart5(Digits(sequence))
  }

  /** The number a string of digits denotes; leading zeros count for nothing. */
  function Parse(s: string): nat
    requires forall i :: 0 <= i < |s| ==> IsDigit(s[i])
  {
    if s == "" then 0 else assert IsDigit(s[|s| - 1]); Parse(s[..|s| - 1]) * 10 + (s[|s| - 1] as int - '0' as int)
  }

  lemma {:induction false} ParseDigits(n: nat)
    ensures Parse(Digits(n)) == n
  {
    var s := Digits(n);
    if n < 10 {
      assert s[..|s| - 1] == "";
    } else {
      assert s[..|s| - 1] == Digits(n / 10);
      ParseDigits(n / 10);
    }
  }

  lemma {:induction false} ParsePadded(k: nat, s: string)
    requires forall i :: 0 <= i < |s| ==> IsDigit(s[i])
    ensures forall i :: 0 <= i < k + |s| ==> IsDigit((Zeros(k) + s)[i])
    ensures Parse(Zeros(k) + s) == Parse(s)
    decreases k + |s|
  {
    var padded := Zeros(k) + s;
    if s != "" {
      assert padded[..|padded| - 1] == Zeros(k) + s[..|s| - 1];
      ParsePadded(k, s[..|s| - 1]);
    } else if k > 0 {
      assert padded[..|padded| - 1] == Zeros(k - 1) + s by {
      }
      ParsePadded(k - 1, s);
    }
  }

  lemma PaddedDigits(n: nat)
    ensures forall i :: 0 <= i < |PadStart5(Digits(n))| ==> IsDigit(PadStart5(Digits(n))[i])
    ensures Parse(PadStart5(Digits(n))) == n
  {
    ParseDigits(n);
    if |Digits(n)| < 5 {
      ParsePadded(5 - |Digits(n)|, Digits(n));
    }
  }

  lemma {:induction false} DigitsWithin(n: nat, width: nat, power: nat)
    requires width >= 1 && power == Pow10(width)
    ensures |Digits(n)| <= width <==> n < power
    decreases width
  {
    assert power == 10 * Pow10(width - 1);
    if n >= 10 {
      assert |Digits(n)| == |Digits(n / 10)| + 1;
      if width > 1 { DigitsWithin(n / 10, width - 1, Pow10(width - 1)); }
    }
  }

  function Pow10(n: nat): (r: nat)
    ensures r >= 1
  {
    if n == 0 then 1 else 10 * Pow10(n - 1)
  }

  /** A sequence prints on five digits up to 99999, and on as many as it has from there on. */
  lemma SequenceWidth(n: nat)
    ensures |PadStart5(Digits(n))| == 5 <==> n <= 99_999
    ensures n > 99_999 ==> PadStart5(Digits(n)) == Digits(n)
  {
    assert Pow10(3) == 1000 && Pow10(5) == 100_000;
    DigitsWithin(n, 5, 100_000);
  }

  /** What is printed: the prefix, the year and the padded sequence, each to be read back as it was. */
  lemma FormatReadsBack(year: nat, sequence: nat) returns (first: string, second: string)
    ensures Format(year, sequence) == "INV-" + first + "-" + second
    ensures forall i :: 0 <= i < |first| ==> IsDigit(first[i])
    ensures forall i :: 0 <= i < |second| ==> IsDigit(second[i])
    ensures Parse(first) == year && Parse(second) == sequence
    ensures |second| == 5 <==> sequence <= 99_999
  {
    first, second := Digits(year), PadStart5(Digits(sequence));
    ParseDigits(year);
    PaddedDigits(sequence);
    SequenceWidth(sequence);
    assert INVOICE_NUMBER_PREFIX + "-" == "INV-";
  }

  /** A digit string ends where the next hyphen stands, so both parts can be read back. */
  lemma SplitAtHyphen(a: string, b: string, c: string, d: string)
    requires forall i :: 0 <= i < |a| ==> IsDigit(a[i])
    requires forall i :: 0 <= i < |c| ==> IsDigit(c[i])
    requires a + "-" + b == c + "-" + d
    ensures a == c && b == d
  {
    var left, right := a + "-" + b, c + "-" + d;
    assert left[|a|] == '-' && forall i :: 0 <= i < |a| ==> IsDigit(left[i]);
    assert right[|c|] == '-' && forall i :: 0 <= i < |c| ==> IsDigit(right[i]);
    assert |a| == |c|;
    assert a == left[..|a|] == c;
    assert b == left[|a| + 1..] == d;
  }

  /** Distinct years or sequence numbers print distinct invoice numbers, past 99999 as well. */
  lemma FormatInjective(year: nat, sequence: nat, otherYear: nat, otherSequence: nat)
    requires Format(year, sequence) == Format(otherYear, otherSequence)
    ensures year == otherYear && sequence == otherSequence
  {
    var a, b := Digits(year), PadStart5(Digits(sequence));
    var c, d := Digits(otherYear), PadStart5(Digits(otherSequence));
    var head := INVOICE_NUMBER_PREFIX + "-";
    assert Format(year, sequence) == head + (a + "-" + b);
    assert Format(otherYear, otherSequence) == head + (c + "-" + d);
    assert a + "-" + b == Format(year, sequence)[|head|..] == c + "-" + d;
    SplitAtHyphen(a, b, c, d);
    ParseDigits(year);
    ParseDigits(otherYear);
    PaddedDigits(sequence);
    PaddedDigits(otherSequence);
  }
}
