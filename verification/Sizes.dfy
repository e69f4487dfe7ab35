/** Byte counts scaled by 1024 to four digits and a suffix. */
module Sizes {
  import opened Wrappers
  import opened Digits

  const K: nat := 1024
  const SUFFIXES: string := "BKMGTPE"

  function PowK(i: nat): (p: nat)
    ensures p > 0
  {
    if i == 0 then 1 else K * PowK(i - 1)
  }

  /** How often a count is divided, and what is left. */
  function Exponent(n: nat): nat {
    if n > 9999 then 1 + Exponent(n / K) else 0
  }

  function Scaled(n: nat): (q: nat)
    ensures q <= 9999
  {
    if n > 9999 then Scaled(n / K) else n
  }

  lemma TimesK(q: nat, p: nat)
    ensures q * (K * p) == K * (q * p)
  {
  }

  /** The scaled count is the count in units of its suffix, rounded down. */
  lemma {:induction false} ScaledIsQuotient(n: nat)
    ensures Scaled(n) * PowK(Exponent(n)) <= n < (Scaled(n) + 1) * PowK(Exponent(n))
    ensures Exponent(n) > 0 ==> Scaled(n) >= 9
  {
    if n <= 9999 {
    } else {
      var m := n / K;
      ScaledIsQuotient(m);
      var q, p := Scaled(m), PowK(Exponent(m));
      TimesK(q, p);
      TimesK(q + 1, p);
    }
  }

  /** The suffix is the smallest that leaves at most four digits. */
  lemma {:induction false} ExponentIsLeast(n: nat, j: nat)
    ensures n < 10_000 * PowK(j) <==> Exponent(n) <= j
  {
    if n <= 9999 || j == 0 {
    } else {
      ExponentIsLeast(n / K, j - 1);
      assert PowK(j) == K * PowK(j - 1);
    }
  }

  lemma Int64Fits(n: nat)
    requires n <= MAX_INT64
    ensures Exponent(n) <= 5
  {
    ExponentIsLeast(n, 5);
    assert PowK(3) == K * (K * (K * 1));
    assert PowK(5) == K * (K * PowK(3)) == 0x4_0000_0000_0000;
  }

  /** Larger counts show as larger: first by suffix, then by digits. */
  lemma {:induction false} SizeMonotone(m: nat, n: nat)
    requires m <= n
    ensures Exponent(m) < Exponent(n) || (Exponent(m) == Exponent(n) && Scaled(m) <= Scaled(n))
  {
    if m <= 9999 {
    } else {
      SizeMonotone(m / K, n / K);
    }
  }

  /** Four digits; a negative number shows in full, behind the padding. */
  function WideText(n: int): string {
    if n < 0 then "000" + DecimalInt(n) else Fixed(n, 4)
  }

  /** Counts are meant to be non-negative; another one shows in full, behind the padding. */
  function SizeText(n: Int64): string {
    if n < 0 then WideText(n) + "B"
    else
      Int64Fits(n);
      WideText(Scaled(n)) + [SUFFIXES[Exponent(n)]]
  }

  /** A size that is not negative takes five columns, and any other one more. */
  lemma FiveWideIff(n: Int64)
    ensures |SizeText(n)| >= 5
    ensures |SizeText(n)| == 5 <==> n >= 0
  {
    assert n < 0 ==> |DecimalInt(n)| >= 2;
  }

  /** What a suffix stands for. */
  function UnitOf(c: char): nat {
    match c
    case 'B' => 1
    case 'K' => 0x400
    case 'M' => 0x10_0000
    case 'G' => 0x4000_0000
    case 'T' => 0x100_0000_0000
    case 'P' => 0x4_0000_0000_0000
    case _ => 0
  }

  /** The text says that the count is between its number and the next, in its unit. */
  predicate ReadsAsSize(s: string, n: int) {
    && |s| == 5 && IsNumeral(s[..4]) && UnitOf(s[4]) > 0
    && Value(s[..4]) * UnitOf(s[4]) <= n < (Value(s[..4]) + 1) * UnitOf(s[4])
    && (s[4] != 'B' ==> Value(s[..4]) >= 9)
  }

  lemma SuffixIsPower(i: nat)
    requires i <= 5
    ensures UnitOf(SUFFIXES[i]) == PowK(i) && (SUFFIXES[i] == 'B' <==> i == 0)
  {
    assert PowK(1) == K && PowK(2) == K * PowK(1) && PowK(3) == K * PowK(2);
    assert PowK(4) == K * PowK(3) && PowK(5) == K * PowK(4);
  }

  /** A rendered count reads as what it is, in units of 1, 1024 and so on. */
  lemma SizeReads(n: Int64)
    requires n >= 0
    ensures ReadsAsSize(SizeText(n), n)
  {
    Int64Fits(n);
    SuffixIsPower(Exponent(n));
    SizeReadsBack(n, Exponent(n));
    ScaledIsQuotient(n);
    assert SizeText(n)[..4] == Fixed(Scaled(n), 4);
  }

  /** The text has five characters and tells the suffix and the scaled count. */
  lemma SizeReadsBack(n: nat, i: nat)
    requires n <= MAX_INT64 && i < |SUFFIXES|
    ensures |SizeText(n)| == 5
    ensures Value(SizeText(n)[..4]) == Scaled(n)
    ensures SizeText(n)[4] == SUFFIXES[i] <==> Exponent(n) == i
  {
    Int64Fits(n);
    assert Pow10(2) == 100 && Pow10(4) == 10_000;
    FixedReadsBack(Scaled(n), 4);
    assert SizeText(n)[..4] == Fixed(Scaled(n), 4);
  }

  /** How many zeros pad a number to four digits. */
  function Zeros4(n: int): string {
    if n < 10 then "000" else if n < 100 then "00" else if n < 1000 then "0" else ""
  }

  lemma WideTextIs(n: int)
    requires n <= 9999
    ensures WideText(n) == Zeros4(n) + DecimalInt(n)
  {
    if n >= 0 {
      Padded4(n);
    }
  }

  method WritePadded4(b: Buffer, n: int)
    requires n <= 9999
    modifies b
    ensures b.text == old(b.text) + WideText(n)
  {
    WideTextIs(n);
    if n < 1000 {
      b.WriteString("0");
    }
    if n < 100 {
      b.WriteString("0");
    }
    if n < 10 {
      b.WriteString("0");
    }
    assert b.text == old(b.text) + Zeros4(n);
    Regroup(old(b.text), Zeros4(n), DecimalInt(n));
    if n == 0 {
      b.WriteString("0");
    } else {
      b.WriteString(DecimalInt(n));
    }
  }

  method HumanizeBytes(b: Buffer, n: Int64)
    modifies b
    ensures b.text == old(b.text) + SizeText(n)
  {
    var n': int, i: nat := n, 0;
    if n >= 0 {
      Int64Fits(n);
    }
    while n' > 9999
      invariant n < 0 ==> n' == n && i == 0
      invariant n >= 0 ==> n' >= 0 && Scaled(n') == Scaled(n) && i + Exponent(n') == Exponent(n)
    {
      n' := Quotient(n', K);
      i := i + 1;
    }
    WritePadded4(b, n');
    b.WriteString([SUFFIXES[i]]);
  }
}
