/** Decimal numerals, plain and of a fixed width, and the buffer that renderers write to. */
module Digits {
  import opened Wrappers

  function Digit(d: nat): char
    requires d < 10
  {
    ('0' as int + d) as char
  }

  /** The numeral that %d prints for a non-negative number. */
  function Decimal(n: nat): string {
    if n < 10 then [Digit(n)] else Decimal(n / 10) + [Digit(n % 10)]
  }

  const MAX_INT64: int := 0x7FFF_FFFF_FFFF_FFFF

  type Int64 = n: int | -MAX_INT64 - 1 <= n <= MAX_INT64

  // Go's integer division and remainder: the quotient is cut towards zero.

  function Quotient(a: int, b: nat): int
    requires b > 0
  {
    if a < 0 then -(-a / b) else a / b
  }

  function Remainder(a: int, b: nat): int
    requires b > 0
  {
    if a < 0 then -(-a % b) else a % b
  }

  function DecimalInt(n: int): string {
    if n < 0 then "-" + Decimal(-n) else Decimal(n)
  }

  /** The last `w` digits of a number, with leading zeros. */
  function Fixed(n: nat, w: nat): (s: string)
    ensures |s| == w
    ensures forall i | 0 <= i < w :: '0' <= s[i] <= '9'
  {
    if w == 0 then "" else Fixed(n / 10, w - 1) + [Digit(n % 10)]
  }

  predicate IsNumeral(s: string) {
    forall i | 0 <= i < |s| :: '0' <= s[i] <= '9'
  }

  function Value(s: string): nat
    requires IsNumeral(s)
  {
    if s == "" then 0 else 10 * Value(s[..|s| - 1]) + (s[|s| - 1] as int - '0' as int)
  }

  function Pow10(w: nat): nat {
    if w == 0 then 1 else 10 * Pow10(w - 1)
  }

  lemma {:induction false} FixedReadsBack(n: nat, w: nat)
    requires n < Pow10(w)
    ensures Value(Fixed(n, w)) == n
  {
    if w == 0 {
    } else {
      FixedReadsBack(n / 10, w - 1);
      assert Fixed(n, w)[..w - 1] == Fixed(n / 10, w - 1);
    }
  }

  lemma {:induction false} FixedOfShorter(n: nat, w: nat)
    requires n < Pow10(w)
    ensures Fixed(n, w + 1) == "0" + Fixed(n, w)
  {
    if w == 0 {
    } else {
      FixedOfShorter(n / 10, w - 1);
    }
  }

  lemma {:induction false} DecimalIsFixed(n: nat, w: nat)
    requires w > 0 && n < Pow10(w) && (w > 1 ==> Pow10(w - 1) <= n)
    ensures Decimal(n) == Fixed(n, w)
  {
    if w == 1 {
      assert Fixed(n, 1) == Fixed(n / 10, 0) + [Digit(n % 10)];
    } else {
      DecimalIsFixed(n / 10, w - 1);
    }
  }

  /** A numeral of at most two digits and its padding. */
  lemma Padded2(n: nat)
    requires n < 100
    ensures Fixed(n, 2) == if n < 10 then "0" + Decimal(n) else Decimal(n)
  {
    assert Pow10(1) == 10 && Pow10(2) == 100;
    DecimalIsFixed(n, if n < 10 then 1 else 2);
    if n < 10 {
      FixedOfShorter(n, 1);
    }
  }

  lemma Padded3(n: nat)
    requires n < 1000
    ensures Fixed(n, 3) == if n < 10 then "00" + Decimal(n) else if n < 100 then "0" + Decimal(n) else Decimal(n)
  {
    assert Pow10(2) == 100 && Pow10(3) == 1000;
    if n < 100 {
      Padded2(n);
      FixedOfShorter(n, 2);
    } else {
      DecimalIsFixed(n, 3);
    }
  }

  lemma Padded4(n: nat)
    requires n < 10000
    ensures Fixed(n, 4) == if n < 10 then "000" + Decimal(n)
                           else if n < 100 then "00" + Decimal(n)
                           else if n < 1000 then "0" + Decimal(n) else Decimal(n)
  {
    assert Pow10(3) == 1000 && Pow10(4) == 10000;
    if n < 1000 {
      Padded3(n);
      FixedOfShorter(n, 3);
    } else {
      DecimalIsFixed(n, 4);
    }
  }

  /** Reading a numeral back gives its number. */
  lemma {:induction false} DecimalReadsBack(n: nat)
    ensures Decimal(n) != "" && IsNumeral(Decimal(n)) && Value(Decimal(n)) == n
  {
    if n < 10 {
      assert Value([Digit(n)][..0]) == 0;
    } else {
      DecimalReadsBack(n / 10);
      var s := Decimal(n);
      assert s[..|s| - 1] == Decimal(n / 10);
    }
  }

  /** strconv.ParseInt in base ten. */
  function ParseInt64(s: string): Option<Int64> {
    var negative := s != "" && s[0] == '-';
    var digits := if s != "" && (s[0] == '-' || s[0] == '+') then s[1..] else s;
    if digits == "" || !IsNumeral(digits) then None
    else
      var n: int := Value(digits) * (if negative then -1 else 1);
      if -MAX_INT64 - 1 <= n <= MAX_INT64 then Some(n) else None
  }

  predicate InRange(n: int) { -MAX_INT64 - 1 <= n <= MAX_INT64 }

  lemma ParseDigits(s: string)
    requires s != "" && IsNumeral(s)
    ensures var n: int := Value(s);
            && ParseInt64(s) == (if InRange(n) then Some(n) else None)
            && ParseInt64("-" + s) == (if InRange(-n) then Some(-n) else None)
    ensures ParseInt64("+" + s) == ParseInt64(s)
  {
    assert s[0] != '-' && s[0] != '+';
    assert ("-" + s)[1..] == s && ("+" + s)[1..] == s;
  }

  /** What %d prints of a number is parsed as that number, unless it is out of range. */
  lemma ParseReadsBack(n: int)
    ensures ParseInt64(DecimalInt(n)) == if InRange(n) then Some(n) else None
  {
    var m := if n < 0 then -n else n;
    DecimalReadsBack(m);
    ParseDigits(Decimal(m));
  }

  /** Anything but digits behind an optional sign is refused. */
  lemma ParseTakesDigits(s: string)
    ensures ParseInt64(s).Some? ==>
              exists t | t == s || s == "-" + t || s == "+" + t :: t != "" && IsNumeral(t)
  {
    if ParseInt64(s).Some? {
      if s[0] == '-' || s[0] == '+' {
        assert s == [s[0]] + s[1..];
      }
    }
  }

  /** A byte buffer, seen as the characters that show. */
  class Buffer {
    var text: string

    constructor ()
      ensures text == ""
    {
      text := "";
    }

    method WriteString(s: string)
      modifies this
      ensures text == old(text) + s
    {
      text := text + s;
    }
  }
}
