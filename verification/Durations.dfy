/** Eight-character durations and five-character sizes. */
module Durations {
  import opened Wrappers
  import opened Digits

  const MICROSECOND: nat := 1_000
  const MILLISECOND: nat := 1_000_000
  const SECOND: nat := 1_000_000_000
  const MINUTE: nat := 60_000_000_000
  const HOUR: nat := 3_600_000_000_000
  const DAY: nat := 86_400_000_000_000

  // The formats 000.00µs and 000.00ms, 00m00.0s, 00d00:00 and 0000d00h.

  /** Three digits; a negative number shows in full, behind the padding. */
  function WholeText(n: int): string {
    if n < 0 then "00" + DecimalInt(n) else Fixed(n, 3)
  }

  function Hundredths(thousandths: int): nat {
    if thousandths < 0 then 0 else thousandths / 10
  }

  function FractionText(whole: int, part: nat, unit: string): string {
    WholeText(whole) + "." + Fixed(part, 2) + unit
  }

  function MinutesText(m: nat, s: nat, tenths: nat): string {
    Fixed(m, 2) + "m" + Fixed(s, 2) + "." + Fixed(tenths, 1) + "s"
  }

  function DaysText(d: nat, h: nat, m: nat): string {
    Fixed(d, 2) + "d" + Fixed(h, 2) + ":" + Fixed(m, 2)
  }

  function ManyDaysText(d: nat, h: nat): string {
    Fixed(d, 4) + "d" + Fixed(h, 2) + "h"
  }

  // The text of a duration in each format.

  function Micros(d: int): string {
    FractionText(Quotient(Remainder(d, MILLISECOND), MICROSECOND), Hundredths(Remainder(d, MICROSECOND)), "µs")
  }

  function Millis(d: nat): string { FractionText(d / MILLISECOND, d % MILLISECOND / 10_000, "ms") }

  function Minutes(d: nat): string { MinutesText(d / MINUTE, d % MINUTE / SECOND, d % SECOND / 100_000_000) }

  function Days(d: nat): string { DaysText(d / DAY, d % DAY / HOUR, d % HOUR / MINUTE) }

  function ManyDays(d: nat): string { ManyDaysText(d / DAY, d % DAY / HOUR) }

  /** What shows of a duration in nanoseconds; durations are meant to be non-negative. */
  function DurationText(d: int): string {
    if d < MILLISECOND then Micros(d)
    else if d < SECOND then Millis(d)
    else if d < HOUR then Minutes(d)
    else if d < 100 * DAY then Days(d)
    else if d < 10_000 * DAY then ManyDays(d)
    else "TOO_LONG"
  }

  /** The precision of the format that a duration gets. */
  function Unit(d: nat): (u: nat)
    ensures u > 0
  {
    if d < MILLISECOND then 10
    else if d < SECOND then 10_000
    else if d < HOUR then 100_000_000
    else if d < 100 * DAY then MINUTE
    else HOUR
  }

  function Floor(d: nat, u: nat): nat
    requires u > 0
  {
    d - d % u
  }

  function RoundedDown(d: nat): nat { Floor(d, Unit(d)) }

  /** A duration given in three units. */
  function Sum(a: nat, u: nat, b: nat, v: nat, c: nat, w: nat): nat {
    a * u + b * v + c * w
  }

  function Number(s: string): nat {
    if IsNumeral(s) then Value(s) else 0
  }

  /** Reads a text by its format: the places of the letters tell which one it is. */
  function ReadDuration(s: string): Option<nat> {
    if |s| != 8 then None
    else if s[6..] == "µs" then Some(Sum(Number(s[..3]), MICROSECOND, Number(s[4..6]), 10, 0, 0))
    else if s[6..] == "ms" then Some(Sum(Number(s[..3]), MILLISECOND, Number(s[4..6]), 10_000, 0, 0))
    else if s[2] == 'm' then
      Some(Sum(Number(s[..2]), MINUTE, Number(s[3..5]), SECOND, Number(s[6..7]), 100_000_000))
    else if s[2] == 'd' then Some(Sum(Number(s[..2]), DAY, Number(s[3..5]), HOUR, Number(s[6..]), MINUTE))
    else if s[4] == 'd' then Some(Sum(Number(s[..4]), DAY, Number(s[5..7]), HOUR, 0, 0))
    else None
  }

  /** The negative durations that show in eight columns all the same. */
  predicate ShowsAsZero(d: int) {
    d < 0 && -d % MILLISECOND < MICROSECOND
  }

  lemma NegativeMicros(d: int)
    requires d < 0
    ensures Hundredths(Remainder(d, MICROSECOND)) == 0
    ensures var whole := Quotient(Remainder(d, MILLISECOND), MICROSECOND);
            whole <= 0 && (whole == 0 <==> ShowsAsZero(d))
  {
    assert Quotient(Remainder(d, MILLISECOND), MICROSECOND) == -(-d % MILLISECOND / MICROSECOND);
  }

  lemma NegativeText(d: int)
    requires d < 0
    ensures if ShowsAsZero(d) then Micros(d) == FractionText(0, 0, "µs") else |Micros(d)| > 8
  {
    NegativeMicros(d);
    var whole := Quotient(Remainder(d, MILLISECOND), MICROSECOND);
    assert whole < 0 ==> |WholeText(whole)| >= 4;
  }

  /** A duration that is not negative or shows as zero takes eight columns, and any other one more. */
  lemma EightWideIff(d: int)
    ensures |DurationText(d)| >= 8
    ensures |DurationText(d)| == 8 <==> d >= 0 || ShowsAsZero(d)
  {
    if d < 0 {
      NegativeText(d);
    } else if d < MILLISECOND {
      PositiveMicros(d);
    }
  }

  lemma PositiveMicros(d: nat)
    requires d < MILLISECOND
    ensures Micros(d) == FractionText(d / MICROSECOND, d % MICROSECOND / 10, "µs")
  {
    assert Remainder(d, MILLISECOND) == d;
  }

  lemma Reads(n: nat, w: nat)
    requires n < Pow10(w)
    ensures Number(Fixed(n, w)) == n && IsNumeral(Fixed(n, w))
  {
    FixedReadsBack(n, w);
  }

  lemma Reads1(n: nat)
    requires n < 10
    ensures Number(Fixed(n, 1)) == n && IsNumeral(Fixed(n, 1))
  {
    assert Pow10(1) == 10;
    Reads(n, 1);
  }

  lemma Reads2(n: nat)
    requires n < 100
    ensures Number(Fixed(n, 2)) == n && IsNumeral(Fixed(n, 2))
  {
    assert Pow10(2) == 100;
    Reads(n, 2);
  }

  lemma Reads3(n: nat)
    requires n < 1_000
    ensures Number(Fixed(n, 3)) == n && IsNumeral(Fixed(n, 3))
  {
    assert Pow10(3) == 1_000;
    Reads(n, 3);
  }

  lemma Reads4(n: nat)
    requires n < 10_000
    ensures Number(Fixed(n, 4)) == n && IsNumeral(Fixed(n, 4))
  {
    assert Pow10(2) == 100 && Pow10(4) == 10_000;
    Reads(n, 4);
  }

  // Reading the pieces of each format, whatever numerals they are.

  lemma PiecesOfFraction(a: string, b: string, unit: string)
    requires |a| == 3 && |b| == 2 && (unit == "µs" || unit == "ms")
    ensures ReadDuration(a + "." + b + unit) ==
            Some(if unit == "µs" then Sum(Number(a), MICROSECOND, Number(b), 10, 0, 0)
                 else Sum(Number(a), MILLISECOND, Number(b), 10_000, 0, 0))
  {
    var s := a + "." + b + unit;
    assert s[..3] == a && s[4..6] == b && s[6..] == unit;
    assert "µs"[0] != "ms"[0];
  }

  lemma PiecesOfMinutes(a: string, b: string, c: string)
    requires |a| == 2 && |b| == 2 && |c| == 1 && IsNumeral(c)
    ensures ReadDuration(a + "m" + b + "." + c + "s") ==
            Some(Sum(Number(a), MINUTE, Number(b), SECOND, Number(c), 100_000_000))
  {
    var s := a + "m" + b + "." + c + "s";
    assert s[..2] == a && s[2] == 'm' && s[3..5] == b && s[6..7] == c && s[6..][0] == c[0];
  }

  lemma PiecesOfDays(a: string, b: string, c: string)
    requires |a| == 2 && |b| == 2 && |c| == 2 && IsNumeral(c)
    ensures ReadDuration(a + "d" + b + ":" + c) == Some(Sum(Number(a), DAY, Number(b), HOUR, Number(c), MINUTE))
  {
    var s := a + "d" + b + ":" + c;
    assert s[..2] == a && s[2] == 'd' && s[3..5] == b && s[6..] == c && s[6..][0] == c[0];
  }

  lemma PiecesOfManyDays(a: string, b: string)
    requires |a| == 4 && |b| == 2 && IsNumeral(a)
    ensures ReadDuration(a + "d" + b + "h") == Some(Sum(Number(a), DAY, Number(b), HOUR, 0, 0))
  {
    var s := a + "d" + b + "h";
    assert s[..4] == a && s[2] == a[2] && s[4] == 'd' && s[5..7] == b && s[6..][1] == 'h';
  }

  lemma ReadsFraction(whole: nat, part: nat, unit: string)
    requires whole < 1_000 && part < 100 && (unit == "µs" || unit == "ms")
    ensures ReadDuration(FractionText(whole, part, unit)) ==
            Some(if unit == "µs" then Sum(whole, MICROSECOND, part, 10, 0, 0)
                 else Sum(whole, MILLISECOND, part, 10_000, 0, 0))
  {
    Reads3(whole);
    Reads2(part);
    PiecesOfFraction(Fixed(whole, 3), Fixed(part, 2), unit);
  }

  lemma ReadsMinutes(m: nat, s: nat, tenths: nat)
    requires m < 100 && s < 100 && tenths < 10
    ensures ReadDuration(MinutesText(m, s, tenths)) == Some(Sum(m, MINUTE, s, SECOND, tenths, 100_000_000))
  {
    Reads2(m);
    Reads2(s);
    Reads1(tenths);
    PiecesOfMinutes(Fixed(m, 2), Fixed(s, 2), Fixed(tenths, 1));
  }

  lemma ReadsDays(d: nat, h: nat, m: nat)
    requires d < 100 && h < 100 && m < 100
    ensures ReadDuration(DaysText(d, h, m)) == Some(Sum(d, DAY, h, HOUR, m, MINUTE))
  {
    Reads2(d);
    Reads2(h);
    Reads2(m);
    PiecesOfDays(Fixed(d, 2), Fixed(h, 2), Fixed(m, 2));
  }

  lemma ReadsManyDays(d: nat, h: nat)
    requires d < 10_000 && h < 100
    ensures ReadDuration(ManyDaysText(d, h)) == Some(Sum(d, DAY, h, HOUR, 0, 0))
  {
    Reads4(d);
    Reads2(h);
    PiecesOfManyDays(Fixed(d, 4), Fixed(h, 2));
  }

  // Splitting a duration into units of which one is a multiple of the next.

  lemma RemainderIs(d: int, b: int, q: int, r: int)
    requires d == q * b + r && 0 <= r < b
    ensures d % b == r
  {
    var e := q - d / b;
    assert e >= 1 ==> e * b >= b;
    assert e <= -1 ==> e * b <= -b;
    assert e * b == d % b - r;
  }

  lemma Split(d: nat, a: nat, b: nat, k: nat)
    requires b > 0 && k > 0 && a == k * b
    ensures d / a * a + d % a / b * b == d - d % b
  {
    var q, r := d / a, d % a;
    var p, s := r / b, r % b;
    assert d == (k * q + p) * b + s;
    RemainderIs(d, b, k * q + p, s);
  }

  lemma FractionAddsUp(d: nat, u: nat, v: nat, k: nat)
    requires v > 0 && k > 0 && u == k * v
    ensures Sum(d / u, u, d % u / v, v, 0, 0) == Floor(d, v)
  {
    Split(d, u, v, k);
  }

  lemma MinutesAddUp(d: nat)
    ensures Sum(d / MINUTE, MINUTE, d % MINUTE / SECOND, SECOND, d % SECOND / 100_000_000, 100_000_000)
         == Floor(d, 100_000_000)
  {
    Split(d, MINUTE, SECOND, 60);
    Split(d, SECOND, 100_000_000, 10);
    assert d / SECOND * SECOND == d - d % SECOND;
  }

  lemma DaysAddUp(d: nat)
    ensures Sum(d / DAY, DAY, d % DAY / HOUR, HOUR, d % HOUR / MINUTE, MINUTE) == Floor(d, MINUTE)
  {
    Split(d, DAY, HOUR, 24);
    Split(d, HOUR, MINUTE, 60);
    assert d / HOUR * HOUR == d - d % HOUR;
  }

  lemma ReadsBackMicros(d: nat)
    requires d < MILLISECOND
    ensures ReadDuration(Micros(d)) == Some(Floor(d, 10))
  {
    FractionAddsUp(d, MICROSECOND, 10, 100);
    PositiveMicros(d);
    ReadsFraction(d / MICROSECOND, d % MICROSECOND / 10, "µs");
  }

  lemma ReadsBackMillis(d: nat)
    requires MILLISECOND <= d < SECOND
    ensures ReadDuration(Millis(d)) == Some(Floor(d, 10_000))
  {
    FractionAddsUp(d, MILLISECOND, 10_000, 100);
    ReadsFraction(d / MILLISECOND, d % MILLISECOND / 10_000, "ms");
  }

  lemma ReadsBackMinutes(d: nat)
    requires SECOND <= d < HOUR
    ensures ReadDuration(Minutes(d)) == Some(Floor(d, 100_000_000))
  {
    MinutesAddUp(d);
    MinuteParts(d);
    TenthParts(d);
    ReadsMinutes(d / MINUTE, d % MINUTE / SECOND, d % SECOND / 100_000_000);
  }

  lemma ReadsBackDays(d: nat)
    requires HOUR <= d < 100 * DAY
    ensures ReadDuration(Days(d)) == Some(Floor(d, MINUTE))
  {
    DaysAddUp(d);
    HourParts(d);
    DayNumber(d);
    ReadsDays(d / DAY, d % DAY / HOUR, d % HOUR / MINUTE);
  }

  lemma ReadsBackManyDays(d: nat)
    requires 100 * DAY <= d < 10_000 * DAY
    ensures ReadDuration(ManyDays(d)) == Some(Floor(d, HOUR))
  {
    FractionAddsUp(d, DAY, HOUR, 24);
    HourParts(d);
    DayNumber(d);
    ReadsManyDays(d / DAY, d % DAY / HOUR);
  }

  /**
   Reading a rendered duration back gives it rounded down to the unit of its format; a negative one
   reads as zero or not at all.
   */
  lemma DurationReadsBack(d: int)
    ensures ReadDuration(DurationText(d)) ==
            if 0 <= d < 10_000 * DAY then Some(RoundedDown(d)) else if ShowsAsZero(d) then Some(0) else None
  {
    if d < 0 {
      NegativeText(d);
      ReadsFraction(0, 0, "µs");
    } else if d < MILLISECOND {
      ReadsBackMicros(d);
    } else if d < SECOND {
      ReadsBackMillis(d);
    } else if d < HOUR {
      ReadsBackMinutes(d);
    } else if d < 100 * DAY {
      ReadsBackDays(d);
    } else if d < 10_000 * DAY {
      ReadsBackManyDays(d);
    } else {
      assert "TOO_LONG"[6..][0] == 'N';
    }
  }

  lemma Scales(p: int, q: int, u: int)
    requires u > 0
    ensures p <= q ==> p * u <= q * u
  {
  }

  lemma FloorMonotone(c: int, d: int, u: int)
    requires c <= d && u > 0
    ensures c - c % u <= d - d % u
  {
    var p, q := c / u, d / u;
    Scales(p, q, u);
    Scales(q + 1, p, u);
    assert c == p * u + c % u && d == q * u + d % u;
  }

  /** The shortest duration that gets the format of this one. */
  function Shortest(d: nat): nat {
    if d < MILLISECOND then 0
    else if d < SECOND then MILLISECOND
    else if d < HOUR then SECOND
    else if d < 100 * DAY then HOUR
    else 100 * DAY
  }

  lemma RoundedDownMonotone(c: nat, d: nat)
    requires c <= d
    ensures RoundedDown(c) <= RoundedDown(d)
  {
    if c >= Shortest(d) {
      assert Unit(c) == Unit(d);
      FloorMonotone(c, d, Unit(d));
    } else {
      assert Shortest(d) % Unit(d) == 0;
      FloorMonotone(Shortest(d), d, Unit(d));
    }
  }

  /** Rendered durations order as the durations do, and two look alike only when they round to the same. */
  lemma DurationMonotone(c: nat, d: nat)
    requires c <= d < 10_000 * DAY
    ensures match (ReadDuration(DurationText(c)), ReadDuration(DurationText(d)))
            case (Some(m), Some(n)) => m <= n
            case _ => false
    ensures DurationText(c) == DurationText(d) ==> RoundedDown(c) == RoundedDown(d)
  {
    DurationReadsBack(c);
    DurationReadsBack(d);
    RoundedDownMonotone(c, d);
  }

  // ----- writing a duration; colours differ between the writes but take no room

  /** How many zeros pad a number to three digits. */
  function Zeros3(n: int): string {
    if n < 10 then "00" else if n < 100 then "0" else ""
  }

  lemma WholeTextIs(n: int)
    requires n < 1000
    ensures WholeText(n) == Zeros3(n) + DecimalInt(n)
  {
    if n >= 0 {
      Padded3(n);
    }
  }

  method WritePadded3(b: Buffer, n: int)
    requires n < 1000
    modifies b
    ensures b.text == old(b.text) + WholeText(n)
  {
    WholeTextIs(n);
    if n < 100 {
      b.WriteString("0");
    }
    if n < 10 {
      b.WriteString("0");
    }
    assert b.text == old(b.text) + Zeros3(n);
    Regroup(old(b.text), Zeros3(n), DecimalInt(n));
    if n == 0 {
      b.WriteString("0");
    } else {
      b.WriteString(DecimalInt(n));
    }
  }

  method WritePadded2(b: Buffer, n: nat)
    requires n < 100
    modifies b
    ensures b.text == old(b.text) + Fixed(n, 2)
  {
    Padded2(n);
    if n < 10 {
      b.WriteString("0");
    }
    if n > 0 {
      b.WriteString(Decimal(n));
    } else {
      b.WriteString("0");
    }
  }

  /** The two digits of a fraction given in thousandths. */
  method WriteHundredths(b: Buffer, n: int)
    requires n < 1000
    modifies b
    ensures b.text == old(b.text) + Fixed(Hundredths(n), 2)
  {
    Padded2(Hundredths(n));
    if n < 100 {
      b.WriteString("0");
    }
    if n < 10 {
      b.WriteString("0");
    } else {
      b.WriteString(Decimal(n / 10));
    }
  }

  method WriteTenths(b: Buffer, n: nat)
    requires n < 1000
    modifies b
    ensures b.text == old(b.text) + Fixed(n / 100, 1)
  {
    assert Fixed(n / 100, 1) == Fixed(n / 100 / 10, 0) + [Digit(n / 100 % 10)];
    if n >= 100 {
      b.WriteString(Decimal(n / 100));
    } else {
      b.WriteString("0");
    }
  }

  method WriteDays(b: Buffer, day: nat)
    requires 100 <= day < 10_000
    modifies b
    ensures b.text == old(b.text) + Fixed(day, 4)
  {
    Padded4(day);
    if day < 1000 {
      b.WriteString("0");
    }
    b.WriteString(Decimal(day));
  }

  method RenderFraction(b: Buffer, whole: int, thousandths: int, unit: string)
    requires whole < 1000 && thousandths < 1000
    modifies b
    ensures b.text == old(b.text) + FractionText(whole, Hundredths(thousandths), unit)
  {
    WritePadded3(b, whole);
    b.WriteString(".");
    WriteHundredths(b, thousandths);
    b.WriteString(unit);
    RegroupFour(old(b.text), WholeText(whole), ".", Fixed(Hundredths(thousandths), 2), unit);
  }

  method RenderMinutes(b: Buffer, min: nat, sec: nat, ms: nat)
    requires min < 100 && sec < 100 && ms < 1000
    modifies b
    ensures b.text == old(b.text) + MinutesText(min, sec, ms / 100)
  {
    WritePadded2(b, min);
    b.WriteString("m");
    WritePadded2(b, sec);
    b.WriteString(".");
    WriteTenths(b, ms);
    b.WriteString("s");
  }

  method RenderDays(b: Buffer, day: nat, h: nat, min: nat)
    requires day < 100 && h < 100 && min < 100
    modifies b
    ensures b.text == old(b.text) + DaysText(day, h, min)
  {
    WritePadded2(b, day);
    b.WriteString("d");
    WritePadded2(b, h);
    b.WriteString(":");
    WritePadded2(b, min);
  }

  method RenderManyDays(b: Buffer, day: nat, h: nat)
    requires 100 <= day < 10_000 && h < 100
    modifies b
    ensures b.text == old(b.text) + ManyDaysText(day, h)
  {
    WriteDays(b, day);
    b.WriteString("d");
    WritePadded2(b, h);
    b.WriteString("h");
  }

  // The parts as the code computes them are those of the format.

  lemma MicrosecondParts(d: int)
    requires d < MILLISECOND
    ensures Quotient(Remainder(d, MILLISECOND), MICROSECOND) < 1000 && Remainder(d, MICROSECOND) < 1000
  {
  }

  lemma MillisecondParts(d: nat)
    requires MILLISECOND <= d < SECOND
    ensures d % SECOND / MILLISECOND < 1000 && d % MILLISECOND / MICROSECOND < 1000
    ensures FractionText(d % SECOND / MILLISECOND, Hundredths(d % MILLISECOND / MICROSECOND), "ms") == Millis(d)
  {
    assert d % SECOND == d;
    assert d % MILLISECOND / MICROSECOND / 10 == d % MILLISECOND / 10_000;
  }

  lemma MinuteParts(d: nat)
    requires SECOND <= d < HOUR
    ensures d % HOUR / MINUTE == d / MINUTE < 100 && d % MINUTE / SECOND < 100
  {
  }

  lemma TenthParts(d: nat)
    ensures d % SECOND / 100_000_000 < 10
    ensures d % SECOND / MILLISECOND < 1000 && d % SECOND / MILLISECOND / 100 == d % SECOND / 100_000_000
  {
  }

  lemma HourParts(d: nat)
    ensures d % DAY / HOUR < 100 && d % HOUR / MINUTE < 100
  {
  }

  lemma DayNumber(d: nat)
    ensures d < 100 * DAY ==> d / DAY < 100
    ensures 100 * DAY <= d < 10_000 * DAY ==> 100 <= d / DAY < 10_000
  {
  }

  method RenderMicros(b: Buffer, d: int)
    requires d < MILLISECOND
    modifies b
    ensures b.text == old(b.text) + Micros(d)
  {
    MicrosecondParts(d);
    RenderFraction(b, Quotient(Remainder(d, MILLISECOND), MICROSECOND), Remainder(d, MICROSECOND), "µs");
  }

  method RenderSubHour(b: Buffer, d: nat)
    requires SECOND <= d < HOUR
    modifies b
    ensures b.text == old(b.text) + Minutes(d)
  {
    MinuteParts(d);
    TenthParts(d);
    RenderMinutes(b, d % HOUR / MINUTE, d % MINUTE / SECOND, d % SECOND / MILLISECOND);
  }

  method RenderLong(b: Buffer, d: nat)
    requires HOUR <= d < 10_000 * DAY
    modifies b
    ensures b.text == old(b.text) + if d < 100 * DAY then Days(d) else ManyDays(d)
  {
    HourParts(d);
    DayNumber(d);
    if d < 100 * DAY {
      RenderDays(b, d / DAY, d % DAY / HOUR, d % HOUR / MINUTE);
    } else {
      var day, rest := d / DAY, d % DAY;
      RenderManyDays(b, day, rest % DAY / HOUR);
    }
  }

  method RenderDuration(b: Buffer, d: int)
    modifies b
    ensures b.text == old(b.text) + DurationText(d)
  {
    if d < MILLISECOND {
      RenderMicros(b, d);
      return;
    }
    if d < SECOND {
      MillisecondParts(d);
      RenderFraction(b, d % SECOND / MILLISECOND, d % MILLISECOND / MICROSECOND, "ms");
      return;
    }
    if d < HOUR {
      RenderSubHour(b, d);
      return;
    }
    if d < 10_000 * DAY {
      RenderLong(b, d);
      return;
    }
    b.WriteString("TOO_LONG");
  }
}
