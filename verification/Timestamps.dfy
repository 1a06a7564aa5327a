/**
 * Timestamps in the one form the server stamps (src/api/models.rs): UTC, milliseconds, fixed
 * width, final `Z`.  Queues are ordered by these strings, so their order must be that of time.
 */
module Timestamps {
  import opened Prelude

  // ---- The calendar --------------------------------------------------------------------------------

  predicate IsLeap(y: nat) { y % 4 == 0 && (y % 100 != 0 || y % 400 == 0) }

  function YearLength(y: nat): nat { if IsLeap(y) then 366 else 365 }

  function MonthLength(y: nat, m: nat): nat
    requires 1 <= m <= 12
  {
    if m == 2 then (if IsLeap(y) then 29 else 28)
    else if m == 4 || m == 6 || m == 9 || m == 11 then 30
    else 31
  }

  function DaysBeforeYear(y: nat): nat {
    if y == 0 then 0 else DaysBeforeYear(y - 1) + YearLength(y - 1)
  }

  function DaysBeforeMonth(y: nat, m: nat): nat
    requires 1 <= m <= 12
  {
    if m == 1 then 0 else DaysBeforeMonth(y, m - 1) + MonthLength(y, m - 1)
  }

  datatype Instant = Instant(year: nat, month: nat, day: nat, hour: nat, minute: nat, second: nat, milli: nat) {
    predicate Valid() {
      && year <= 9999 && 1 <= month <= 12 && 1 <= day <= MonthLength(year, month)
      && hour < 24 && minute < 60 && second < 60 && milli < 1000
    }

    /** Days since the first of January of year 0. */
    function Day(): nat
      requires Valid()
    {
      DaysBeforeYear(year) + DaysBeforeMonth(year, month) + day - 1
    }

    /** Milliseconds since the first of January of year 0. */
    function Millis(): nat
      requires Valid()
    {
      (((Day() * 24 + hour) * 60 + minute) * 60 + second) * 1000 + milli
    }
  }

  // ---- The text ------------------------------------------------------------------------------------

  /** The last `width` decimal digits of `n`. */
  function Pad(n: nat, width: nat): (s: string)
    ensures |s| == width
  {
    if width == 0 then "" else Pad(n / 10, width - 1) + [DigitChar(n % 10)]
  }

  function TextOfMillis(t: Instant): string { Pad(t.milli, 3) + "Z" }
  function TextOfSeconds(t: Instant): string { Pad(t.second, 2) + "." + TextOfMillis(t) }
  function TextOfMinutes(t: Instant): string { Pad(t.minute, 2) + ":" + TextOfSeconds(t) }
  function TextOfHours(t: Instant): string { Pad(t.hour, 2) + ":" + TextOfMinutes(t) }
  function TextOfDay(t: Instant): string { Pad(t.day, 2) + "T" + TextOfHours(t) }
  function TextOfMonth(t: Instant): string { Pad(t.month, 2) + "-" + TextOfDay(t) }

  /** `to_rfc3339_opts(SecondsFormat::Millis, true)`: YYYY-MM-DDTHH:MM:SS.mmmZ */
  function Render(t: Instant): string { Pad(t.year, 4) + "-" + TextOfMonth(t) }

  // ---- Order of fixed-width text -------------------------------------------------------------------

  lemma {:induction false} LessOfConcat(a: string, b: string, x: string, y: string)
    requires |a| == |b|
    ensures Less(a + x, b + y) <==> Less(a, b) || (a == b && Less(x, y))
  {
    if a == "" {
      assert a + x == x && b + y == y;
    } else {
      LessOfConcat(a[1..], b[1..], x, y);
      assert (a + x)[1..] == a[1..] + x && (b + y)[1..] == b[1..] + y;
      assert a == b <==> a[0] == b[0] && a[1..] == b[1..];
    }
  }

  lemma {:induction false} PadOrder(m: nat, n: nat, w: nat)
    requires m < Pow10(w) && n < Pow10(w)
    ensures Less(Pad(m, w), Pad(n, w)) <==> m < n
    ensures Pad(m, w) == Pad(n, w) <==> m == n
  {
    if w > 0 {
      PadOrder(m / 10, n / 10, w - 1);
      var a, b := Pad(m / 10, w - 1), Pad(n / 10, w - 1);
      var c, d := DigitChar(m % 10), DigitChar(n % 10);
      LessOfConcat(a, b, [c], [d]);
      assert (a + [c])[..w - 1] == a && (b + [d])[..w - 1] == b;
      assert (a + [c])[w - 1] == c && (b + [d])[w - 1] == d;
      LessOfOne(c, d);
    }
  }

  lemma LessOfOne(c: char, d: char)
    ensures Less([c], [d]) <==> c < d
  {
    assert Less([c][1..], [d][1..]) ==> false;
  }

  /** A field decides; if it is equal on both sides, what follows the separator decides. */
  lemma FieldOrder(m: nat, n: nat, w: nat, separator: string, x: string, y: string)
    requires m < Pow10(w) && n < Pow10(w)
    ensures Less(Pad(m, w) + separator + x, Pad(n, w) + separator + y) <==> m < n || (m == n && Less(x, y))
  {
    hide *;
    PadOrder(m, n, w);
    LessOfConcat(Pad(m, w) + separator, Pad(n, w) + separator, x, y);
    LessOfConcat(Pad(m, w), Pad(n, w), separator, separator);
    LessIsIrreflexive(separator);
    var a, b := Pad(m, w), Pad(n, w);
    assert (a + separator)[..w] == a && (b + separator)[..w] == b;
  }

  // ---- Order of instants ---------------------------------------------------------------------------

  predicate SameDay(a: Instant, b: Instant) { a.year == b.year && a.month == b.month && a.day == b.day }

  predicate EarlierDay(a: Instant, b: Instant) {
    a.year < b.year || (a.year == b.year && (a.month < b.month || (a.month == b.month && a.day < b.day)))
  }

  predicate EarlierTime(a: Instant, b: Instant) {
    a.hour < b.hour || (a.hour == b.hour && (a.minute < b.minute || (a.minute == b.minute
      && (a.second < b.second || (a.second == b.second && a.milli < b.milli)))))
  }

  lemma {:induction false} YearsAdvance(y: nat, z: nat)
    requires y < z
    ensures DaysBeforeYear(y) + YearLength(y) <= DaysBeforeYear(z)
  {
    if y < z - 1 { YearsAdvance(y, z - 1); }
  }

  lemma {:induction false} MonthsAdvance(y: nat, m: nat, n: nat)
    requires 1 <= m < n <= 12
    ensures DaysBeforeMonth(y, m) + MonthLength(y, m) <= DaysBeforeMonth(y, n)
  {
    if m < n - 1 { MonthsAdvance(y, m, n - 1); }
  }

  lemma MonthsFillTheYear(y: nat, m: nat)
    requires 1 <= m <= 12
    ensures DaysBeforeMonth(y, m) + MonthLength(y, m) <= YearLength(y)
  {
    assert DaysBeforeMonth(y, 2) == 31 && DaysBeforeMonth(y, 3) == 31 + MonthLength(y, 2);
    assert DaysBeforeMonth(y, 5) == DaysBeforeMonth(y, 4) + 30 == DaysBeforeMonth(y, 3) + 61;
    assert DaysBeforeMonth(y, 7) == DaysBeforeMonth(y, 6) + 30 == DaysBeforeMonth(y, 5) + 61;
    assert DaysBeforeMonth(y, 9) == DaysBeforeMonth(y, 8) + 31 == DaysBeforeMonth(y, 7) + 62;
    assert DaysBeforeMonth(y, 11) == DaysBeforeMonth(y, 10) + 31 == DaysBeforeMonth(y, 9) + 61;
    assert DaysBeforeMonth(y, 12) == DaysBeforeMonth(y, 11) + 30;
    if m < 12 { MonthsAdvance(y, m, 12); }
  }

  lemma EarlierDayHasSmallerNumber(a: Instant, b: Instant)
    requires a.Valid() && b.Valid() && EarlierDay(a, b)
    ensures a.Day() < b.Day()
  {
    MonthsFillTheYear(a.year, a.month);
    if a.year < b.year {
      YearsAdvance(a.year, b.year);
    } else if a.month < b.month {
      MonthsAdvance(a.year, a.month, b.month);
    }
  }

  lemma DayOrder(a: Instant, b: Instant)
    requires a.Valid() && b.Valid()
    ensures a.Day() < b.Day() <==> EarlierDay(a, b)
    ensures a.Day() == b.Day() <==> SameDay(a, b)
  {
    if EarlierDay(a, b) { EarlierDayHasSmallerNumber(a, b); }
    if EarlierDay(b, a) { EarlierDayHasSmallerNumber(b, a); }
  }

  lemma MillisOrder(a: Instant, b: Instant)
    requires a.Valid() && b.Valid()
    ensures a.Millis() < b.Millis() <==> EarlierDay(a, b) || (SameDay(a, b) && EarlierTime(a, b))
    ensures a.Millis() == b.Millis() <==> a == b
  {
    DayOrder(a, b);
    hide EarlierDay, SameDay, Instant.Day;
  }

  lemma TextOrderOfTime(a: Instant, b: Instant)
    requires a.Valid() && b.Valid()
    ensures Less(TextOfHours(a), TextOfHours(b)) <==> EarlierTime(a, b)
  {
    assert Pow10(1) == 10 && Pow10(2) == 100 && Pow10(3) == 1000;
    LessIsIrreflexive("Z");
    hide Less, Pad, Pow10;
    FieldOrder(a.hour, b.hour, 2, ":", TextOfMinutes(a), TextOfMinutes(b));
    FieldOrder(a.minute, b.minute, 2, ":", TextOfSeconds(a), TextOfSeconds(b));
    FieldOrder(a.second, b.second, 2, ".", TextOfMillis(a), TextOfMillis(b));
    LessOfConcat(Pad(a.milli, 3), Pad(b.milli, 3), "Z", "Z");
    PadOrder(a.milli, b.milli, 3);
  }

  /** Stamps sort as strings exactly as the instants sort in time, for every year from 0000 to 9999. */
  lemma StampsSortInTime(a: Instant, b: Instant)
    requires a.Valid() && b.Valid()
    ensures Less(Render(a), Render(b)) <==> a.Millis() < b.Millis()
    ensures Render(a) == Render(b) <==> a == b
  {
    TextOrder(a, b);
    TextOrder(b, a);
    MillisOrder(a, b);
    MillisOrder(b, a);
    LessIsIrreflexive(Render(a));
    hide *;
  }

  lemma TextOrder(a: Instant, b: Instant)
    requires a.Valid() && b.Valid()
    ensures Less(Render(a), Render(b)) <==> EarlierDay(a, b) || (SameDay(a, b) && EarlierTime(a, b))
  {
    assert Pow10(1) == 10 && Pow10(2) == 100 && Pow10(3) == 1000 && Pow10(4) == 10000;
    TextOrderOfTime(a, b);
    hide Less, Pad, Pow10, TextOfHours, EarlierTime;
    FieldOrder(a.year, b.year, 4, "-", TextOfMonth(a), TextOfMonth(b));
    FieldOrder(a.month, b.month, 2, "-", TextOfDay(a), TextOfDay(b));
    FieldOrder(a.day, b.day, 2, "T", TextOfHours(a), TextOfHours(b));
  }

  lemma StampsHaveFixedWidth(t: Instant)
    ensures |Render(t)| == 24
  {
  }
}
