/** What a stamp says: which characters hold which field, and which day and millisecond that is. */
module StampAnswers {
  import opened Prelude
  import opened Timestamps
  import Money
  import Backfill

  // ---- Reading a stamp -------------------------------------------------------------------------------

  predicate IsNumber(s: string, from: nat, to: nat)
    requires from <= to <= |s|
  {
    Money.AllDigits(s[from..to])
  }

  function Number(s: string, from: nat, to: nat): nat
    requires from <= to <= |s| && IsNumber(s, from, to)
  {
    Money.Value(s[from..to])
  }

  /** YYYY-MM-DDTHH:MM:SS.mmmZ, every field at its place. */
  predicate IsStamp(s: string) {
    && |s| == 24
    && s[4] == '-' && s[7] == '-' && s[10] == 'T' && s[13] == ':' && s[16] == ':' && s[19] == '.' && s[23] == 'Z'
    && IsNumber(s, 0, 4) && IsNumber(s, 5, 7) && IsNumber(s, 8, 10) && IsNumber(s, 11, 13) && IsNumber(s, 14, 16)
    && IsNumber(s, 17, 19) && IsNumber(s, 20, 23)
  }

  function ReadStamp(s: string): Option<Instant> {
    if IsStamp(s)
    then Some(Instant(Number(s, 0, 4), Number(s, 5, 7), Number(s, 8, 10), Number(s, 11, 13), Number(s, 14, 16),
                      Number(s, 17, 19), Number(s, 20, 23)))
    else None
  }

  lemma {:induction false} PadReads(n: nat, w: nat)
    requires n < Pow10(w)
    ensures Money.AllDigits(Pad(n, w)) && Money.Value(Pad(n, w)) == n
  {
    if w > 0 {
      PadReads(n / 10, w - 1);
      var s := Pad(n, w);
      assert s[..w - 1] == Pad(n / 10, w - 1) && s[w - 1] == DigitChar(n % 10);
      assert forall i :: 0 <= i < w - 1 ==> s[i] == Pad(n / 10, w - 1)[i];
    }
  }

  lemma {:induction false} PadOfValue(s: string)
    requires Money.AllDigits(s)
    ensures Money.Value(s) < Pow10(|s|) && Pad(Money.Value(s), |s|) == s
  {
    if s != "" {
      var t := s[..|s| - 1];
      PadOfValue(t);
      assert Money.Value(s) / 10 == Money.Value(t);
      assert DigitChar(Money.Value(s) % 10) == s[|s| - 1];
      assert s == t + [s[|s| - 1]];
    }
  }

  /** The fields of a stamp, one after the other. */
  lemma FieldsOf(t: Instant)
    ensures var s := Render(t);
      && |s| == 24
      && s[4] == '-' && s[7] == '-' && s[10] == 'T' && s[13] == ':' && s[16] == ':' && s[19] == '.' && s[23] == 'Z'
      && s[..4] == Pad(t.year, 4) && s[5..7] == Pad(t.month, 2) && s[8..10] == Pad(t.day, 2)
      && s[11..13] == Pad(t.hour, 2) && s[14..16] == Pad(t.minute, 2) && s[17..19] == Pad(t.second, 2)
      && s[20..23] == Pad(t.milli, 3)
  {
    hide Pad;
    var m, h := TextOfMonth(t), TextOfHours(t);
    TimeFields(t);
    Cut(Pad(t.year, 4), "-", m);
    Cut(Pad(t.month, 2), "-", TextOfDay(t));
    Cut(Pad(t.day, 2), "T", h);
    hide TextOfMonth, TextOfDay, TextOfHours;
    var s := Render(t);
    assert s[5..7] == m[..2] && s[7] == m[2] && s[8..] == m[3..];
    var d := TextOfDay(t);
    assert s[8..10] == d[..2] && s[10] == d[2] && s[11..] == d[3..];
    assert s[11..13] == h[..2] && s[14..16] == h[3..5] && s[17..19] == h[6..8] && s[20..23] == h[9..12];
    assert s[13] == h[2] && s[16] == h[5] && s[19] == h[8] && s[23] == h[12];
  }

  lemma Cut(field: string, separator: string, rest: string)
    requires |separator| == 1
    ensures var s := field + separator + rest;
      && s[..|field|] == field && s[|field|] == separator[0] && s[|field| + 1..] == rest
      && |s| == |field| + 1 + |rest|
  {}

  lemma TimeFields(t: Instant)
    ensures var h := TextOfHours(t);
      && |h| == 13 && h[2] == ':' && h[5] == ':' && h[8] == '.' && h[12] == 'Z'
      && h[..2] == Pad(t.hour, 2) && h[3..5] == Pad(t.minute, 2) && h[6..8] == Pad(t.second, 2)
      && h[9..12] == Pad(t.milli, 3)
  {
    hide Pad;
    var h, m, s := TextOfHours(t), TextOfMinutes(t), TextOfSeconds(t);
    Cut(Pad(t.hour, 2), ":", m);
    Cut(Pad(t.minute, 2), ":", s);
    Cut(Pad(t.second, 2), ".", TextOfMillis(t));
    Cut(Pad(t.milli, 3), "Z", "");
    assert TextOfMillis(t) == Pad(t.milli, 3) + "Z" + "";
    var z := TextOfMillis(t);
    hide TextOfHours, TextOfMinutes, TextOfSeconds, TextOfMillis;
    assert h[3..] == m && m[3..] == s && s[3..] == z;
    assert h[3..5] == m[..2] && h[6..8] == s[..2] && h[9..12] == z[..3];
  }

  lemma FieldReads(s: string, from: nat, to: nat, n: nat, w: nat)
    requires from <= to <= |s| && s[from..to] == Pad(n, w) && n < Pow10(w)
    ensures IsNumber(s, from, to) && Number(s, from, to) == n
  {
    PadReads(n, w);
  }

  lemma Powers()
    ensures Pow10(2) == 100 && Pow10(3) == 1000 && Pow10(4) == 10000
  {
    assert Pow10(1) == 10;
  }

  /** What is stamped is read back, field by field. */
  lemma StampsReadBack(t: Instant)
    requires t.Valid()
    ensures ReadStamp(Render(t)) == Some(t)
  {
    FieldsOf(t);
    Powers();
    assert t.month < 100 && t.day < 100 by { assert MonthLength(t.year, t.month) <= 31; }
    hide Render, Pad, IsNumber, Number, Pow10;
    var s := Render(t);
    assert s[0..4] == s[..4];
    FieldReads(s, 0, 4, t.year, 4);
    FieldReads(s, 5, 7, t.month, 2);
    FieldReads(s, 8, 10, t.day, 2);
    FieldReads(s, 11, 13, t.hour, 2);
    FieldReads(s, 14, 16, t.minute, 2);
    FieldReads(s, 17, 19, t.second, 2);
    FieldReads(s, 20, 23, t.milli, 3);
  }

  /** And whatever reads as an instant is exactly how the server writes that instant. */
  lemma OnlyStampsAreRead(s: string)
    requires ReadStamp(s).Some?
    ensures Render(ReadStamp(s).value) == s
  {
    var t := ReadStamp(s).value;
    FieldsOf(t);
    PadOfValue(s[0..4]);
    PadOfValue(s[5..7]);
    PadOfValue(s[8..10]);
    PadOfValue(s[11..13]);
    PadOfValue(s[14..16]);
    PadOfValue(s[17..19]);
    PadOfValue(s[20..23]);
    hide Render, Pad, Money.Value, Money.AllDigits;
    var r := Render(t);
    assert s[0..4] == s[..4];
    Pieces(r);
    Pieces(s);
  }

  lemma Pieces(s: string)
    requires |s| == 24
    ensures s == s[..4] + [s[4]] + s[5..7] + [s[7]] + s[8..10] + [s[10]] + s[11..13] + [s[13]] + s[14..16] + [s[16]]
                 + s[17..19] + [s[19]] + s[20..23] + [s[23]]
  {}

  // ---- The calendar ----------------------------------------------------------------------------------

  lemma Quarters(x: nat)
    ensures (x + 4) / 4 == (x + 3) / 4 + if x % 4 == 0 then 1 else 0
    ensures (x + 400 + 3) / 4 == (x + 3) / 4 + 100
  {}

  lemma Centuries(x: nat)
    ensures (x + 100) / 100 == (x + 99) / 100 + if x % 100 == 0 then 1 else 0
    ensures (x + 400 + 99) / 100 == (x + 99) / 100 + 4
  {}

  lemma Cycles(x: nat)
    ensures (x + 400) / 400 == (x + 399) / 400 + if x % 400 == 0 then 1 else 0
    ensures (x + 400 + 399) / 400 == (x + 399) / 400 + 1
  {}

  lemma CenturiesAreQuarters(x: nat)
    requires x % 100 == 0
    ensures x % 4 == 0
  {
    var n := 25 * (x / 100);
    assert x == 4 * n;
    FourTimes(n);
  }

  lemma FourTimes(n: nat)
    ensures 4 * n % 4 == 0
  {}

  lemma CyclesAreCenturies(x: nat)
    requires x % 400 == 0
    ensures x % 100 == 0
  {
    var q := x / 400;
    assert x == 100 * (4 * q);
  }

  /** Leap days before year `y`: one every 4 years, but 3 in 400 years fall out. */
  function LeapDays(y: nat): int { (y + 3) / 4 - (y + 99) / 100 + (y + 399) / 400 }

  lemma OneYearMore(x: nat)
    ensures LeapDays(x + 1) == LeapDays(x) + if IsLeap(x) then 1 else 0
  {
    Quarters(x);
    Centuries(x);
    Cycles(x);
    if x % 100 == 0 { CenturiesAreQuarters(x); }
    if x % 400 == 0 { CyclesAreCenturies(x); }
  }

  /** The calendar in closed form. */
  lemma {:induction false} DaysInClosedForm(y: nat)
    ensures DaysBeforeYear(y) == 365 * y + LeapDays(y)
  {
    hide LeapDays, IsLeap;
    if y > 0 {
      DaysInClosedForm(y - 1);
      OneYearMore(y - 1);
    } else {
      assert LeapDays(0) == 0 by { NoLeapDays(); }
    }
  }

  lemma NoLeapDays()
    ensures LeapDays(0) == 0
  {}

  /** 400 years always have the same number of days. */
  lemma FourHundredYears(y: nat)
    ensures DaysBeforeYear(y + 400) == DaysBeforeYear(y) + 146097
  {
    hide DaysBeforeYear;
    DaysInClosedForm(y);
    DaysInClosedForm(y + 400);
    Quarters(y);
    Centuries(y);
    Cycles(y);
  }

  const BEFORE_MONTH: seq<nat> := [0, 31, 59, 90, 120, 151, 181, 212, 243, 273, 304, 334]

  lemma {:induction false} MonthsInClosedForm(y: nat, m: nat)
    requires 1 <= m <= 12
    ensures DaysBeforeMonth(y, m) == BEFORE_MONTH[m - 1] + if m > 2 && IsLeap(y) then 1 else 0
  {
    if m > 1 { MonthsInClosedForm(y, m - 1); }
  }

  /** The Unix epoch is day 719528 of this calendar. */
  lemma EpochDay(t: Instant)
    requires t == Instant(1970, 1, 1, 0, 0, 0, 0)
    ensures t.Valid() && t.Millis() == 719528 * 24 * 60 * 60 * 1000
  {
    DaysInClosedForm(1970);
    hide DaysBeforeYear;
    assert MonthLength(1970, 1) == 31;
  }

  // ---- Backfilled stamps -----------------------------------------------------------------------------

  /**
   * A backfilled row carries its own time of creation, if that cannot be read the time the sender
   * gave, and only without both the time of the boot; it has lost nothing else.
   */
  lemma BackfilledStampsReadBack(before: map<Backfill.Id, Backfill.Row>, after: map<Backfill.Id, Backfill.Row>,
                                 done: set<Backfill.Id>, r: Backfill.Id)
    requires Backfill.Progress(before, after, done) && r in done
    ensures r in before && r in after && before[r].ingestedAt.None? && after[r].ingestedAt.Some?
    ensures after[r].createdAt == before[r].createdAt && after[r].receivedAt == before[r].receivedAt
    ensures after[r].rest == before[r].rest
    ensures var made, sent, stamp := before[r].createdAt, before[r].receivedAt, ReadStamp(after[r].ingestedAt.value);
      if made.Reads? then made.instant.Valid() ==> stamp == Some(made.instant)
      else if sent.Some? && sent.value.Reads? then sent.value.instant.Valid() ==> stamp == Some(sent.value.instant)
      else stamp.Some? && stamp.value.Valid()
  {
    hide Render, ReadStamp;
    assert Backfill.Stamped(before[r], after[r]);
    var made, sent := before[r].createdAt, before[r].receivedAt;
    var stamp := after[r].ingestedAt.value;
    if made.Reads? {
      if made.instant.Valid() { StampsReadBack(made.instant); }
    } else if sent.Some? && sent.value.Reads? {
      if sent.value.instant.Valid() { StampsReadBack(sent.value.instant); }
    } else {
      var now :| Backfill.IsStampOf(stamp, now);
      StampsReadBack(now);
    }
  }
}
