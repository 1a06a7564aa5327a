/**
 * What is printed, character by character, and what is read, digit by digit.
 */
module MoneyAnswers {
  import opened Prelude
  import opened Money
  import opened MoneyTheorems
  import opened AmountPattern

  // ---- Decimal numbers -------------------------------------------------------------------------------

  function DigitOf(c: char): int { c as int - 48 }

  /** Each digit counts for its place, read from the left. */
  function PlaceValue(s: string): int {
    if s == "" then 0 else DigitOf(s[0]) * Pow10(|s| - 1) + PlaceValue(s[1..])
  }

  lemma {:induction false} PlaceValuePush(s: string, c: char)
    ensures PlaceValue(s + [c]) == 10 * PlaceValue(s) + DigitOf(c)
  {
    var t := s + [c];
    if s == "" {
      assert t[1..] == "" && Pow10(0) == 1;
    } else {
      assert t[1..] == s[1..] + [c];
      PlaceValuePush(s[1..], c);
      assert Pow10(|t| - 1) == 10 * Pow10(|s| - 1);
    }
  }

  lemma {:induction false} ValueIsPlaceValue(s: string)
    requires AllDigits(s)
    ensures Value(s) == PlaceValue(s)
  {
    if s != "" {
      var t, c := s[..|s| - 1], s[|s| - 1];
      assert s == t + [c];
      ValueIsPlaceValue(t);
      PlaceValuePush(t, c);
    }
  }

  /** One digit after the point is tens of kobo, two are kobo, and the rest is dropped. */
  lemma FractionDigitByDigit(f: string)
    requires AllDigits(f)
    ensures FractionValue(f) ==
      (if |f| >= 1 then 10 * DigitOf(f[0]) else 0) + (if |f| >= 2 then DigitOf(f[1]) else 0)
  {
    if |f| == 1 { ShortValues(f); }
    if |f| >= 2 { ShortValues(f[..2]); }
  }

  // ---- Reading ---------------------------------------------------------------------------------------

  predicate DigitsOnly(s: string) { forall c :: c in s ==> '0' <= c <= '9' }

  function KoboFrom(whole: string, fraction: string): (r: Option<int>) {
    if whole == "" || !DigitsOnly(whole) || !DigitsOnly(fraction) then None
    else
      var kobo := 100 * PlaceValue(whole) + (if |fraction| >= 1 then 10 * DigitOf(fraction[0]) else 0)
                  + (if |fraction| >= 2 then DigitOf(fraction[1]) else 0);
      if kobo <= 0x7FFF_FFFF_FFFF_FFFF then Some(kobo) else None
  }

  /** Kobo in a text of digits with an optional point, the digits of the fraction after the second dropped. */
  function KoboIn(s: string): (r: Option<int>) {
    var d := FirstDot(s);
    KoboFrom(s[..d], if d < |s| then s[d + 1..] else "")
  }

  /** What follows `₦`, `#`, `NGN` or `ngn`. */
  function AfterCurrency(s: string): Option<string> {
    if |s| >= 1 && s[0] in {'\U{20A6}', '#'} then Some(s[1..])
    else if |s| >= 3 && s[..3] in {"NGN", "ngn"} then Some(s[3..])
    else None
  }

  lemma DigitsOnlyIff(s: string)
    ensures AllDigits(s) <==> DigitsOnly(s)
  {
    if DigitsOnly(s) { assert forall i :: 0 <= i < |s| ==> s[i] in s; }
  }

  lemma KoboOfIsKoboFrom(whole: string, fraction: string)
    ensures KoboOf(whole, fraction) == KoboFrom(whole, fraction)
  {
    DigitsOnlyIff(whole);
    DigitsOnlyIff(fraction);
    hide AllDigits, DigitsOnly, Value, PlaceValue, FractionValue;
    if AllDigits(whole) && AllDigits(fraction) {
      ValueIsPlaceValue(whole);
      FractionDigitByDigit(fraction);
    }
  }

  lemma {:induction false} FilterTrimStart(s: string)
    ensures Filter(TrimStart(s), NoSpacesOrCommas) == Filter(s, NoSpacesOrCommas)
  {
    if s != "" && IsWhitespace(s[0]) { FilterTrimStart(s[1..]); }
  }

  /**
   * An amount is read exactly when it begins, after white space, with one of the four currency marks,
   * and what follows, without white space and commas, is digits with an optional point that fit an i64.
   */
  lemma ParseAnswers(amount: string)
    ensures var x := AfterCurrency(Trim(amount));
      ParseAmountToKobo(amount) == if x.None? then None else KoboIn(Filter(x.value, NoSpacesOrCommas))
  {
    var t := Trim(amount);
    CurrencyIs(t);
    hide Trim, Filter, KoboOf, KoboFrom, FirstDot, WithoutPrefix, AfterCurrency;
    if AfterCurrency(t).Some? {
      var s := Filter(AfterCurrency(t).value, NoSpacesOrCommas);
      var d := FirstDot(s);
      KoboOfIsKoboFrom(s[..d], if d < |s| then s[d + 1..] else "");
    }
  }

  lemma CurrencyIs(s: string)
    ensures WithoutPrefix(s).Some? <==> AfterCurrency(s).Some?
    ensures AfterCurrency(s).Some? ==>
      Filter(WithoutPrefix(s).value, NoSpacesOrCommas) == Filter(AfterCurrency(s).value, NoSpacesOrCommas)
  {
    assert "NGN" <= s <==> |s| >= 3 && s[..3] == "NGN";
    assert "ngn" <= s <==> |s| >= 3 && s[..3] == "ngn";
    hide Filter, TrimStart;
    if |s| >= 3 { FilterTrimStart(s[3..]); }
  }

  /** What `Filter` leaves out are white space and commas, wherever they stand. */
  lemma ParserIgnores(a: string, c: char, z: string)
    requires IsWhitespace(c) || c == ','
    ensures Filter(a + [c] + z, NoSpacesOrCommas) == Filter(a + z, NoSpacesOrCommas)
  {
    FilterAppend(a + [c], z, NoSpacesOrCommas);
    FilterAppend(a, [c], NoSpacesOrCommas);
    FilterAppend(a, z, NoSpacesOrCommas);
    FilterKeepsNone([c], NoSpacesOrCommas);
    hide Filter;
    assert Filter(a, NoSpacesOrCommas) + "" == Filter(a, NoSpacesOrCommas);
  }

  // ---- Printing --------------------------------------------------------------------------------------

  /** Place `i` of grouped digits of length `n` holds a comma: every fourth from the right. */
  predicate CommaAt(n: nat, i: nat)
    requires i <= n
  {
    (n - i) % 4 == 0
  }

  ghost predicate WellGrouped(g: string) {
    && g != "" && IsDigit(g[0])
    && forall i :: 0 <= i < |g| ==> if CommaAt(|g|, i) then g[i] == ',' else IsDigit(g[i])
  }

  lemma {:induction false} GroupedIsWellGrouped(w: string)
    requires AllDigits(w) && w != ""
    ensures WellGrouped(Grouped(w)) && Grouped(w)[0] == w[0]
  {
    GroupedUnfold(w);
    hide Grouped;
    if |w| > 3 {
      var a, b := w[..|w| - 3], w[|w| - 3..];
      GroupedIsWellGrouped(a);
      assert Grouped(a) == Grouped(w[..|w| - 3]);
      WellGroupedPush(Grouped(a), b);
    }
  }

  lemma WellGroupedPush(g: string, b: string)
    requires WellGrouped(g) && |b| == 3 && AllDigits(b)
    ensures WellGrouped(g + "," + b)
  {
    var h := g + "," + b;
    forall i | 0 <= i < |h| ensures if CommaAt(|h|, i) then h[i] == ',' else IsDigit(h[i]) {
      EveryFourth(|g|, i);
      hide CommaAt;
      if i < |g| {
        assert h[i] == g[i];
      } else if i > |g| {
        assert h[i] == b[i - |g| - 1];
      }
    }
  }

  lemma EveryFourth(n: nat, i: nat)
    requires i < n + 4
    ensures i <= n ==> CommaAt(n + 4, i) == CommaAt(n, i)
    ensures i == n ==> CommaAt(n, i)
    ensures i > n ==> !CommaAt(n + 4, i)
  {}

  lemma {:induction false} NoLeadingZero(n: nat)
    ensures Digits(n)[0] == '0' <==> n == 0
    ensures n == 0 ==> Digits(n) == "0"
  {
    if n >= 10 {
      NoLeadingZero(n / 10);
      assert Digits(n)[0] == Digits(n / 10)[0];
    }
  }

  /**
   * The printed amount in characters: a sign if it is negative, the naira sign, the whole naira with a
   * comma before every third digit from the right and no leading zero, a point, and two digits.
   */
  lemma PrintedCharByChar(kobo: int)
    ensures var t, n := Printed(kobo), if kobo < 0 then -kobo else kobo;
      var start := if kobo < 0 then 2 else 1;
      && |t| >= start + 4
      && (kobo < 0 ==> t[0] == '-') && t[start - 1] == '\U{20A6}'
      && var whole, last := t[start..|t| - 3], t[|t| - 3..];
         && WellGrouped(whole) && (whole[0] == '0' ==> whole == "0")
         && PlaceValue(Filter(whole, NoSpacesOrCommas)) == n / 100
         && last[0] == '.' && IsDigit(last[1]) && IsDigit(last[2])
         && 10 * DigitOf(last[1]) + DigitOf(last[2]) == n % 100
  {
    var n := Abs(kobo);
    WholeNaira(n / 100);
    hide Grouped, PlaceValue, WellGrouped, Filter, Digits;
    Layout(if kobo < 0 then "-" else "", Grouped(Digits(n / 100)), Cents(n % 100));
  }

  lemma WholeNaira(n: nat)
    ensures var g := Grouped(Digits(n));
      && WellGrouped(g) && g != "" && (g[0] == '0' ==> g == "0") && PlaceValue(Filter(g, NoSpacesOrCommas)) == n
  {
    var w := Digits(n);
    NoLeadingZero(n);
    GroupedIsWellGrouped(w);
    NotEmpty(Grouped(w));
    GroupsClean(w);
    ValueIsPlaceValue(w);
    hide Digits, WellGrouped, Filter, PlaceValue, Value;
    if w == "0" { GroupedUnfold(w); }
  }

  lemma Layout(sign: string, g: string, f: string)
    requires |sign| <= 1 && |f| == 2 && g != ""
    ensures var t := sign + [NAIRA] + g + "." + f;
      && |t| >= |sign| + 5 && (sign != "" ==> t[0] == sign[0]) && t[|sign|] == NAIRA
      && t[|sign| + 1..|t| - 3] == g && t[|t| - 3..] == "." + f
      && t[|t| - 3..][1] == f[0] && t[|t| - 3..][2] == f[1]
  {
    var t := sign + [NAIRA] + g + "." + f;
    assert t[|t| - 3..] == "." + f && ("." + f)[1] == f[0] && ("." + f)[2] == f[1];
    assert t[|sign| + 1..|t| - 3] == g;
  }

  lemma NotEmpty(g: string)
    requires WellGrouped(g)
    ensures g != ""
  {}
}
