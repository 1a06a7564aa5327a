/**
 * Amounts of money as text: printing kobo (src/replies.rs), finding an amount in the text of a
 * receipt, normalising it and reading it back (src/parser.rs), and the tolerance test
 * (src/ingestion.rs).
 */
module Money {
  import opened Prelude

  const I64_MAX: int := 0x7FFF_FFFF_FFFF_FFFF
  const I64_MIN: int := -0x8000_0000_0000_0000
  const NAIRA: char := '\U{20A6}'

  /** The result of an i64 operation, or None where it overflows. */
  function Checked(x: int): (r: Option<int>) {
    if I64_MIN <= x <= I64_MAX then Some(x) else None
  }

  // ---- Decimal digits ------------------------------------------------------------------------------

  predicate AllDigits(s: string) { forall i :: 0 <= i < |s| ==> IsDigit(s[i]) }

  /** The number that a string of digits denotes, leading zeros allowed. */
  function Value(s: string): (n: nat)
    requires AllDigits(s)
  {
    if s == "" then 0 else 10 * Value(s[..|s| - 1]) + (s[|s| - 1] as int - '0' as int)
  }

  /** `i64::to_string` of a number that is not negative. */
  function Digits(n: nat): (s: string)
    ensures s != "" && AllDigits(s) && Value(s) == n
  {
    if n < 10 then [DigitChar(n)] else Digits(n / 10) + [DigitChar(n % 10)]
  }

  // ---- Printing ------------------------------------------------------------------------------------

  function Reversed(s: string): string {
    if s == "" then "" else [s[|s| - 1]] + Reversed(s[..|s| - 1])
  }

  /** Digits in groups of three from the right. */
  function Grouped(w: string): string {
    if |w| <= 3 then w else Grouped(w[..|w| - 3]) + "," + w[|w| - 3..]
  }

  /** Two digits of kobo. */
  function Cents(n: nat): string
    requires n < 100
  {
    [DigitChar(n / 10), DigitChar(n % 10)]
  }

  function Abs(x: int): nat { if x < 0 then -x else x }

  /** What an amount should look like: sign, currency, whole naira in groups, point, two digits. */
  function Printed(kobo: int): string {
    (if kobo < 0 then "-" else "") + [NAIRA] + Grouped(Digits(Abs(kobo) / 100)) + "." + Cents(Abs(kobo) % 100)
  }

  /** Division of i64 truncates toward zero. */
  function TruncatedQuotient(a: int, n: int): int
    requires n > 0
  {
    if a < 0 then -(-a / n) else a / n
  }

  function TruncatedRemainder(a: int, n: int): int
    requires n > 0
  {
    a - TruncatedQuotient(a, n) * n
  }

  /** Putting a digit in front of grouped digits needs a comma exactly when the first group is full. */
  lemma {:induction false} GroupedFront(c: char, t: string)
    ensures Grouped([c] + t) == (if |t| > 0 && |t| % 3 == 0 then [c] + "," else [c]) + Grouped(t)
    decreases |t|
  {
    var s := [c] + t;
    if |t| >= 3 {
      var front, last := t[..|t| - 3], t[|t| - 3..];
      assert s[..|s| - 3] == [c] + front && s[|s| - 3..] == last;
      GroupedUnfold(s);
      if |t| > 3 { GroupedUnfold(t); }
      GroupedFront(c, front);
      hide Grouped;
      Regroup(if |front| > 0 && |front| % 3 == 0 then [c] + "," else [c], Grouped(front), ",", last);
      assert |t| == 3 ==> front == "" && last == t;
    }
  }

  lemma GroupedUnfold(w: string)
    ensures Grouped(w) == if |w| <= 3 then w else Grouped(w[..|w| - 3]) + "," + w[|w| - 3..]
  {
  }

  lemma Regroup(a: string, b: string, c: string, d: string)
    ensures (a + b) + c + d == a + (b + c + d)
  {
  }

  lemma ReversedPush(s: string, c: char)
    ensures Reversed(s + [c]) == [c] + Reversed(s)
  {
    assert (s + [c])[..|s|] == s;
  }

  lemma NothingGrouped()
    ensures Reversed("") == Grouped("")
  {
  }

  /** One turn of the loop below: `t` is what has been grouped so far, and `c` comes in front of it. */
  lemma DigitPushed(done: string, c: char, t: string)
    requires Reversed(done) == Grouped(t)
    ensures Reversed((if |t| > 0 && |t| % 3 == 0 then done + "," else done) + [c]) == Grouped([c] + t)
  {
    hide Reversed, Grouped;
    GroupedFront(c, t);
    if |t| > 0 && |t| % 3 == 0 {
      ReversedPush(done, ',');
      ReversedPush(done + ",", c);
    } else {
      ReversedPush(done, c);
    }
  }

  /** The commas of `format_kobo`, put in from right to left over the reversed digits. */
  method GroupDigits(whole: string) returns (grouped: string)
    ensures grouped == Grouped(whole)
  {
    hide Reversed, Grouped;
    var withCommas := "";
    NothingGrouped();
    assert whole[|whole|..] == "";
    for i := 0 to |whole|
      invariant Reversed(withCommas) == Grouped(whole[|whole| - i..])
    {
      var ch := whole[|whole| - 1 - i];
      DigitPushed(withCommas, ch, whole[|whole| - i..]);
      assert whole[|whole| - 1 - i..] == [ch] + whole[|whole| - i..];
      if i > 0 && i % 3 == 0 {
        withCommas := withCommas + ",";
      }
      withCommas := withCommas + [ch];
    }
    assert whole[0..] == whole;
    grouped := Reversed(withCommas);
  }

  lemma PartsOf(kobo: int)
    ensures Abs(TruncatedQuotient(kobo, 100)) == Abs(kobo) / 100
    ensures Abs(TruncatedRemainder(kobo, 100)) == Abs(kobo) % 100
  {
  }

  method FormatKobo(kobo: int) returns (text: string)
    requires I64_MIN <= kobo <= I64_MAX
    ensures text == Printed(kobo)
  {
    PartsOf(kobo);
    var naira := TruncatedQuotient(kobo, 100);
    var fraction := Abs(TruncatedRemainder(kobo, 100));
    hide TruncatedQuotient, TruncatedRemainder, Digits, Grouped, Cents;
    var grouped := GroupDigits(Digits(Abs(naira)));
    var sign := if kobo < 0 then "-" else "";
    text := sign + [NAIRA] + grouped + "." + Cents(fraction);
  }

  // ---- Reading -------------------------------------------------------------------------------------

  datatype Sieve = NoSpaces | NoSpacesOrCommas | OnlyDigits {
    predicate Keeps(c: char) {
      match this
      case NoSpaces => !IsWhitespace(c)
      case NoSpacesOrCommas => !IsWhitespace(c) && c != ','
      case OnlyDigits => IsDigit(c)
    }
  }

  function Filter(s: string, keep: Sieve): (r: string)
    ensures forall i :: 0 <= i < |r| ==> keep.Keeps(r[i])
  {
    if s == "" then "" else (if keep.Keeps(s[0]) then [s[0]] else "") + Filter(s[1..], keep)
  }

  /** Where the first point is, or the length of the string. */
  function FirstDot(s: string): (d: nat)
    ensures d <= |s| && (d < |s| ==> s[d] == '.') && forall i :: 0 <= i < d ==> s[i] != '.'
  {
    if s == "" || s[0] == '.' then 0 else 1 + FirstDot(s[1..])
  }

  /** What follows the currency prefix, if there is one. */
  function WithoutPrefix(s: string): Option<string> {
    if s != "" && (s[0] == NAIRA || s[0] == '#') then Some(s[1..])
    else if "NGN" <= s || "ngn" <= s then Some(TrimStart(s[3..]))
    else None
  }

  lemma ShortValues(f: string)
    requires 1 <= |f| <= 2 && AllDigits(f)
    ensures |f| == 1 ==> Value(f) == f[0] as int - '0' as int
    ensures |f| == 2 ==> Value(f) == 10 * (f[0] as int - '0' as int) + (f[1] as int - '0' as int)
  {
    assert f[..1][..0] == "" && f[..1] == [f[0]];
    if |f| == 2 {
      assert f[..|f| - 1] == [f[0]] && [f[0]][..0] == "";
    } else {
      assert f[..|f| - 1] == "";
    }
  }

  /** The first two digits after the point as kobo. */
  function FractionValue(f: string): (n: nat)
    requires AllDigits(f)
    ensures n < 100
  {
    if |f| == 0 then 0
    else
      ShortValues(if |f| == 1 then f else f[..2]);
      if |f| == 1 then Value(f) * 10 else Value(f[..2])
  }

  function KoboOf(whole: string, fraction: string): (r: Option<int>)
    ensures r.Some? ==> 0 <= r.value <= I64_MAX
  {
    if whole == "" || !AllDigits(whole) || !AllDigits(fraction) then None
    else if Checked(Value(whole)).None? then None
    else if Checked(Value(whole) * 100).None? then None
    else Checked(Value(whole) * 100 + FractionValue(fraction))
  }

  function ParseAmountToKobo(amount: string): (r: Option<int>)
    ensures r.Some? ==> 0 <= r.value <= I64_MAX
  {
    var rest := WithoutPrefix(Trim(amount));
    if rest.None? then None
    else
      var cleaned := Filter(rest.value, NoSpacesOrCommas);
      var d := FirstDot(cleaned);
      KoboOf(cleaned[..d], if d < |cleaned| then cleaned[d + 1..] else "")
  }

  // ---- Finding an amount in text -------------------------------------------------------------------

  predicate IsSeparator(c: char) { c == ' ' || c == ',' }

  /**
   * `nd` may be the class `\d` of the pattern: the decimal digits of Unicode.  All that matters of it
   * is that it holds the ASCII digits and neither white space nor any other character of the pattern.
   */
  ghost predicate IsDigitClass(nd: set<char>) {
    && (forall c :: IsDigit(c) ==> c in nd)
    && (forall c :: c in nd ==> !IsWhitespace(c) && !IsSeparator(c) && c !in ['.', '#', NAIRA, 'N', 'G'])
  }

  /** Where the currency prefix that starts at `i` ends. */
  function PrefixEnd(s: string, i: nat): (r: Option<nat>)
    requires i <= |s|
    ensures r.Some? ==> i < r.value <= |s|
  {
    if i < |s| && (s[i] == '#' || s[i] == NAIRA) then Some(i + 1)
    else if i + 3 <= |s| && s[i..i + 3] == "NGN" then Some(SpacesEnd(s, i + 3))
    else None
  }

  function SpacesEnd(s: string, i: nat): (e: nat)
    requires i <= |s|
    ensures i <= e <= |s| && forall k :: i <= k < e ==> IsWhitespace(s[k])
    ensures e < |s| ==> !IsWhitespace(s[e])
    decreases |s| - i
  {
    if i < |s| && IsWhitespace(s[i]) then SpacesEnd(s, i + 1) else i
  }

  /** Where the greedy run of digit groups that starts with the digit at `i` ends. */
  function RunsEnd(s: string, i: nat, nd: set<char>): (e: nat)
    requires i < |s| && s[i] in nd
    ensures i < e <= |s|
    decreases |s| - i
  {
    if i + 1 < |s| && s[i + 1] in nd then RunsEnd(s, i + 1, nd)
    else if i + 2 < |s| && IsSeparator(s[i + 1]) && s[i + 2] in nd then RunsEnd(s, i + 2, nd)
    else i + 1
  }

  /** Where the optional point with one or two digits that starts at `i` ends. */
  function FractionEnd(s: string, i: nat, nd: set<char>): (e: nat)
    requires i <= |s|
    ensures i <= e <= |s|
  {
    if i + 1 < |s| && s[i] == '.' && s[i + 1] in nd
    then if i + 2 < |s| && s[i + 2] in nd then i + 3 else i + 2
    else i
  }

  /** Where the amount that starts at `i` ends, if one starts there. */
  function MatchEnd(s: string, i: nat, nd: set<char>): (r: Option<nat>)
    requires i <= |s|
    ensures r.Some? ==> i < r.value <= |s|
  {
    var p := PrefixEnd(s, i);
    if p.Some? && p.value < |s| && s[p.value] in nd then Some(FractionEnd(s, RunsEnd(s, p.value, nd), nd)) else None
  }

  /** `AMOUNT_RE.find`: start and end of the first amount at or after `i`. */
  function FindAmount(s: string, i: nat, nd: set<char>): (r: Option<(nat, nat)>)
    requires i <= |s|
    ensures r.Some? ==> i <= r.value.0 < r.value.1 <= |s|
    decreases |s| - i
  {
    if MatchEnd(s, i, nd).Some? then Some((i, MatchEnd(s, i, nd).value))
    else if i < |s| then FindAmount(s, i + 1, nd) else None
  }

  /** `replace('#', "₦")` */
  function NairaForHash(s: string): (r: string)
    ensures |r| == |s| && forall i :: 0 <= i < |s| ==> r[i] == if s[i] == '#' then NAIRA else s[i]
  {
    if s == "" then "" else [if s[0] == '#' then NAIRA else s[0]] + NairaForHash(s[1..])
  }

  /** Spaces go, and both `#` and a leading `NGN` become the naira sign. */
  function Normalise(m: string): string {
    var withNaira := NairaForHash(Filter(m, NoSpaces));
    if "NGN" <= withNaira then [NAIRA] + withNaira[3..] else withNaira
  }

  /** The amount field of `parse_receipt`. */
  function ExtractAmount(text: string, nd: set<char>): Option<string> {
    var at := FindAmount(text, 0, nd);
    if at.Some? then Some(Normalise(text[at.value.0..at.value.1])) else None
  }

  // ---- Comparing with the expected contribution ----------------------------------------------------

  const AMOUNT_MATCH_TOLERANCE_KOBO := 100

  /** `(got - want).abs() <= 100` in i64; None where the subtraction or the absolute value overflows. */
  function AmountMatches(got: int, want: int): Option<bool> {
    var difference := Checked(got - want);
    if difference.None? || Checked(Abs(difference.value)).None? then None
    else Some(Abs(difference.value) <= AMOUNT_MATCH_TOLERANCE_KOBO)
  }
}
