/** Printing and reading agree, and what the extractor finds is what the pattern says. */
module MoneyTheorems {
  import opened Prelude
  import opened Money

  // ---- Filtering -----------------------------------------------------------------------------------

  lemma FilterOne(c: char, t: string, keep: Sieve)
    ensures Filter([c] + t, keep) == (if keep.Keeps(c) then [c] else "") + Filter(t, keep)
  {
    assert ([c] + t)[1..] == t;
  }

  lemma Associate(a: string, b: string, c: string)
    ensures (a + b) + c == a + (b + c)
  {
  }

  lemma FilterNothing(b: string, keep: Sieve)
    ensures Filter("" + b, keep) == Filter("", keep) + Filter(b, keep)
  {
    assert "" + b == b;
  }

  lemma {:induction false} FilterAppend(a: string, b: string, keep: Sieve)
    ensures Filter(a + b, keep) == Filter(a, keep) + Filter(b, keep)
  {
    hide *;
    if a == "" {
      FilterNothing(b, keep);
    } else {
      var c, t := a[0], a[1..];
      assert a == [c] + t;
      FilterAppend(t, b, keep);
      FilterOne(c, t, keep);
      FilterOne(c, t + b, keep);
      Associate([c], t, b);
      Associate(if keep.Keeps(c) then [c] else "", Filter(t, keep), Filter(b, keep));
    }
  }

  lemma {:induction false} FilterKeepsAll(s: string, keep: Sieve)
    requires forall i :: 0 <= i < |s| ==> keep.Keeps(s[i])
    ensures Filter(s, keep) == s
  {
    if s != "" { FilterKeepsAll(s[1..], keep); }
  }

  lemma {:induction false} FilterKeepsNone(s: string, keep: Sieve)
    requires forall i :: 0 <= i < |s| ==> !keep.Keeps(s[i])
    ensures Filter(s, keep) == ""
  {
    if s != "" { FilterKeepsNone(s[1..], keep); }
  }

  lemma DotIsWhereDigitsEnd(w: string, f: string)
    requires '.' !in w
    ensures FirstDot(w + "." + f) == |w| && (w + "." + f)[..|w|] == w && (w + "." + f)[|w| + 1..] == f
    ensures FirstDot(w) == |w|
  {
    var s := w + "." + f;
    assert s[|w|] == '.' && forall i :: 0 <= i < |w| ==> s[i] == w[i];
  }

  // ---- Round trip ----------------------------------------------------------------------------------

  lemma CommaGoes(a: string, b: string)
    requires AllDigits(b)
    ensures Filter(a + "," + b, NoSpacesOrCommas) == Filter(a, NoSpacesOrCommas) + b
  {
    hide Filter;
    FilterAppend(a + ",", b, NoSpacesOrCommas);
    FilterAppend(a, ",", NoSpacesOrCommas);
    FilterKeepsNone(",", NoSpacesOrCommas);
    FilterKeepsAll(b, NoSpacesOrCommas);
    assert Filter(a, NoSpacesOrCommas) + "" == Filter(a, NoSpacesOrCommas);
  }

  lemma {:induction false} GroupsClean(w: string)
    requires AllDigits(w)
    ensures Filter(Grouped(w), NoSpacesOrCommas) == w
  {
    hide Filter, Grouped;
    GroupedUnfold(w);
    if |w| <= 3 {
      FilterKeepsAll(w, NoSpacesOrCommas);
    } else {
      var a, b := w[..|w| - 3], w[|w| - 3..];
      GroupsClean(a);
      CommaGoes(Grouped(a), b);
      assert a + b == w;
    }
  }

  lemma CentsValue(n: nat)
    requires n < 100
    ensures AllDigits(Cents(n)) && FractionValue(Cents(n)) == n
  {
    var s := Cents(n);
    assert s[..2] == s;
    ShortValues(s);
  }

  lemma PrintedIsCleaned(w: string, f: string)
    requires AllDigits(w) && AllDigits(f)
    ensures Filter(Grouped(w) + "." + f, NoSpacesOrCommas) == w + "." + f
  {
    assert Filter(".", NoSpacesOrCommas) == ".";
    GroupsClean(w);
    FilterKeepsAll(f, NoSpacesOrCommas);
    hide Filter, Grouped;
    FilterAppend(Grouped(w) + ".", f, NoSpacesOrCommas);
    FilterAppend(Grouped(w), ".", NoSpacesOrCommas);
  }

  /** Reading a naira sign and digits comes down to reading the digits that are left after cleaning. */
  lemma ReadsCleaned(body: string, w: string, f: string)
    requires body != "" && !IsWhitespace(body[|body| - 1]) && '.' !in w
    requires Filter(body, NoSpacesOrCommas) == w + "." + f || (f == "" && Filter(body, NoSpacesOrCommas) == w)
    ensures ParseAmountToKobo([NAIRA] + body) == KoboOf(w, f)
  {
    hide *;
    PrefixGoes(body);
    DotIsWhereDigitsEnd(w, f);
    var cleaned := Filter(body, NoSpacesOrCommas);
    var d := FirstDot(cleaned);
    assert d == |w| && cleaned[..d] == w;
    assert (if d < |cleaned| then cleaned[d + 1..] else "") == f;
    Reads([NAIRA] + body, body);
  }

  lemma PrefixGoes(body: string)
    requires body != "" && !IsWhitespace(body[|body| - 1])
    ensures WithoutPrefix(Trim([NAIRA] + body)) == Some(body)
  {
    var text := [NAIRA] + body;
    TrimmedAlready(text);
    assert text[1..] == body;
  }

  lemma Reads(amount: string, rest: string)
    requires WithoutPrefix(Trim(amount)) == Some(rest)
    ensures var cleaned := Filter(rest, NoSpacesOrCommas);
            var d := FirstDot(cleaned);
            ParseAmountToKobo(amount) == KoboOf(cleaned[..d], if d < |cleaned| then cleaned[d + 1..] else "")
  {
  }

  lemma KoboOfParts(w: string, f: string)
    requires w != "" && AllDigits(w) && AllDigits(f)
    ensures var v := Value(w) * 100 + FractionValue(f); KoboOf(w, f) == if v <= I64_MAX then Some(v) else None
  {
  }

  lemma PartsMakeTheWhole(k: nat)
    ensures Value(Digits(k / 100)) * 100 + FractionValue(Cents(k % 100)) == k
  {
    CentsValue(k % 100);
  }

  lemma NoPoint(w: string)
    requires AllDigits(w)
    ensures '.' !in w
  {}

  lemma PrintedParts(k: nat, body: string)
    requires body == Grouped(Digits(k / 100)) + "." + Cents(k % 100)
    ensures Printed(k) == [NAIRA] + body && body != "" && !IsWhitespace(body[|body| - 1])
  {
    hide Digits, Grouped;
    assert body[|body| - 1] == Cents(k % 100)[1];
  }

  /** Every amount from zero to the largest i64 is read back from what is printed for it. */
  lemma RoundTrip(k: int)
    requires 0 <= k <= I64_MAX
    ensures ParseAmountToKobo(Printed(k)) == Some(k)
  {
    hide *;
    var w, f := Digits(k / 100), Cents(k % 100);
    CentsValue(k % 100);
    KoboOfParts(w, f);
    PartsMakeTheWhole(k);
    PrintedIsCleaned(w, f);
    var body := Grouped(w) + "." + f;
    PrintedParts(k, body);
    NoPoint(w);
    ReadsCleaned(body, w, f);
  }

  /** A negative amount is printed with a sign, and the sign is never read back. */
  lemma NegativesAreRefused(k: int)
    requires k < 0
    ensures ParseAmountToKobo(Printed(k)) == None
  {
    var text := Printed(k);
    assert text[0] == '-';
    TrimmedAlready(text);
    assert !("NGN" <= text) && !("ngn" <= text);
  }

  /** What the server prints, the server reads: the method and the parser together. */
  method PrintAndRead(kobo: int) returns (back: Option<int>)
    requires I64_MIN <= kobo <= I64_MAX
    ensures back == if kobo < 0 then None else Some(kobo)
  {
    var text := FormatKobo(kobo);
    back := ParseAmountToKobo(text);
    if kobo < 0 { NegativesAreRefused(kobo); } else { RoundTrip(kobo); }
  }

  // ---- Tolerance -----------------------------------------------------------------------------------

  /**
   * For an amount read from text and a contribution as the request validation lets it through, the
   * tolerance test never overflows and is the comparison of the two integers.
   */
  lemma ToleranceIsExact(amount: string, want: int)
    requires 0 < want <= I64_MAX && ParseAmountToKobo(amount).Some?
    ensures var got := ParseAmountToKobo(amount).value;
            AmountMatches(got, want) == Some(-100 <= got - want <= 100)
  {
  }
}
