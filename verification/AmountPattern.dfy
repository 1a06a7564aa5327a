/**
 * The amount pattern of src/parser.rs, its search, and what a normalised amount is read as.  `nd` is
 * the class `\d`, any set that holds the ASCII digits and nothing else the pattern speaks of.
 */
module AmountPattern {
  import opened Prelude
  import opened Money
  import opened MoneyTheorems

  // ---- The language of the pattern -----------------------------------------------------------------

  /** `[#₦]|NGN\s*` */
  predicate IsPrefix(s: string) {
    || s == "#" || s == [NAIRA]
    || (|s| >= 3 && s[..3] == "NGN" && forall i :: 3 <= i < |s| ==> IsWhitespace(s[i]))
  }

  predicate RunGoesOn(s: string, i: nat, nd: set<char>)
    requires i + 1 < |s|
  {
    s[i] in nd || (IsSeparator(s[i]) && s[i + 1] in nd)
  }

  /** `\d+(?:[ ,]\d+)*`: no separator at the ends and no two in a row. */
  predicate IsRuns(s: string, nd: set<char>) {
    && s != "" && s[0] in nd && s[|s| - 1] in nd
    && forall i :: 0 <= i < |s| - 1 ==> RunGoesOn(s, i, nd)
  }

  /** `(?:\.\d{1,2})?` */
  predicate IsFraction(s: string, nd: set<char>) {
    s == "" || (2 <= |s| <= 3 && s[0] == '.' && s[1] in nd && s[|s| - 1] in nd)
  }

  /** The whole pattern, cut into its three parts at `a` and `b`. */
  predicate IsAmountCut(s: string, a: nat, b: nat, nd: set<char>) {
    a <= b <= |s| && IsPrefix(s[..a]) && IsRuns(s[a..b], nd) && IsFraction(s[b..], nd)
  }

  ghost predicate IsAmount(s: string, nd: set<char>) {
    exists a: nat, b: nat :: IsAmountCut(s, a, b, nd)
  }

  lemma {:induction false} RunsEndSound(s: string, i: nat, nd: set<char>)
    requires i < |s| && s[i] in nd
    ensures IsRuns(s[i..RunsEnd(s, i, nd)], nd)
    decreases |s| - i
  {
    var e := RunsEnd(s, i, nd);
    if e > i + 1 {
      var next := if s[i + 1] in nd then i + 1 else i + 2;
      RunsEndSound(s, next, nd);
      var t, rest := s[i..e], s[next..e];
      forall k | 0 <= k < |t| - 1
        ensures RunGoesOn(t, k, nd)
      {
        if k >= next - i {
          var x := k - (next - i);
          assert RunGoesOn(rest, x, nd) && t[k] == rest[x] && t[k + 1] == rest[x + 1];
        }
      }
      assert t[|t| - 1] == rest[|rest| - 1];
    }
  }

  /** No run that starts at `i` reaches beyond the greedy one, and after a shorter one comes no point. */
  lemma {:induction false} RunsEndLongest(s: string, i: nat, j: nat, nd: set<char>)
    requires IsDigitClass(nd) && i < j <= |s| && IsRuns(s[i..j], nd)
    ensures s[i] in nd && j <= RunsEnd(s, i, nd)
    ensures j < RunsEnd(s, i, nd) ==> s[j] != '.'
    decreases |s| - i
  {
    assert s[i] == s[i..j][0];
    if j > i + 1 {
      RunsStep(s, i, j, nd);
      var next := if s[i + 1] in nd then i + 1 else i + 2;
      RunsTail(s, i, next, j, nd);
      RunsEndLongest(s, next, j, nd);
    }
  }

  lemma RunsStep(s: string, i: nat, j: nat, nd: set<char>)
    requires i + 1 < j <= |s| && IsRuns(s[i..j], nd)
    ensures s[i + 1] in nd || (i + 2 < j && IsSeparator(s[i + 1]) && s[i + 2] in nd)
  {
    var t := s[i..j];
    assert |t| > 2 ==> RunGoesOn(t, 1, nd);
    assert t[1] == s[i + 1] && t[|t| - 1] == s[j - 1];
    assert |t| > 2 ==> t[2] == s[i + 2];
  }

  lemma RunsTail(s: string, i: nat, k: nat, j: nat, nd: set<char>)
    requires i < k < j <= |s| && IsRuns(s[i..j], nd) && s[k] in nd
    ensures IsRuns(s[k..j], nd)
  {
    var t, u := s[i..j], s[k..j];
    assert forall x :: 0 <= x < |u| ==> u[x] == t[x + (k - i)];
    forall x | 0 <= x < |u| - 1
      ensures RunGoesOn(u, x, nd)
    {
      assert RunGoesOn(t, x + (k - i), nd);
      assert u[x] == t[x + (k - i)] && u[x + 1] == t[x + (k - i) + 1];
    }
  }

  lemma PrefixEndSound(s: string, i: nat)
    requires i <= |s| && PrefixEnd(s, i).Some?
    ensures IsPrefix(s[i..PrefixEnd(s, i).value])
  {
    var a := PrefixEnd(s, i).value;
    var t := s[i..a];
    if s[i] != '#' && s[i] != NAIRA {
      assert t[..3] == s[i..i + 3];
      assert forall k :: 3 <= k < |t| ==> t[k] == s[i + k];
    }
  }

  lemma PrefixEndExact(s: string, i: nat, a: nat, nd: set<char>)
    requires IsDigitClass(nd) && i <= a < |s| && IsPrefix(s[i..a]) && s[a] in nd
    ensures PrefixEnd(s, i) == Some(a)
  {
    var t := s[i..a];
    assert t[0] == s[i];
    if t[0] != '#' && t[0] != NAIRA {
      assert t[..3] == s[i..i + 3];
      assert forall k :: 3 <= k < |t| ==> t[k] == s[i + k];
      SpacesEndAt(s, i + 3, a);
    }
  }

  lemma {:induction false} SpacesEndAt(s: string, i: nat, a: nat)
    requires i <= a < |s| && !IsWhitespace(s[a]) && forall k :: i <= k < a ==> IsWhitespace(s[k])
    ensures SpacesEnd(s, i) == a
    decreases a - i
  {
    if i < a { SpacesEndAt(s, i + 1, a); }
  }

  lemma FractionEndSound(s: string, i: nat, nd: set<char>)
    requires i <= |s|
    ensures IsFraction(s[i..FractionEnd(s, i, nd)], nd)
  {
  }

  /** What is found at a position belongs to the language of the pattern. */
  lemma MatchIsAmount(s: string, i: nat, nd: set<char>)
    requires i <= |s| && MatchEnd(s, i, nd).Some?
    ensures IsAmount(s[i..MatchEnd(s, i, nd).value], nd)
  {
    var a := PrefixEnd(s, i).value;
    var b, e := RunsEnd(s, a, nd), MatchEnd(s, i, nd).value;
    PrefixEndSound(s, i);
    RunsEndSound(s, a, nd);
    FractionEndSound(s, b, nd);
    Assemble(s, i, a, b, e, nd);
  }

  lemma Assemble(s: string, i: nat, a: nat, b: nat, j: nat, nd: set<char>)
    requires i <= a <= b <= j <= |s| && IsPrefix(s[i..a]) && IsRuns(s[a..b], nd) && IsFraction(s[b..j], nd)
    ensures IsAmount(s[i..j], nd)
  {
    hide IsPrefix, IsRuns, IsFraction;
    Parts(s, i, a, b, j);
    assert IsAmountCut(s[i..j], a - i, b - i, nd);
  }

  lemma Parts(s: string, i: nat, a: nat, b: nat, j: nat)
    requires i <= a <= b <= j <= |s|
    ensures s[i..j][..a - i] == s[i..a] && s[i..j][a - i..b - i] == s[a..b] && s[i..j][b - i..] == s[b..j]
  {
    var t := s[i..j];
    assert forall k :: 0 <= k < |t| ==> t[k] == s[i + k];
    assert |t[a - i..b - i]| == b - a && forall k :: 0 <= k < b - a ==> t[a - i..b - i][k] == s[a..b][k];
  }

  /** Whatever amount begins at a position, the one that is found there is at least as long. */
  lemma MatchIsLongest(s: string, i: nat, j: nat, nd: set<char>)
    requires IsDigitClass(nd) && i <= j <= |s| && IsAmount(s[i..j], nd)
    ensures MatchEnd(s, i, nd).Some? && j <= MatchEnd(s, i, nd).value
  {
    hide IsAmount, IsPrefix, IsRuns, IsFraction, RunsEnd, FractionEnd;
    var a, b := Cut(s, i, j, nd);
    RunsEndLongest(s, a, b, nd);
    PrefixEndExact(s, i, a, nd);
    FractionFits(s, b, j, nd);
    assert b == RunsEnd(s, a, nd) || b == j;
  }

  lemma Cut(s: string, i: nat, j: nat, nd: set<char>) returns (a: nat, b: nat)
    requires i <= j <= |s| && IsAmount(s[i..j], nd)
    ensures i <= a < b <= j && IsPrefix(s[i..a]) && IsRuns(s[a..b], nd) && IsFraction(s[b..j], nd)
  {
    hide IsPrefix, IsFraction;
    var x: nat, y: nat :| IsAmountCut(s[i..j], x, y, nd);
    a, b := i + x, i + y;
    Parts(s, i, a, b, j);
  }

  lemma FractionFits(s: string, b: nat, j: nat, nd: set<char>)
    requires b <= j <= |s| && IsFraction(s[b..j], nd)
    ensures j <= FractionEnd(s, b, nd) && (j > b ==> s[b] == '.')
  {
    var t := s[b..j];
    if t != "" {
      assert t[0] == s[b] && t[1] == s[b + 1] && t[1..][0] == t[1];
      assert |t| > 2 ==> t[2] == s[b + 2] && t[1..][1] == t[2];
    }
  }

  lemma {:induction false} FindFromIsLeftmost(s: string, i: nat, nd: set<char>)
    requires i <= |s|
    ensures var r := FindAmount(s, i, nd);
            forall k :: i <= k < (if r.Some? then r.value.0 else |s| + 1) ==> MatchEnd(s, k, nd).None?
    ensures var r := FindAmount(s, i, nd); r.Some? ==> MatchEnd(s, r.value.0, nd) == Some(r.value.1)
    decreases |s| - i
  {
    if MatchEnd(s, i, nd).None? && i < |s| { FindFromIsLeftmost(s, i + 1, nd); }
  }

  /**
   * The extractor finds an amount exactly when the text holds one; the one it finds begins first,
   * and none that begins there is longer.
   */
  lemma FindIsLeftmostLongest(s: string, nd: set<char>)
    requires IsDigitClass(nd)
    ensures var r := FindAmount(s, 0, nd);
            && (r.Some? ==> IsAmount(s[r.value.0..r.value.1], nd))
            && forall i: nat, j: nat | i <= j <= |s| ::
                 IsAmount(s[i..j], nd) ==> r.Some? && r.value.0 <= i && (i == r.value.0 ==> j <= r.value.1)
  {
    var r := FindAmount(s, 0, nd);
    FindFromIsLeftmost(s, 0, nd);
    hide MatchEnd, FindAmount, IsAmount;
    if r.Some? { MatchIsAmount(s, r.value.0, nd); }
    forall i: nat, j: nat | i <= j <= |s| && IsAmount(s[i..j], nd)
      ensures r.Some? && r.value.0 <= i && (i == r.value.0 ==> j <= r.value.1)
    {
      MatchIsLongest(s, i, j, nd);
    }
  }

  // ---- Normalised amounts --------------------------------------------------------------------------

  /** What an amount found in a text means in kobo: its digits before the point and the two after it. */
  function KoboMeant(m: string): nat {
    var d := FirstDot(m);
    Value(Filter(m[..d], OnlyDigits)) * 100 + FractionValue(Filter(m[d..], OnlyDigits))
  }

  /** All its digits are ASCII digits. */
  predicate Plain(m: string, nd: set<char>) {
    forall c :: c in m && c in nd ==> IsDigit(c)
  }

  lemma {:induction false} NoHashNoChange(s: string)
    requires '#' !in s
    ensures NairaForHash(s) == s
  {
    if s != "" { NoHashNoChange(s[1..]); }
  }

  /** Normalising what is normalised changes nothing, whatever the text was. */
  lemma NormaliseIsIdempotent(m: string)
    ensures Normalise(Normalise(m)) == Normalise(m)
  {
    var x := NairaForHash(Filter(m, NoSpaces));
    var n := Normalise(m);
    assert forall i :: 0 <= i < |x| ==> x[i] != '#' && !IsWhitespace(x[i]);
    assert forall i :: 0 <= i < |n| ==> n[i] != '#' && !IsWhitespace(n[i]);
    FilterKeepsAll(n, NoSpaces);
    NoHashNoChange(n);
    assert !("NGN" <= n);
  }

  lemma PrefixFiltered(p: string) returns (q: string)
    requires IsPrefix(p)
    ensures q == "#" || q == [NAIRA] || q == "NGN"
    ensures Filter(p, NoSpaces) == q && Filter(p, OnlyDigits) == "" && '.' !in p
  {
    FilterKeepsNone(p, OnlyDigits);
    if p == "#" || p == [NAIRA] {
      q := p;
      FilterKeepsAll(p, NoSpaces);
    } else {
      q := "NGN";
      NgnFiltered(p);
    }
  }

  lemma NgnFiltered(p: string)
    requires |p| >= 3 && p[..3] == "NGN" && forall i :: 3 <= i < |p| ==> IsWhitespace(p[i])
    ensures Filter(p, NoSpaces) == "NGN"
  {
    hide Filter;
    var spaces := p[3..];
    assert p == "NGN" + spaces;
    FilterAppend("NGN", spaces, NoSpaces);
    FilterKeepsAll("NGN", NoSpaces);
    FilterKeepsNone(spaces, NoSpaces);
  }

  lemma PrefixHasNoDigit(p: string, nd: set<char>)
    requires IsDigitClass(nd) && IsPrefix(p)
    ensures forall c :: c in p ==> c !in nd
  {
    if |p| >= 3 && p[..3] == "NGN" {
      assert p[0] == p[..3][0] && p[1] == p[..3][1] && p[2] == p[..3][2];
    }
  }

  lemma FractionFiltered(t: string, nd: set<char>) returns (f: string)
    requires IsDigitClass(nd) && IsFraction(t, nd)
    ensures if t == "" then f == "" else t == "." + f
    ensures forall c :: c in f ==> c in nd
    ensures Filter(t, NoSpacesOrCommas) == t
    ensures AllDigits(f) ==> Filter(t, OnlyDigits) == f
  {
    f := if t == "" then "" else t[1..];
    assert forall i :: 0 < i < |t| ==> t[i] == t[1..][i - 1];
    FilterKeepsAll(t, NoSpacesOrCommas);
    if AllDigits(f) { FilterKeepsAll(f, OnlyDigits); }
  }

  lemma {:induction false} FilterTwice(r: string)
    ensures Filter(Filter(r, NoSpaces), NoSpacesOrCommas) == Filter(r, NoSpacesOrCommas)
  {
    if r != "" {
      FilterTwice(r[1..]);
      FilterAppend(if IsWhitespace(r[0]) then "" else [r[0]], Filter(r[1..], NoSpaces), NoSpacesOrCommas);
    }
  }

  lemma {:induction false} FilteredFrom(r: string, keep: Sieve)
    ensures forall c :: c in Filter(r, keep) <==> c in r && keep.Keeps(c)
  {
    if r != "" { FilteredFrom(r[1..], keep); }
  }

  lemma {:induction false} SameFilter(r: string, keep: Sieve, keep': Sieve)
    requires forall c :: c in r ==> keep.Keeps(c) == keep'.Keeps(c)
    ensures Filter(r, keep) == Filter(r, keep')
  {
    if r != "" { SameFilter(r[1..], keep, keep'); }
  }

  lemma RunsAreDigitsAndSeparators(r: string, nd: set<char>)
    requires IsDigitClass(nd) && IsRuns(r, nd)
    ensures forall c :: c in r ==> c in nd || IsSeparator(c)
    ensures '.' !in r && '#' !in r && r[0] in r && r[0] in nd
  {
    forall i | 0 <= i < |r| - 1 ensures r[i] in nd || IsSeparator(r[i]) {
      assert RunGoesOn(r, i, nd);
    }
  }

  lemma CurrencyBecomesNaira(q: string, rest: string)
    requires q == "#" || q == [NAIRA] || q == "NGN"
    requires '#' !in rest
    ensures var x := NairaForHash(q + rest); (if "NGN" <= x then [NAIRA] + x[3..] else x) == [NAIRA] + rest
  {
    var x := NairaForHash(q + rest);
    if q == "NGN" {
      assert x == q + rest;
      assert x[..3] == "NGN" && x[3..] == rest;
    } else {
      assert x == [NAIRA] + rest;
    }
  }

  lemma ThreeParts(m: string, a: nat, b: nat, keep: Sieve)
    requires a <= b <= |m|
    ensures m == m[..a] + (m[a..b] + m[b..])
    ensures Filter(m, keep) == Filter(m[..a], keep) + (Filter(m[a..b], keep) + Filter(m[b..], keep))
  {
    hide Filter;
    assert m[a..b] + m[b..] == m[a..] && m == m[..a] + m[a..];
    FilterAppend(m[..a], m[a..], keep);
    FilterAppend(m[a..b], m[b..], keep);
  }

  lemma FractionIsClean(t: string, nd: set<char>)
    requires IsDigitClass(nd) && IsFraction(t, nd)
    ensures Filter(t, NoSpaces) == t && '#' !in t
  {
    hide Filter;
    FilterKeepsAll(t, NoSpaces);
  }

  lemma RestIsClean(r: string, t: string, nd: set<char>)
    requires IsDigitClass(nd) && IsRuns(r, nd) && IsFraction(t, nd)
    ensures Filter(t, NoSpaces) == t && '#' !in Filter(r, NoSpaces) && '#' !in t
  {
    hide IsRuns, IsFraction, Filter, IsDigitClass;
    FractionIsClean(t, nd);
    RunsAreDigitsAndSeparators(r, nd);
    FilteredFrom(r, NoSpaces);
  }

  /** A normalised amount is a naira sign, the digits and commas of the groups, and the fraction. */
  lemma NormalisedShape(m: string, a: nat, b: nat, nd: set<char>)
    requires IsDigitClass(nd) && IsAmountCut(m, a, b, nd)
    ensures Normalise(m) == [NAIRA] + (Filter(m[a..b], NoSpaces) + m[b..])
  {
    hide IsAmountCut, Filter, NairaForHash, IsPrefix, IsRuns, IsFraction, IsDigitClass;
    CutParts(m, a, b, nd);
    var q := PrefixFiltered(m[..a]);
    RestIsClean(m[a..b], m[b..], nd);
    var rest := Filter(m[a..b], NoSpaces) + m[b..];
    ThreeParts(m, a, b, NoSpaces);
    CurrencyBecomesNaira(q, rest);
  }

  lemma MeantByCut(m: string, a: nat, b: nat, f: string, nd: set<char>)
    requires IsDigitClass(nd) && IsAmountCut(m, a, b, nd)
    requires AllDigits(f) && (if m[b..] == "" then f == "" else m[b..] == "." + f)
    ensures KoboMeant(m) == Value(Filter(m[a..b], OnlyDigits)) * 100 + FractionValue(f)
  {
    hide IsAmountCut, Filter, IsPrefix, IsRuns, IsFraction, Value, FractionValue, AllDigits, IsDigitClass;
    CutParts(m, a, b, nd);
    var q := PrefixFiltered(m[..a]);
    RunsAreDigitsAndSeparators(m[a..b], nd);
    var f' := FractionFiltered(m[b..], nd);
    assert f' == f;
    BeforeThePoint(m, a, b);
    DotAfter(m, b, f);
  }

  lemma BeforeThePoint(m: string, a: nat, b: nat)
    requires a <= b <= |m| && Filter(m[..a], OnlyDigits) == "" && '.' !in m[..a] && '.' !in m[a..b]
    ensures Filter(m[..b], OnlyDigits) == Filter(m[a..b], OnlyDigits) && '.' !in m[..b]
  {
    hide Filter;
    FilterAppend(m[..a], m[a..b], OnlyDigits);
    assert m[..a] + m[a..b] == m[..b];
    assert "" + Filter(m[a..b], OnlyDigits) == Filter(m[a..b], OnlyDigits);
  }

  lemma DotAfter(m: string, b: nat, f: string)
    requires b <= |m| && '.' !in m[..b] && (m[b..] == "" || m[b..] == "." + f)
    ensures FirstDot(m) == b
  {
    assert forall i :: 0 <= i < b ==> m[i] == m[..b][i];
    assert b < |m| ==> m[b] == m[b..][0];
  }

  lemma CutParts(m: string, a: nat, b: nat, nd: set<char>)
    requires IsAmountCut(m, a, b, nd)
    ensures a < b <= |m| && IsPrefix(m[..a]) && IsRuns(m[a..b], nd) && IsFraction(m[b..], nd)
  {}

  /** What is read: the run without its separators, and what follows the point. */
  lemma CutBodyReads(r: string, t: string, f: string, nd: set<char>)
    requires IsDigitClass(nd) && IsRuns(r, nd) && IsFraction(t, nd) && (if t == "" then f == "" else t == "." + f)
    ensures ParseAmountToKobo([NAIRA] + (Filter(r, NoSpaces) + t)) == KoboOf(Filter(r, NoSpacesOrCommas), f)
  {
    hide *;
    var g := FractionFiltered(t, nd);
    RunsAreDigitsAndSeparators(r, nd);
    FilteredFrom(r, NoSpacesOrCommas);
    EndsInNoSpace(r, t, nd);
    FilterTwice(r);
    var w, body := Filter(r, NoSpacesOrCommas), Filter(r, NoSpaces) + t;
    assert '.' !in w;
    FilterAppend(Filter(r, NoSpaces), t, NoSpacesOrCommas);
    assert t == "" ==> w + t == w;
    assert t != "" ==> w + t == w + "." + f;
    ReadsCleaned(body, w, f);
  }

  lemma EndsInNoSpace(r: string, t: string, nd: set<char>)
    requires IsDigitClass(nd) && IsRuns(r, nd) && IsFraction(t, nd)
    ensures var body := Filter(r, NoSpaces) + t; body != "" && !IsWhitespace(body[|body| - 1])
  {
    RunsAreDigitsAndSeparators(r, nd);
    FilteredFrom(r, NoSpaces);
    hide Filter, IsRuns;
    assert r[0] in Filter(r, NoSpaces);
    var body := Filter(r, NoSpaces) + t;
    if t == "" {
      assert body[|body| - 1] in Filter(r, NoSpaces);
    } else {
      assert body[|body| - 1] == t[|t| - 1];
    }
  }

  lemma PlainSum(p: string, r: string, t: string, f: string, nd: set<char>)
    requires IsDigitClass(nd) && (forall c :: c in p ==> c !in nd)
    requires if t == "" then f == "" else t == "." + f
    ensures Plain(p + (r + t), nd) <==> Plain(r, nd) && Plain(f, nd)
  {
    var m := p + (r + t);
    assert forall c :: c in m <==> c in p || c in r || c in t;
    assert forall c :: c in t <==> (t != "" && c == '.') || c in f;
  }

  lemma PlainRuns(r: string, nd: set<char>)
    requires IsDigitClass(nd) && IsRuns(r, nd)
    ensures Plain(r, nd) <==> AllDigits(Filter(r, NoSpacesOrCommas))
    ensures Plain(r, nd) ==> Filter(r, NoSpacesOrCommas) == Filter(r, OnlyDigits)
  {
    RunsAreDigitsAndSeparators(r, nd);
    FilteredFrom(r, NoSpacesOrCommas);
    hide IsRuns, Filter;
    var w := Filter(r, NoSpacesOrCommas);
    assert forall c :: c in w <==> c in r && c in nd;
    assert AllDigits(w) <==> forall c :: c in w ==> IsDigit(c);
    if Plain(r, nd) { SameFilter(r, NoSpacesOrCommas, OnlyDigits); }
  }

  lemma PlainDigits(f: string, nd: set<char>)
    requires IsDigitClass(nd) && forall c :: c in f ==> c in nd
    ensures Plain(f, nd) <==> AllDigits(f)
  {
    assert AllDigits(f) <==> forall c :: c in f ==> IsDigit(c);
  }

  /** The digits that are read are all ASCII digits exactly when those of the amount are. */
  lemma PlainParts(m: string, a: nat, b: nat, f: string, nd: set<char>)
    requires IsDigitClass(nd) && IsAmountCut(m, a, b, nd) && (if m[b..] == "" then f == "" else m[b..] == "." + f)
    ensures Plain(m, nd) <==> AllDigits(Filter(m[a..b], NoSpacesOrCommas)) && AllDigits(f)
    ensures Plain(m, nd) ==> Filter(m[a..b], NoSpacesOrCommas) == Filter(m[a..b], OnlyDigits)
  {
    hide *;
    CutParts(m, a, b, nd);
    PrefixHasNoDigit(m[..a], nd);
    var g := FractionFiltered(m[b..], nd);
    assert g == f;
    ThreeParts(m, a, b, NoSpaces);
    PlainSum(m[..a], m[a..b], m[b..], f, nd);
    PlainRuns(m[a..b], nd);
    PlainDigits(f, nd);
  }

  lemma CutParses(m: string, a: nat, b: nat, nd: set<char>)
    requires IsDigitClass(nd) && IsAmountCut(m, a, b, nd)
    ensures ParseAmountToKobo(Normalise(m)) ==
      if Plain(m, nd) && KoboMeant(m) <= I64_MAX then Some(KoboMeant(m)) else None
  {
    hide *;
    CutParts(m, a, b, nd);
    var r, t := m[a..b], m[b..];
    var f := FractionFiltered(t, nd);
    NormalisedShape(m, a, b, nd);
    CutBodyReads(r, t, f, nd);
    PlainParts(m, a, b, f, nd);
    if Plain(m, nd) {
      MeantByCut(m, a, b, f, nd);
      SomethingRead(r, nd);
      KoboOfParts(Filter(r, NoSpacesOrCommas), f);
    } else {
      KoboOfOthers(Filter(r, NoSpacesOrCommas), f);
    }
  }

  lemma SomethingRead(r: string, nd: set<char>)
    requires IsDigitClass(nd) && IsRuns(r, nd)
    ensures Filter(r, NoSpacesOrCommas) != ""
  {
    RunsAreDigitsAndSeparators(r, nd);
    FilteredFrom(r, NoSpacesOrCommas);
    assert r[0] in Filter(r, NoSpacesOrCommas);
  }

  lemma KoboOfOthers(w: string, f: string)
    requires !AllDigits(w) || !AllDigits(f)
    ensures KoboOf(w, f) == None
  {}

  /**
   * Every amount of the language, once normalised, is read as exactly the kobo its digits mean; it is
   * refused exactly when it has a digit that is not an ASCII digit or that number does not fit an i64.
   */
  lemma NormalisedAmountsParse(m: string, nd: set<char>)
    requires IsDigitClass(nd) && IsAmount(m, nd)
    ensures ParseAmountToKobo(Normalise(m)) ==
      if Plain(m, nd) && KoboMeant(m) <= I64_MAX then Some(KoboMeant(m)) else None
  {
    var a: nat, b: nat :| IsAmountCut(m, a, b, nd);
    CutParses(m, a, b, nd);
  }

  /** From the text of a receipt to kobo: the first amount in it, read as what its digits mean. */
  lemma ExtractedAmountIsWhatTheTextSays(text: string, nd: set<char>)
    requires IsDigitClass(nd)
    ensures var found := FindAmount(text, 0, nd);
            var amount := ExtractAmount(text, nd);
            if found.None? then amount.None?
            else
              var m := text[found.value.0..found.value.1];
              && IsAmount(m, nd) && amount.Some? && Normalise(amount.value) == amount.value
              && ParseAmountToKobo(amount.value) ==
                   if Plain(m, nd) && KoboMeant(m) <= I64_MAX then Some(KoboMeant(m)) else None
  {
    var found := FindAmount(text, 0, nd);
    FindIsLeftmostLongest(text, nd);
    hide IsAmount, Normalise, ParseAmountToKobo, KoboMeant, FindAmount, Plain;
    if found.Some? {
      var m := text[found.value.0..found.value.1];
      NormalisedAmountsParse(m, nd);
      NormaliseIsIdempotent(m);
    }
  }
}
