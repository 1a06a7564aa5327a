/** Small definitions shared by every part of the model. */
module Prelude {

  datatype Option<+T> = None | Some(value: T)

  /**
   * How one database statement ended, seen from the server.  A statement is atomic.
   * `Unconfirmed` is the case where the statement took effect but the server was told
   * that it failed, for instance because the connection dropped after the commit.
   */
  datatype Io = Answered | Refused | Unconfirmed {
    predicate Took() { !Refused? }
    predicate Failed() { !Answered? }
  }

  /** The database decides how a statement ends; nothing is known about its choice. */
  method AskDatabase() returns (io: Io)
  {
    io := *;
  }

  /** A name that is not in `used`: the idealised form of drawing random bytes. */
  method DrawFresh(used: set<nat>) returns (n: nat)
    ensures n !in used
  {
    n := 0;
    var rest := used;
    while rest != {}
      invariant rest <= used
      invariant forall x :: x in used ==> x in rest || x < n
      decreases rest
    {
      var x :| x in rest;
      rest := rest - {x};
      if n <= x { n := x + 1; }
    }
  }

  /** Unicode White_Space, as `char::is_whitespace`. */
  predicate IsWhitespace(c: char) {
    || '\U{0009}' <= c <= '\U{000D}' || c == ' ' || c == '\U{0085}' || c == '\U{00A0}' || c == '\U{1680}'
    || '\U{2000}' <= c <= '\U{200A}' || c == '\U{2028}' || c == '\U{2029}' || c == '\U{202F}'
    || c == '\U{205F}' || c == '\U{3000}'
  }

  function TrimStart(s: string): (r: string)
    ensures r != [] ==> !IsWhitespace(r[0])
    ensures |r| <= |s| && r == s[|s| - |r|..]
    ensures forall i :: 0 <= i < |s| - |r| ==> IsWhitespace(s[i])
  {
    if s != [] && IsWhitespace(s[0]) then TrimStart(s[1..]) else s
  }

  function TrimEnd(s: string): (r: string)
    ensures r != [] ==> !IsWhitespace(r[|r| - 1])
    ensures |r| <= |s| && r == s[..|r|]
    ensures forall i :: |r| <= i < |s| ==> IsWhitespace(s[i])
  {
    if s != [] && IsWhitespace(s[|s| - 1]) then TrimEnd(s[..|s| - 1]) else s
  }

  /** `str::trim` */
  function Trim(s: string): string { TrimEnd(TrimStart(s)) }

  lemma TrimmedAlready(s: string)
    requires s != "" && !IsWhitespace(s[0]) && !IsWhitespace(s[|s| - 1])
    ensures Trim(s) == s && TrimStart(s) == s
  {
  }

  /** `char::is_ascii_digit` */
  predicate IsDigit(c: char) { '0' <= c <= '9' }

  function DigitChar(d: nat): (c: char)
    requires d < 10
    ensures IsDigit(c)
  {
    ('0' as int + d) as char
  }

  function Pow10(w: nat): nat { if w == 0 then 1 else 10 * Pow10(w - 1) }

  // ---- Order of strings ------------------------------------------------------------------------

  /** Lexicographic order by code point. */
  predicate Less(a: string, b: string) {
    b != [] && (a == [] || a[0] < b[0] || (a[0] == b[0] && Less(a[1..], b[1..])))
  }

  lemma {:induction false} LessIsIrreflexive(a: string)
    ensures !Less(a, a)
  {
    if a != [] { LessIsIrreflexive(a[1..]); }
  }

  lemma {:induction false} LessIsTransitive(a: string, b: string, c: string)
    requires Less(a, b) && Less(b, c)
    ensures Less(a, c)
  {
    if a != [] && a[0] == b[0] && b[0] == c[0] { LessIsTransitive(a[1..], b[1..], c[1..]); }
  }
}
