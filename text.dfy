/**
 * Character-level scanning shared by the map loader, the command parser and the
 * tournament argument check: the whitespace class of the "\s" regex and of
 * isspace, trimming, the splitting that a std::getline loop performs, and the
 * integer extraction of `stream >> int` and std::stoi.
 */
module Text {
  import opened Wrappers

  /** The characters that isspace and the "\s" class accept in the C locale. */
  predicate IsSpace(c: char) {
    c == ' ' || c == '\t' || c == '\n' || c == '\U{000B}' || c == '\U{000C}' || c == '\r'
  }

  predicate IsDigit(c: char) {
    '0' <= c <= '9'
  }

  predicate AllSpace(s: string) {
    forall i :: 0 <= i < |s| ==> IsSpace(s[i])
  }

  /** The length of the leading run of whitespace. */
  function LeadingSpace(s: string): (i: nat)
    ensures i <= |s|
    ensures forall k :: 0 <= k < i ==> IsSpace(s[k])
    ensures i < |s| ==> !IsSpace(s[i])
  {
    if s == [] || !IsSpace(s[0]) then 0 else 1 + LeadingSpace(s[1..])
  }

  /** Where the trailing run of whitespace of s starts, not looking before lo. */
  function TrailingSpace(s: string, lo: nat): (j: nat)
    requires lo <= |s|
    ensures lo <= j <= |s|
    ensures forall k :: j <= k < |s| ==> IsSpace(s[k])
    ensures j > lo ==> !IsSpace(s[j - 1])
    decreases |s|
  {
    if |s| == lo || !IsSpace(s[|s| - 1]) then |s|
    else TrailingSpace(s[..|s| - 1], lo)
  }

  /** The result of replacing the matches of "^\s+|\s+$" by nothing. */
  function Trim(s: string): string {
    var i := LeadingSpace(s);
    s[i..TrailingSpace(s, i)]
  }

  /** Trimming keeps the middle of s, cut only at whitespace, and leaves nothing to trim. */
  lemma TrimIsSlice(s: string)
    ensures exists i, j ::
      && 0 <= i <= j <= |s| && Trim(s) == s[i..j]
      && (forall k :: 0 <= k < i ==> IsSpace(s[k]))
      && (forall k :: j <= k < |s| ==> IsSpace(s[k]))
    ensures Trim(s) == [] || (!IsSpace(Trim(s)[0]) && !IsSpace(Trim(s)[|Trim(s)| - 1]))
  {
    var i := LeadingSpace(s);
    var j := TrailingSpace(s, i);
    assert Trim(s) == s[i..j];
  }

  /** The index of the first occurrence of c in s, or |s| when there is none. */
  function IndexOf(s: string, c: char): (i: nat)
    ensures i <= |s|
    ensures i < |s| ==> s[i] == c
    ensures forall k :: 0 <= k < i ==> s[k] != c
  {
    if s == [] then 0
    else if s[0] == c then 0
    else 1 + IndexOf(s[1..], c)
  }

  /** The first c in p + [c] + rest is the one after p when p has none. */
  lemma IndexOfAfter(p: string, c: char, rest: string)
    requires c !in p
    ensures IndexOf(p + [c] + rest, c) == |p|
  {
    var s := p + [c] + rest;
    assert forall k :: 0 <= k < |p| ==> s[k] == p[k] && p[k] in p;
    assert s[|p|] == c;
  }

  /**
   * The pieces that `while (std::getline(stream, piece, d))` collects from s:
   * one per delimiter, plus the text after the last delimiter when it is not
   * empty.
   */
  function Split(s: string, d: char): (r: seq<string>)
    ensures forall k, m :: 0 <= k < |r| && 0 <= m < |r[k]| ==> r[k][m] != d
    ensures s == [] <==> r == []
    decreases |s|
  {
    if s == [] then []
    else
      var i := IndexOf(s, d);
      if i == |s| then [s]
      else [s[..i]] + Split(s[i + 1..], d)
  }

  /** Joins pieces with the delimiter between them. */
  function Join(pieces: seq<string>, d: char): string {
    if pieces == [] then []
    else if |pieces| == 1 then pieces[0]
    else pieces[0] + [d] + Join(pieces[1..], d)
  }

  /** Splitting loses nothing except one trailing delimiter. */
  lemma {:induction false} SplitJoin(s: string, d: char)
    requires s == [] || s[|s| - 1] != d
    ensures Join(Split(s, d), d) == s
    decreases |s|
  {
    if s != [] {
      var i := IndexOf(s, d);
      if i < |s| {
        var rest := s[i + 1..];
        assert rest != [] && rest[|rest| - 1] == s[|s| - 1];
        SplitJoin(rest, d);
        assert Split(s, d) == [s[..i]] + Split(rest, d);
        assert s == s[..i] + [d] + rest;
      }
    }
  }

  /** Splitting what Join wrote gives the pieces back when the last piece is not empty. */
  lemma {:induction false} JoinSplit(pieces: seq<string>, d: char)
    requires pieces != [] && pieces[|pieces| - 1] != []
    requires forall k, m :: 0 <= k < |pieces| && 0 <= m < |pieces[k]| ==> pieces[k][m] != d
    ensures Split(Join(pieces, d), d) == pieces
    decreases |pieces|
  {
    var p := pieces[0];
    assert d !in p by {
      forall m | 0 <= m < |p|
        ensures p[m] != d
      {
        assert pieces[0][m] != d;
      }
    }
    if |pieces| == 1 {
      assert IndexOf(p, d) == |p|;
    } else {
      var rest := Join(pieces[1..], d);
      IndexOfAfter(p, d, rest);
      var s := p + [d] + rest;
      assert s[..|p|] == p && s[|p| + 1..] == rest;
      JoinSplit(pieces[1..], d);
      assert pieces == [p] + pieces[1..];
    }
  }

  /** The decimal value of a digit string. */
  function DecimalValue(digits: string): (v: nat)
    requires forall k :: 0 <= k < |digits| ==> IsDigit(digits[k])
  {
    if digits == [] then 0
    else 10 * DecimalValue(digits[..|digits| - 1]) + DigitValue(digits[|digits| - 1])
  }

  function DigitValue(c: char): (d: nat)
    requires IsDigit(c)
    ensures d < 10
  {
    c as int - '0' as int
  }

  /** The length of the leading run of decimal digits. */
  function LeadingDigits(s: string): (n: nat)
    ensures n <= |s|
    ensures forall k :: 0 <= k < n ==> IsDigit(s[k])
    ensures n < |s| ==> !IsDigit(s[n])
  {
    if s == [] || !IsDigit(s[0]) then 0 else 1 + LeadingDigits(s[1..])
  }

  const IntMin: int := -0x8000_0000
  const IntMax: int := 0x7FFF_FFFF

  /**
   * `stream >> n` for a 32-bit int n on the unread text s: skips whitespace,
   * takes an optional sign and at least one decimal digit, and fails when
   * there is no digit or the value does not fit. On success it gives the
   * value and the text still unread; the stream is at its end exactly when
   * that text is empty.
   */
  function ReadInt(s: string): (r: Option<(int, string)>)
    ensures r.Some? ==> IntMin <= r.value.0 <= IntMax
    ensures r.Some? ==> |r.value.1| < |s| && r.value.1 == s[|s| - |r.value.1|..]
    ensures r.Some? && r.value.1 != [] ==> !IsDigit(r.value.1[0])
  {
    var t := s[LeadingSpace(s)..];
    var negative := t != [] && t[0] == '-';
    var u := if t != [] && (t[0] == '-' || t[0] == '+') then t[1..] else t;
    var n := LeadingDigits(u);
    if n == 0 then None
    else
      var digits := u[..n];
      assert forall k :: 0 <= k < n ==> digits[k] == u[k];
      var magnitude: int := DecimalValue(digits);
      var v: int := if negative then -magnitude else magnitude;
      if IntMin <= v <= IntMax then Some((v, u[n..])) else None
  }

  /** `stream >> c` for a char c: skips whitespace and takes one character. */
  function ReadChar(s: string): (r: Option<(char, string)>)
    ensures r.Some? ==> !IsSpace(r.value.0) && |r.value.1| < |s| && r.value.1 == s[|s| - |r.value.1|..]
    ensures r.None? <==> AllSpace(s)
  {
    var t := s[LeadingSpace(s)..];
    if t != [] then Some((t[0], t[1..])) else None
  }

  /** std::stoi(s, 0, 10): a 32-bit prefix value, anything after the digits ignored; None where it throws. */
  function Stoi(s: string): (r: Option<int>)
    ensures r.Some? ==> IntMin <= r.value <= IntMax
  {
    match ReadInt(s)
    case None => None
    case Some((v, _)) => Some(v)
  }

  /** Reading a written-out natural number gives it back. */
  lemma {:induction false} DecimalValueOfDigits(digits: string, n: nat)
    requires forall k :: 0 <= k < |digits| ==> IsDigit(digits[k])
    requires digits == DecimalString(n)
    ensures DecimalValue(digits) == n
    decreases n
  {
    if n >= 10 {
      var prefix := DecimalString(n / 10);
      assert digits == prefix + [DigitChar(n % 10)];
      assert digits[..|digits| - 1] == prefix;
      DecimalValueOfDigits(prefix, n / 10);
    }
  }

  function DigitChar(d: nat): (c: char)
    requires d < 10
    ensures IsDigit(c) && DigitValue(c) == d
  {
    ('0' as int + d) as char
  }

  /** The decimal representation of n, without leading zeros. */
  function DecimalString(n: nat): (s: string)
    ensures |s| > 0 && forall k :: 0 <= k < |s| ==> IsDigit(s[k])
    decreases n
  {
    if n < 10 then [DigitChar(n)] else DecimalString(n / 10) + [DigitChar(n % 10)]
  }

  /** `stream >> n` reads back a natural number written in decimal and followed by no digit. */
  lemma ReadIntOfDecimal(v: nat, rest: string)
    requires v <= IntMax
    requires rest == [] || !IsDigit(rest[0])
    ensures ReadInt(DecimalString(v) + rest) == Some((v, rest))
  {
    var ds := DecimalString(v);
    var s := ds + rest;
    assert s[0] == ds[0];
    assert LeadingSpace(s) == 0;
    assert s[0..] == s;
    LeadingDigitsOf(ds, rest);
    assert s[..|ds|] == ds && s[|ds|..] == rest;
    DecimalValueOfDigits(ds, v);
  }

  lemma {:induction false} LeadingDigitsOf(digits: string, rest: string)
    requires forall k :: 0 <= k < |digits| ==> IsDigit(digits[k])
    requires rest == [] || !IsDigit(rest[0])
    ensures LeadingDigits(digits + rest) == |digits|
  {
    if digits == [] {
      assert digits + rest == rest;
    } else {
      assert (digits + rest)[1..] == digits[1..] + rest;
      LeadingDigitsOf(digits[1..], rest);
    }
  }

  /** `stream >> c` takes the next character when it is not whitespace. */
  lemma ReadCharAt(c: char, rest: string)
    requires !IsSpace(c)
    ensures ReadChar([c] + rest) == Some((c, rest))
  {
    assert LeadingSpace([c] + rest) == 0;
  }
}
