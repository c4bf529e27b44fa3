/**
 * The string operations of Python that the scraper relies on:
 * `str.split` with a one-character separator, `str.join`, and `str(n)`
 * for a non-negative integer.
 */
module Text {
  /** Python's `s.split(d)`: the pieces between the separators, never fewer than one. */
  function Split(s: string, d: char): (r: seq<string>)
    ensures |r| >= 1
    decreases |s|
  {
    if s == [] then [""]
    else if s[0] == d then [""] + Split(s[1..], d)
    else
      var t := Split(s[1..], d);
      [[s[0]] + t[0]] + t[1..]
  }

  /** No piece of a split holds the separator. */
  lemma {:induction false} SplitPieces(s: string, d: char)
    ensures forall i :: 0 <= i < |Split(s, d)| ==> d !in Split(s, d)[i]
    decreases |s|
  {
    if s != [] {
      SplitPieces(s[1..], d);
      var t := Split(s[1..], d);
      if s[0] != d {
        assert forall i :: 1 <= i < |t| ==> Split(s, d)[i] == t[i];
      } else {
        assert forall i :: 1 <= i < |Split(s, d)| ==> Split(s, d)[i] == t[i - 1];
      }
    }
  }

  /** Python's `d.join(parts)`. */
  function Join(parts: seq<string>, d: char): string
    decreases |parts|
  {
    if parts == [] then ""
    else if |parts| == 1 then parts[0]
    else parts[0] + [d] + Join(parts[1..], d)
  }

  /** The first piece of a split is the text before the first separator. */
  lemma {:induction false} SplitHead(s: string, d: char)
    ensures Split(s, d)[0] <= s
    ensures |Split(s, d)[0]| < |s| ==> s[|Split(s, d)[0]|] == d
    decreases |s|
  {
    if s != [] && s[0] != d {
      SplitHead(s[1..], d);
    }
  }

  /** Text without the separator splits into itself alone. */
  lemma {:induction false} SplitWithoutSeparator(p: string, d: char)
    requires d !in p
    ensures Split(p, d) == [p]
    decreases |p|
  {
    if p != [] {
      assert d !in p[1..];
      SplitWithoutSeparator(p[1..], d);
      assert [p[0]] + p[1..] == p;
    }
  }

  /** A separator-free leading piece is split off as one piece. */
  lemma {:induction false} SplitLeadingPiece(p: string, d: char, rest: string)
    requires d !in p
    ensures Split(p + [d] + rest, d) == [p] + Split(rest, d)
    decreases |p|
  {
    if p == [] {
      assert (p + [d] + rest)[1..] == rest;
    } else {
      assert (p + [d] + rest)[1..] == p[1..] + [d] + rest;
      assert d !in p[1..];
      SplitLeadingPiece(p[1..], d, rest);
      assert [p[0]] + p[1..] == p;
    }
  }

  /** Joining separator-free pieces and splitting again gives back the pieces. */
  lemma {:induction false} SplitJoin(parts: seq<string>, d: char)
    requires |parts| >= 1
    requires forall i :: 0 <= i < |parts| ==> d !in parts[i]
    ensures Split(Join(parts, d), d) == parts
    decreases |parts|
  {
    if |parts| == 1 {
      SplitWithoutSeparator(parts[0], d);
    } else {
      SplitLeadingPiece(parts[0], d, Join(parts[1..], d));
      SplitJoin(parts[1..], d);
      assert [parts[0]] + parts[1..] == parts;
    }
  }

  /** Splitting and joining again gives back the text. */
  lemma {:induction false} JoinSplit(s: string, d: char)
    ensures Join(Split(s, d), d) == s
    decreases |s|
  {
    if s == [] {
    } else if s[0] == d {
      JoinSplit(s[1..], d);
      assert ([""] + Split(s[1..], d))[1..] == Split(s[1..], d);
      assert [d] + s[1..] == s;
    } else {
      var t := Split(s[1..], d);
      JoinSplit(s[1..], d);
      var r := [[s[0]] + t[0]] + t[1..];
      assert r[1..] == t[1..];
      if |t| == 1 {
        assert [s[0]] + s[1..] == s;
      } else {
        assert Join(t, d) == t[0] + [d] + Join(t[1..], d);
        assert [s[0]] + t[0] + [d] + Join(t[1..], d) == [s[0]] + s[1..];
        assert [s[0]] + s[1..] == s;
      }
    }
  }

  predicate IsDigit(c: char) {
    '0' <= c <= '9'
  }

  predicate AllDigits(s: string) {
    forall i :: 0 <= i < |s| ==> IsDigit(s[i])
  }

  function DigitChar(n: nat): (c: char)
    requires n < 10
    ensures IsDigit(c)
  {
    ('0' as int + n) as char
  }

  function DigitValue(c: char): (n: nat)
    requires IsDigit(c)
    ensures n < 10 && DigitChar(n) == c
  {
    c as int - '0' as int
  }

  /** The value of a string of decimal digits, read most significant digit first. */
  function DecimalValue(s: string): nat
    requires AllDigits(s)
    decreases |s|
  {
    if s == [] then 0
    else DecimalValue(s[..|s| - 1]) * 10 + DigitValue(s[|s| - 1])
  }

  /** Python's `str(n)` for `n >= 0`: decimal digits, with no leading zero unless `n == 0`. */
  function Decimal(n: nat): (r: string)
    ensures |r| >= 1 && AllDigits(r)
    ensures r[0] == '0' <==> n == 0
    ensures n == 0 ==> r == "0"
    decreases n
  {
    if n < 10 then [DigitChar(n)]
    else Decimal(n / 10) + [DigitChar(n % 10)]
  }

  /** Reading back what Decimal writes gives the number. */
  lemma {:induction false} DecimalRoundTrip(n: nat)
    ensures DecimalValue(Decimal(n)) == n
    decreases n
  {
    if n >= 10 {
      var r := Decimal(n);
      assert r[..|r| - 1] == Decimal(n / 10);
      DecimalRoundTrip(n / 10);
    } else {
      assert DigitValue(DigitChar(n)) == n;
    }
  }
}
