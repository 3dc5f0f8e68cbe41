/**
 The text operations of the Java library that the wire formats are built from:
 String.join, String.split on one literal character, decimal rendering and parsing.
 */
module JavaText {
  import opened Wrappers

  /** Java's String.join with a one-character delimiter. */
  function Join(d: char, parts: seq<string>): string {
    if |parts| == 0 then ""
    else if |parts| == 1 then parts[0]
    else parts[0] + [d] + Join(d, parts[1..])
  }

  ghost predicate Without(d: char, parts: seq<string>) {
    forall i :: 0 <= i < |parts| ==> d !in parts[i]
  }

  /** Every piece of s between occurrences of d, empty pieces included. */
  function Pieces(s: string, d: char): (r: seq<string>)
    ensures |r| > 0
    ensures Without(d, r)
  {
    if s == "" then [""]
    else
      var rest := Pieces(s[1..], d);
      if s[0] == d then [""] + rest
      else [[s[0]] + rest[0]] + rest[1..]
  }

  function DropTrailingEmpty(parts: seq<string>): (r: seq<string>)
    ensures r <= parts
    ensures r != [] ==> r[|r| - 1] != ""
    ensures forall i :: |r| <= i < |parts| ==> parts[i] == ""
  {
    if parts != [] && parts[|parts| - 1] == "" then DropTrailingEmpty(parts[..|parts| - 1]) else parts
  }

  /** Java's String.split: the whole text when d does not occur, else the pieces without trailing empty ones. */
  function Split(s: string, d: char): (r: seq<string>)
    ensures Without(d, r)
  {
    if d !in s then [s] else DropTrailingEmpty(Pieces(s, d))
  }

  lemma Regrouped(first: seq<string>, rest: seq<string>, more: seq<string>)
    requires rest != []
    ensures (rest + more)[0] == rest[0]
    ensures first + (rest + more) == first + rest + more
    ensures first + (rest + more)[1..] == first + rest[1..] + more
  {
    assert (rest + more)[1..] == rest[1..] + more;
  }

  /** A delimiter always cuts. */
  lemma {:induction false} PiecesOfBoth(s: string, t: string, d: char)
    ensures Pieces(s + [d] + t, d) == Pieces(s, d) + Pieces(t, d)
  {
    var all := s + [d] + t;
    if s == "" {
      assert all[1..] == t;
    } else {
      assert all[1..] == s[1..] + [d] + t;
      PiecesOfBoth(s[1..], t, d);
      var rest := Pieces(s[1..], d);
      Regrouped(if s[0] == d then [""] else [[s[0]] + rest[0]], rest, Pieces(t, d));
    }
  }

  lemma {:induction false} PiecesOfPlain(s: string, d: char)
    requires d !in s
    ensures Pieces(s, d) == [s]
  {
    if s != "" {
      PiecesOfPlain(s[1..], d);
      assert s == [s[0]] + s[1..];
    }
  }

  lemma PiecesOfPrefix(p: string, t: string, d: char)
    requires d !in p
    ensures Pieces(p + [d] + t, d) == [p] + Pieces(t, d)
  {
    PiecesOfPlain(p, d);
    PiecesOfBoth(p, t, d);
  }

  /** What is before the first delimiter, and what is behind it. */
  lemma {:induction false} CutAtFirst(s: string, d: char) returns (rest: string)
    requires d in s
    ensures s == Pieces(s, d)[0] + [d] + rest
  {
    if s[0] == d {
      rest := s[1..];
    } else {
      rest := CutAtFirst(s[1..], d);
    }
  }

  /** Cutting a joined text gives the parts back. */
  lemma {:induction false} PiecesOfJoin(d: char, parts: seq<string>)
    requires parts != [] && Without(d, parts)
    ensures Pieces(Join(d, parts), d) == parts
  {
    if |parts| == 1 {
      PiecesOfPlain(parts[0], d);
    } else {
      PiecesOfJoin(d, parts[1..]);
      PiecesOfPrefix(parts[0], Join(d, parts[1..]), d);
    }
  }

  /**
   Java's split undoes join exactly when there are parts and the last of several is not an empty one, which split
   drops.
   */
  lemma SplitOfJoin(d: char, parts: seq<string>)
    requires Without(d, parts)
    ensures Split(Join(d, parts), d) == parts <==> parts != [] && (|parts| == 1 || parts[|parts| - 1] != "")
  {
    if parts != [] {
      PiecesOfJoin(d, parts);
      if |parts| > 1 {
        assert Join(d, parts)[|parts[0]|] == d;
        assert Split(Join(d, parts), d) == DropTrailingEmpty(parts);
      }
    }
  }

  /** A delimiter occurs in a joined text only if it is the joining one or occurs in a part. */
  lemma {:induction false} JoinWithout(c: char, d: char, parts: seq<string>)
    requires c != d && Without(c, parts)
    ensures c !in Join(d, parts)
  {
    if |parts| > 1 {
      JoinWithout(c, d, parts[1..]);
    }
  }

  /** Joining is associative: a joined group can stand for its parts. */
  lemma {:induction false} JoinNested(d: char, xs: seq<string>, ys: seq<string>)
    requires xs != [] && ys != []
    ensures Join(d, xs + ys) == Join(d, xs) + [d] + Join(d, ys)
  {
    assert (xs + ys)[1..] == xs[1..] + ys;
    if |xs| > 1 {
      JoinNested(d, xs[1..], ys);
    }
  }

  // ---------- decimal numbers ----------

  predicate IsDigit(c: char) { '0' <= c <= '9' }

  function DigitChar(n: nat): char
    requires n < 10
  {
    "0123456789"[n]
  }

  function DigitValue(c: char): nat
    requires IsDigit(c)
  {
    c as int - '0' as int
  }

  function Digits(n: nat): (r: string)
    ensures r != "" && forall c :: c in r ==> IsDigit(c)
  {
    if n < 10 then [DigitChar(n)] else Digits(n / 10) + [DigitChar(n % 10)]
  }

  /** String.valueOf of an integer. */
  function Dec(n: int): (r: string)
    ensures r != ""
    ensures '#' !in r && '_' !in r
  {
    if n < 0 then "-" + Digits(-n) else Digits(n)
  }

  function ParseDigits(s: string): Option<int> {
    if s == "" || !IsDigit(s[|s| - 1]) then None
    else if |s| == 1 then Some(DigitValue(s[0]))
    else
      match ParseDigits(s[..|s| - 1])
      case None => None
      case Some(hi) => Some(hi * 10 + DigitValue(s[|s| - 1]))
  }

  /** The signed decimal number that s spells, if any; a leading sign is allowed. */
  function ParseSigned(s: string): Option<int> {
    if s != "" && s[0] == '-' then
      match ParseDigits(s[1..])
      case None => None
      case Some(n) => Some(-n)
    else if s != "" && s[0] == '+' then
      match ParseDigits(s[1..])
      case None => None
      case Some(n) => Some(n)
    else
      match ParseDigits(s)
      case None => None
      case Some(n) => Some(n)
  }

  predicate FitsInt(n: int) { -0x8000_0000 <= n < 0x8000_0000 }

  predicate FitsLong(n: int) { -0x8000_0000_0000_0000 <= n < 0x8000_0000_0000_0000 }

  /** Integer.parseInt; None stands for the exception it throws. */
  function ParseInt(s: string): Option<int> {
    match ParseSigned(s)
    case None => None
    case Some(n) => if FitsInt(n) then Some(n) else None
  }

  /** Long.parseLong; None stands for the exception it throws. */
  function ParseLong(s: string): Option<int> {
    match ParseSigned(s)
    case None => None
    case Some(n) => if FitsLong(n) then Some(n) else None
  }

  lemma {:induction false} ParseOfDigits(n: nat)
    ensures ParseDigits(Digits(n)) == Some(n)
  {
    if n < 10 {
    } else {
      ParseOfDigits(n / 10);
      var s := Digits(n);
      assert s[..|s| - 1] == Digits(n / 10);
    }
  }

  lemma DigitsHaveNoSign(n: nat)
    ensures Digits(n)[0] != '-' && Digits(n)[0] != '+'
  {
    assert Digits(n)[0] in Digits(n);
  }

  lemma ParseSignedPlain(s: string)
    requires s != "" && s[0] != '-' && s[0] != '+'
    ensures ParseSigned(s) == ParseDigits(s)
  {
  }

  lemma ParseSignedNegative(s: string, n: int)
    requires ParseDigits(s) == Some(n)
    ensures ParseSigned("-" + s) == Some(-n)
  {
    var t := "-" + s;
    assert t[0] == '-' && t[1..] == s;
  }

  /** Parsing the decimal rendering of any integer gives the integer back. */
  lemma ParseOfDec(n: int)
    ensures ParseSigned(Dec(n)) == Some(n)
  {
    if n < 0 {
      ParseOfDigits(-n);
      ParseSignedNegative(Digits(-n), -n);
    } else {
      ParseOfDigits(n);
      DigitsHaveNoSign(n);
      ParseSignedPlain(Digits(n));
    }
  }

  /** The parsers take exactly the numbers of their width. */
  lemma ParseIntOfDec(n: int)
    ensures ParseInt(Dec(n)) == if -2147483648 <= n <= 2147483647 then Some(n) else None
    ensures ParseLong(Dec(n)) == if -9223372036854775808 <= n <= 9223372036854775807 then Some(n) else None
  {
    ParseOfDec(n);
  }
}
