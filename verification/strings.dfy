/**
 * Text helpers shared by the model: Java's `%d` rendering of a `long`
 * (decimal, leading '-' for negatives, no leading zeros), its inverse,
 * and splitting/joining on a separator character.
 */
module Strings {
  import opened Wrappers

  /** Java's `long` range; request ids arrive as a `Long` path variable. */
  const MinLong: int := -0x8000_0000_0000_0000
  const MaxLong: int := 0x7FFF_FFFF_FFFF_FFFF
  type Long = x: int | MinLong <= x <= MaxLong

  predicate IsDigit(c: char) {
    '0' <= c <= '9'
  }

  predicate AllDigits(s: string) {
    forall i :: 0 <= i < |s| ==> IsDigit(s[i])
  }

  function DigitChar(d: nat): (c: char)
    requires d < 10
    ensures IsDigit(c)
  {
    (('0' as int) + d) as char
  }

  function DigitValue(c: char): (d: nat)
    requires IsDigit(c)
    ensures d < 10
    ensures DigitChar(d) == c
  {
    (c as int) - ('0' as int)
  }

  /** Decimal text of a natural number with no superfluous leading zero. */
  predicate IsCanonicalNat(s: string) {
    |s| > 0 && AllDigits(s) && (|s| > 1 ==> s[0] != '0')
  }

  /** Decimal text of an integer: a canonical natural, optionally preceded by '-'
      when the magnitude is not zero (Java never prints "-0"). */
  predicate IsCanonicalInt(s: string) {
    || IsCanonicalNat(s)
    || (|s| > 1 && s[0] == '-' && IsCanonicalNat(s[1..]) && s[1] != '0')
  }

  /** `%d` of a non-negative value. */
  function NatToDecimal(n: nat): (s: string)
    ensures |s| > 0 && AllDigits(s)
    ensures s[0] == '0' <==> n == 0
    ensures |s| == 1 <==> n < 10
    decreases n
  {
    if n < 10 then [DigitChar(n)] else NatToDecimal(n / 10) + [DigitChar(n % 10)]
  }

  /** `%d` of any integer (Java's `String.format("%d", aLong)`). */
  function IntToDecimal(x: int): (s: string)
    ensures IsCanonicalInt(s)
    ensures s[0] == '-' <==> x < 0
    ensures forall i :: 0 <= i < |s| ==> IsDigit(s[i]) || (i == 0 && s[i] == '-')
  {
    if x < 0 then "-" + NatToDecimal(-x) else NatToDecimal(x)
  }

  /** The number a string of digits denotes, most significant digit first. */
  function DecimalValue(s: string): nat
    requires AllDigits(s)
  {
    if |s| == 0 then 0 else DecimalValue(s[..|s| - 1]) * 10 + DigitValue(s[|s| - 1])
  }

  /** Reads back an optionally signed decimal; None for anything else. */
  function ParseDecimal(s: string): Option<int> {
    if |s| > 1 && s[0] == '-' && AllDigits(s[1..]) then Some(0 - DecimalValue(s[1..]) as int)
    else if |s| > 0 && AllDigits(s) then Some(DecimalValue(s))
    else None
  }

  lemma {:induction false} NatRoundTrip(n: nat)
    ensures DecimalValue(NatToDecimal(n)) == n
    decreases n
  {
    if n >= 10 {
      var s := NatToDecimal(n);
      assert s[..|s| - 1] == NatToDecimal(n / 10);
      NatRoundTrip(n / 10);
    }
  }

  lemma {:induction false} CanonicalNatRoundTrip(s: string)
    requires IsCanonicalNat(s)
    ensures NatToDecimal(DecimalValue(s)) == s
    decreases |s|
  {
    if |s| > 1 {
      var p := s[..|s| - 1];
      assert p[0] == s[0];
      CanonicalNatRoundTrip(p);
      var v := DecimalValue(s);
      assert v / 10 == DecimalValue(p) && v % 10 == DigitValue(s[|s| - 1]);
      assert DecimalValue(p) != 0;
      assert s == p + [s[|s| - 1]];
    }
  }

  /** `%d` text can be read back: the rendering is injective. */
  lemma IntRoundTrip(x: int)
    ensures ParseDecimal(IntToDecimal(x)) == Some(x)
  {
    if x < 0 {
      NegativeRoundTrip(-x);
    } else {
      NonNegativeRoundTrip(x);
    }
  }

  lemma NegativeRoundTrip(n: nat)
    requires n > 0
    ensures ParseDecimal("-" + NatToDecimal(n)) == Some(-(n as int))
  {
    var t := NatToDecimal(n);
    var s := "-" + t;
    assert s[1..] == t;
    NatRoundTrip(n);
  }

  lemma NonNegativeRoundTrip(n: nat)
    ensures ParseDecimal(NatToDecimal(n)) == Some(n)
  {
    var s := NatToDecimal(n);
    assert s[0] != '-';
    NatRoundTrip(n);
  }

  /** A string is the `%d` text of `x` exactly when it is canonical decimal text
      that reads back as `x`. */
  lemma DecimalCharacterisation(x: int, s: string)
    ensures IntToDecimal(x) == s <==> IsCanonicalInt(s) && ParseDecimal(s) == Some(x)
  {
    IntRoundTrip(x);
    if IsCanonicalInt(s) {
      CanonicalReadBack(s);
    }
  }

  /** Canonical text reads back to a number whose `%d` text it is. */
  lemma CanonicalReadBack(s: string)
    requires IsCanonicalInt(s)
    ensures ParseDecimal(s).Some? && IntToDecimal(ParseDecimal(s).value) == s
  {
    if s[0] == '-' {
      var t := s[1..];
      var n := DecimalValue(t);
      CanonicalNatRoundTrip(t);
      assert s == "-" + NatToDecimal(n);
      NegativeRoundTrip(n);
    } else {
      var n := DecimalValue(s);
      CanonicalNatRoundTrip(s);
      NonNegativeRoundTrip(n);
    }
  }

  /** Index of the first occurrence of `x` in `s`. */
  function FirstIndex<T(==)>(s: seq<T>, x: T): (i: nat)
    requires x in s
    ensures i < |s| && s[i] == x && x !in s[..i]
  {
    if s[0] == x then 0 else 1 + FirstIndex(s[1..], x)
  }

  /** `parts` joined with `sep` between consecutive parts. */
  function Join(parts: seq<string>, sep: string): string {
    if |parts| == 0 then ""
    else if |parts| == 1 then parts[0]
    else parts[0] + sep + Join(parts[1..], sep)
  }

  /** The maximal pieces of `s` between occurrences of `sep` (an empty piece
      where two separators meet or at either end). */
  function Split(s: string, sep: char): (parts: seq<string>)
    ensures |parts| > 0
    ensures forall i :: 0 <= i < |parts| ==> sep !in parts[i]
    decreases |s|
  {
    if sep !in s then [s]
    else
      var i := FirstIndex(s, sep);
      [s[..i]] + Split(s[i + 1..], sep)
  }

  lemma {:induction false} SplitThenJoin(s: string, sep: char)
    ensures Join(Split(s, sep), [sep]) == s
    decreases |s|
  {
    if sep in s {
      var i := FirstIndex(s, sep);
      SplitThenJoin(s[i + 1..], sep);
      assert s == s[..i] + [sep] + s[i + 1..];
    }
  }

  lemma {:induction false} JoinThenSplit(parts: seq<string>, sep: char)
    requires |parts| > 0
    requires forall i :: 0 <= i < |parts| ==> sep !in parts[i]
    ensures Split(Join(parts, [sep]), sep) == parts
    decreases |parts|
  {
    if |parts| > 1 {
      var rest := Join(parts[1..], [sep]);
      assert Join(parts, [sep]) == parts[0] + [sep] + rest;
      SplitAtFirst(parts[0], sep, rest);
      JoinThenSplit(parts[1..], sep);
      assert parts == [parts[0]] + parts[1..];
    }
  }

  /** Splitting text whose first separator follows `head`. */
  lemma SplitAtFirst(head: string, sep: char, rest: string)
    requires sep !in head
    ensures Split(head + [sep] + rest, sep) == [head] + Split(rest, sep)
  {
    var s := head + [sep] + rest;
    assert s[|head|] == sep;
    var i := FirstIndex(s, sep);
    assert s[..|head|] == head;
    assert i == |head|;
    assert s[i + 1..] == rest;
  }

  lemma {:induction false} JoinSnoc(parts: seq<string>, p: string, sep: string)
    ensures Join(parts + [p], sep) == if |parts| == 0 then p else Join(parts, sep) + sep + p
    decreases |parts|
  {
    if |parts| > 1 {
      assert (parts + [p])[1..] == parts[1..] + [p];
      JoinSnoc(parts[1..], p, sep);
    }
  }

  /** A join starts with its first part and ends with its last part. */
  lemma {:induction false} JoinEnds(parts: seq<string>, sep: string)
    requires |parts| > 0
    ensures |Join(parts, sep)| >= |parts[0]| && |Join(parts, sep)| >= |parts[|parts| - 1]|
    ensures Join(parts, sep)[..|parts[0]|] == parts[0]
    ensures Join(parts, sep)[|Join(parts, sep)| - |parts[|parts| - 1]|..] == parts[|parts| - 1]
    decreases |parts|
  {
    if |parts| > 1 {
      JoinEnds(parts[1..], sep);
      var j := Join(parts, sep);
      var rest := Join(parts[1..], sep);
      assert j == parts[0] + sep + rest;
      assert j[|j| - |rest|..] == rest;
    }
  }

  /** Concatenation regrouped. */
  lemma Assoc<T>(a: seq<T>, b: seq<T>, c: seq<T>)
    ensures (a + b) + c == a + (b + c)
  {
  }
}
