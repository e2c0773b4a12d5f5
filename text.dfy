/** The Option datatype used for the parsers that partner the formatters. */
module Wrappers {
  datatype Option<+T> = None | Some(value: T)
}

/**
 * Decimal rendering of integers, as JavaScript's `String(n)` gives it for a
 * whole number of magnitude below 10^21 (larger ones it writes in exponent
 * form), with its inverse, and the splitting of a label into tokens
 * separated by single spaces.
 */
module Text {
  import opened Wrappers

  predicate IsDigit(c: char) {
    '0' <= c <= '9'
  }

  function DigitValue(c: char): (d: nat)
    requires IsDigit(c)
    ensures d < 10
  {
    c as int - '0' as int
  }

  function DigitChar(d: nat): (c: char)
    requires d < 10
    ensures IsDigit(c) && DigitValue(c) == d
  {
    (d + '0' as int) as char
  }

  predicate AllDigits(s: string) {
    forall i :: 0 <= i < |s| ==> IsDigit(s[i])
  }

  /** A non-empty digit string with no superfluous leading zero. */
  predicate Canonical(s: string) {
    |s| >= 1 && AllDigits(s) && (|s| == 1 || s[0] != '0')
  }

  predicate NoSpace(s: string) {
    forall i :: 0 <= i < |s| ==> s[i] != ' '
  }

  /** The decimal digits of `n`, most significant first. */
  function NatText(n: nat): (s: string)
    ensures Canonical(s)
    ensures n >= 1 ==> s[0] != '0'
    decreases n
  {
    if n < 10 then [DigitChar(n)]
    else NatText(n / 10) + [DigitChar(n % 10)]
  }

  /** The number a string of digits denotes. */
  function NatValue(s: string): nat
    requires AllDigits(s)
    decreases |s|
  {
    if s == [] then 0 else 10 * NatValue(s[..|s| - 1]) + DigitValue(s[|s| - 1])
  }

  /**
   * `String(i)` for a whole number below 10^21 in magnitude: a minus sign
   * before the digits of a negative one.
   */
  function IntText(i: int): (s: string)
    ensures |s| >= 1 && NoSpace(s)
  {
    if i < 0 then "-" + NatText(-i) else NatText(i)
  }

  /** Reads back exactly the strings `IntText` produces. */
  function ParseInt(s: string): Option<int> {
    if |s| >= 2 && s[0] == '-' && Canonical(s[1..]) && s[1] != '0' then Some(-(NatValue(s[1..]) as int))
    else if Canonical(s) then Some(NatValue(s))
    else None
  }

  lemma {:induction false} NatValueOfText(n: nat)
    ensures NatValue(NatText(n)) == n
    decreases n
  {
    var s := NatText(n);
    if n >= 10 {
      assert s[..|s| - 1] == NatText(n / 10);
      NatValueOfText(n / 10);
    } else {
      assert s[..|s| - 1] == [];
    }
  }

  lemma {:induction false} NatValuePositive(s: string)
    requires |s| >= 1 && AllDigits(s) && s[0] != '0'
    ensures NatValue(s) >= 1
    decreases |s|
  {
    if |s| > 1 {
      NatValuePositive(s[..|s| - 1]);
    } else {
      assert s[..|s| - 1] == [];
    }
  }

  lemma {:induction false} NatTextOfValue(s: string)
    requires Canonical(s)
    ensures NatText(NatValue(s)) == s
    decreases |s|
  {
    var p := s[..|s| - 1];
    var d := DigitValue(s[|s| - 1]);
    assert DigitChar(d) == s[|s| - 1];
    if |s| == 1 {
      assert p == [];
      assert NatText(NatValue(s)) == [s[0]];
    } else {
      NatValuePositive(p);
      NatTextOfValue(p);
      var v := NatValue(s);
      assert v == 10 * NatValue(p) + d;
      assert v / 10 == NatValue(p) && v % 10 == d;
      assert s == p + [s[|s| - 1]];
    }
  }

  /** Every whole number's text reads back as that number. */
  lemma ParseIntOfText(i: int)
    ensures ParseInt(IntText(i)) == Some(i)
  {
    var s := IntText(i);
    if i < 0 {
      var digits := NatText(-i);
      assert s == "-" + digits;
      assert s[1..] == digits;
      assert s[0] == '-' && |s| >= 2 && s[1] == digits[0] != '0';
      NatValueOfText(-i);
      assert ParseInt(s) == Some(-(NatValue(digits) as int));
    } else {
      NatValueOfText(i);
      assert s[0] != '-';
    }
  }

  /** Whatever `ParseInt` accepts is the canonical text of the number it returns. */
  lemma TextOfParseInt(s: string, i: int)
    requires ParseInt(s) == Some(i)
    ensures IntText(i) == s
  {
    if |s| >= 2 && s[0] == '-' && Canonical(s[1..]) && s[1] != '0' {
      NatValuePositive(s[1..]);
      NatTextOfValue(s[1..]);
      assert s == "-" + s[1..];
    } else {
      NatTextOfValue(s);
    }
  }

  /** `parts` written out with a single space between neighbours. */
  function Join(parts: seq<string>): string
    requires |parts| >= 1
  {
    if |parts| == 1 then parts[0] else parts[0] + " " + Join(parts[1..])
  }

  /** The maximal space-free pieces of `s`, as `s.split(' ')` gives them. */
  function Split(s: string): (parts: seq<string>)
    ensures |parts| >= 1
  {
    if s == [] then [""]
    else if s[0] == ' ' then [""] + Split(s[1..])
    else
      var rest := Split(s[1..]);
      [[s[0]] + rest[0]] + rest[1..]
  }

  lemma {:induction false} SplitNoSpace(a: string)
    requires NoSpace(a)
    ensures Split(a) == [a]
    decreases |a|
  {
    if a != [] {
      SplitNoSpace(a[1..]);
      assert [a[0]] + a[1..] == a;
    }
  }

  lemma {:induction false} SplitAtSpace(a: string, b: string)
    requires NoSpace(a)
    ensures Split(a + " " + b) == [a] + Split(b)
    decreases |a|
  {
    var s := a + " " + b;
    if a == [] {
      assert s[1..] == b;
    } else {
      assert s[1..] == a[1..] + " " + b;
      SplitAtSpace(a[1..], b);
      assert [a[0]] + a[1..] == a;
    }
  }

  /** Splitting a join of space-free tokens gives the tokens back. */
  lemma {:induction false} SplitOfJoin(parts: seq<string>)
    requires |parts| >= 1
    requires forall k :: 0 <= k < |parts| ==> NoSpace(parts[k])
    ensures Split(Join(parts)) == parts
    decreases |parts|
  {
    if |parts| == 1 {
      SplitNoSpace(parts[0]);
    } else {
      SplitAtSpace(parts[0], Join(parts[1..]));
      SplitOfJoin(parts[1..]);
    }
  }

  lemma {:induction false} JoinOfSplit(s: string)
    ensures Join(Split(s)) == s
    decreases |s|
  {
    if s != [] {
      JoinOfSplit(s[1..]);
      var rest := Split(s[1..]);
      if s[0] == ' ' {
        assert s == " " + s[1..];
      } else if |rest| == 1 {
        assert s == [s[0]] + s[1..];
      } else {
        assert Join(rest) == rest[0] + " " + Join(rest[1..]);
        assert s == [s[0]] + s[1..];
      }
    }
  }
}
