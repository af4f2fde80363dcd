/** The optional-value wrapper used by the parsers below. */
module Wrappers {
  datatype Option<+T> = None | Some(value: T)
}

/**
  The decimal text that Swift's string interpolation produces for an `Int`
  (`"\(n)"`): an optional leading '-', then the digits of |n| with no leading
  zero (zero itself is "0"). `ParseInt` is its inverse, and the two lemmas at
  the end show that the pair is a bijection between the integers and the
  canonical decimal strings.
*/
module DecimalText {
  import opened Wrappers

  predicate IsDigit(c: char) {
    '0' <= c <= '9'
  }

  predicate AllDigits(s: string) {
    forall i :: 0 <= i < |s| ==> IsDigit(s[i])
  }

  /** A digit string as interpolation writes a natural number: non-empty, no leading zero. */
  predicate IsCanonicalNat(s: string) {
    |s| >= 1 && AllDigits(s) && (s[0] == '0' ==> |s| == 1)
  }

  function DigitChar(d: nat): (c: char)
    requires d < 10
    ensures IsDigit(c)
  {
    ('0' as int + d) as char
  }

  function DigitValue(c: char): (d: nat)
    requires IsDigit(c)
    ensures d < 10
    ensures DigitChar(d) == c
  {
    c as int - '0' as int
  }

  /** Decimal digits of a natural number, most significant first. */
  function NatToText(n: nat): (s: string)
    ensures IsCanonicalNat(s)
    ensures s[0] == '0' <==> n == 0
    decreases n
  {
    if n < 10 then [DigitChar(n)] else NatToText(n / 10) + [DigitChar(n % 10)]
  }

  /** The text of `"\(n)"` for an integer n. */
  function IntToText(n: int): (s: string)
    ensures |s| >= 1
    ensures s[0] == '-' <==> n < 0
    ensures n >= 0 ==> IsDigit(s[0])
    ensures forall i :: 1 <= i < |s| ==> IsDigit(s[i])
  {
    if n < 0 then "-" + NatToText(-n) else NatToText(n)
  }

  /** Value of a digit string, read most significant digit first. */
  function ParseNat(s: string): nat
    requires AllDigits(s)
    decreases |s|
  {
    if s == [] then 0 else 10 * ParseNat(s[..|s| - 1]) + DigitValue(s[|s| - 1])
  }

  /** Reads back a canonical decimal integer; anything else is `None`. */
  function ParseInt(s: string): Option<int> {
    if |s| >= 2 && s[0] == '-' && IsCanonicalNat(s[1..]) && s[1] != '0' then
      var magnitude: int := ParseNat(s[1..]);
      Some(-magnitude)
    else if IsCanonicalNat(s) then
      Some(ParseNat(s))
    else
      None
  }

  lemma {:induction false} ParseNatToText(n: nat)
    ensures ParseNat(NatToText(n)) == n
    decreases n
  {
    if n >= 10 {
      var prefix := NatToText(n / 10);
      var s := NatToText(n);
      assert s[..|s| - 1] == prefix;
      ParseNatToText(n / 10);
    }
  }

  /** A digit string reads as zero only if every digit is '0'. */
  lemma {:induction false} ParseNatZero(s: string)
    requires AllDigits(s) && ParseNat(s) == 0
    ensures forall i :: 0 <= i < |s| ==> s[i] == '0'
    decreases |s|
  {
    if s != [] {
      var prefix := s[..|s| - 1];
      ParseNatZero(prefix);
      forall i | 0 <= i < |s| ensures s[i] == '0' {
        if i < |s| - 1 {
          assert s[i] == prefix[i];
        }
      }
    }
  }

  lemma {:induction false} NatToTextParse(s: string)
    requires IsCanonicalNat(s)
    ensures NatToText(ParseNat(s)) == s
    decreases |s|
  {
    if |s| >= 2 {
      var prefix := s[..|s| - 1];
      assert IsCanonicalNat(prefix);
      if ParseNat(prefix) == 0 {
        ParseNatZero(prefix);
        assert false;
      }
      NatToTextParse(prefix);
      assert s == prefix + [s[|s| - 1]];
    }
  }

  /** Interpolating an integer and reading it back gives the integer. */
  lemma ParseIntToText(n: int)
    ensures ParseInt(IntToText(n)) == Some(n)
  {
    var s := IntToText(n);
    if n < 0 {
      assert s[1..] == NatToText(-n);
      ParseNatToText(-n);
    } else {
      ParseNatToText(n);
    }
  }

  /** Every string `ParseInt` accepts is exactly the interpolation of its value. */
  lemma IntToTextParse(s: string, n: int)
    requires ParseInt(s) == Some(n)
    ensures IntToText(n) == s
  {
    if |s| >= 2 && s[0] == '-' && IsCanonicalNat(s[1..]) && s[1] != '0' {
      NatToTextParse(s[1..]);
      assert ParseNat(s[1..]) != 0;
      assert s == "-" + s[1..];
    } else {
      NatToTextParse(s);
    }
  }

  /** Distinct integers have distinct texts. */
  lemma IntToTextInjective(a: int, b: int)
    ensures IntToText(a) == IntToText(b) <==> a == b
  {
    ParseIntToText(a);
    ParseIntToText(b);
  }
}
