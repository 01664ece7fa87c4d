/**
 String rules shared by the destinations: splitting at the first or the last
 occurrence of a separator character, and the decimal rendering of integers
 that Swift's string interpolation produces.
 */
module Strings {

  /** The part of `s` after its last `c`; all of `s` when `c` does not occur.
      This is `s.components(separatedBy: c).last`. */
  function AfterLast(s: string, c: char): (r: string)
    ensures |r| <= |s| && r == s[|s| - |r|..]
    ensures c !in r
    ensures |r| == |s| || s[|s| - |r| - 1] == c
  {
    if |s| == 0 then ""
    else if s[|s| - 1] == c then ""
    else
      var init := s[..|s| - 1];
      var rest := AfterLast(init, c);
      var r := rest + [s[|s| - 1]];
      assert s[|s| - |r|..] == init[|init| - |rest|..] + [s[|s| - 1]];
      r
  }

  /** The part of `s` before its first `c`; all of `s` when `c` does not occur.
      This is `s.components(separatedBy: c).first`. */
  function BeforeFirst(s: string, c: char): (r: string)
    ensures |r| <= |s| && r == s[..|r|]
    ensures c !in r
    ensures |r| == |s| || s[|r|] == c
  {
    if |s| == 0 then ""
    else if s[0] == c then ""
    else [s[0]] + BeforeFirst(s[1..], c)
  }

  /** Appending text free of `c` extends the segment after the last `c`. */
  lemma {:induction false} AfterLastAppend(s: string, t: string, c: char)
    requires c !in t
    ensures AfterLast(s + t, c) == AfterLast(s, c) + t
  {
    if |t| > 0 {
      var t' := t[..|t| - 1];
      assert (s + t)[..|s + t| - 1] == s + t';
      AfterLastAppend(s, t', c);
      assert t == t' + [t[|t| - 1]];
    } else {
      assert s + t == s;
    }
  }

  /** Nothing follows a trailing `c`. */
  lemma AfterLastAtSeparator(u: string, c: char)
    requires |u| > 0 && u[|u| - 1] == c
    ensures AfterLast(u, c) == ""
  {
  }

  /** When `c` occurs, `s` is what precedes its last `c`, then `c`, then the last segment. */
  lemma AfterLastSplits(s: string, c: char)
    requires c in s
    ensures |AfterLast(s, c)| < |s|
    ensures s == s[..|s| - |AfterLast(s, c)| - 1] + ([c] + AfterLast(s, c))
  {
    var r := AfterLast(s, c);
    assert |r| == |s| ==> r == s;
    var k := |s| - |r| - 1;
    assert s[k..] == [c] + r;
    assert s == s[..k] + s[k..];
  }

  /** The segment after the last `c` of `s + [c] + t` is `t` itself when `t` has no `c`. */
  lemma AfterLastSeparator(s: string, c: char, t: string)
    requires c !in t
    ensures AfterLast(s + ([c] + t), c) == t
  {
    var u := s + [c];
    assert s + ([c] + t) == u + t;
    AfterLastAtSeparator(u, c);
    AfterLastAppend(u, t, c);
    assert "" + t == t;
  }

  predicate IsDigit(ch: char) {
    '0' as int <= ch as int <= '9' as int
  }

  function Digit(d: nat): (ch: char)
    requires d < 10
    ensures IsDigit(ch) && ch as int - '0' as int == d
  {
    ('0' as int + d) as char
  }

  /** Decimal digits of `n`, most significant first, without leading zeros. */
  function NatToDecimal(n: nat): (r: string)
    ensures |r| >= 1
    ensures forall i :: 0 <= i < |r| ==> IsDigit(r[i])
    decreases n
  {
    if n < 10 then [Digit(n)] else NatToDecimal(n / 10) + [Digit(n % 10)]
  }

  /** The value of a string of decimal digits; the inverse of `NatToDecimal`. */
  function DecimalValue(s: string): nat
    requires forall i :: 0 <= i < |s| ==> IsDigit(s[i])
  {
    if |s| == 0 then 0
    else
      assert IsDigit(s[|s| - 1]);
      DecimalValue(s[..|s| - 1]) * 10 + (s[|s| - 1] as int - '0' as int)
  }

  lemma {:induction false} DecimalRoundTrip(n: nat)
    ensures DecimalValue(NatToDecimal(n)) == n
    decreases n
  {
    var r := NatToDecimal(n);
    if n < 10 {
      assert r[..|r| - 1] == [];
    } else {
      DecimalRoundTrip(n / 10);
      assert r[..|r| - 1] == NatToDecimal(n / 10);
    }
  }

  /** Swift's `String(i)` (and `"\(i)"`) for an `Int`: a minus sign before the
      digits of a negative number. */
  function IntToString(i: int): (r: string)
    ensures |r| >= 1 && (r[0] == '-' <==> i < 0)
  {
    if i < 0 then "-" + NatToDecimal(-i) else NatToDecimal(i)
  }

  /** Reads back a rendering made by `IntToString`. */
  function ParseInt(s: string): (r: int)
    requires |s| >= 1
    requires forall i :: (if s[0] == '-' then 1 else 0) <= i < |s| ==> IsDigit(s[i])
    requires s[0] == '-' ==> |s| >= 2
  {
    if s[0] == '-' then -(DecimalValue(s[1..]) as int) else DecimalValue(s)
  }

  lemma IntToStringRoundTrip(i: int)
    ensures var s := IntToString(i);
      |s| >= 1 && (s[0] == '-' <==> i < 0) &&
      (forall k :: (if s[0] == '-' then 1 else 0) <= k < |s| ==> IsDigit(s[k])) &&
      ParseInt(s) == i
  {
    var s := IntToString(i);
    if i < 0 {
      DecimalRoundTrip(-i);
      assert s[1..] == NatToDecimal(-i);
    } else {
      DecimalRoundTrip(i);
      assert IsDigit(s[0]);
    }
  }

  /** Distinct integers render as distinct strings. */
  lemma IntToStringInjective(i: int, j: int)
    ensures IntToString(i) == IntToString(j) <==> i == j
  {
    IntToStringRoundTrip(i);
    IntToStringRoundTrip(j);
  }
}
