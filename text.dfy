/**
 * The few JavaScript string operations the component relies on:
 * String.prototype.startsWith, String.prototype.includes and
 * Number.prototype.toString on non-negative integers.
 */
module Text {

  /** `s.startsWith(p)`: p is a prefix of s. */
  predicate StartsWith(s: string, p: string)
  {
    |p| <= |s| && s[..|p|] == p
  }

  /** `s.includes(p)`: p occurs in s at some position (search from the left). */
  predicate Contains(s: string, p: string)
    decreases |s|
  {
    StartsWith(s, p) || (|s| > 0 && Contains(s[1..], p))
  }

  /** p occurs in s starting at index i. */
  predicate OccursAt(s: string, p: string, i: int)
  {
    0 <= i && i + |p| <= |s| && s[i..i + |p|] == p
  }

  /** The left-to-right search finds p exactly when p occurs at some index. */
  lemma {:induction false} ContainsIff(s: string, p: string)
    ensures Contains(s, p) <==> exists i :: OccursAt(s, p, i)
    decreases |s|
  {
    if StartsWith(s, p) {
      assert OccursAt(s, p, 0);
    } else if |s| > 0 {
      ContainsIff(s[1..], p);
      if Contains(s[1..], p) {
        var j :| OccursAt(s[1..], p, j);
        assert s[j + 1..j + 1 + |p|] == s[1..][j..j + |p|];
        assert OccursAt(s, p, j + 1);
      }
      forall i | OccursAt(s, p, i)
        ensures Contains(s[1..], p)
      {
        assert i != 0;
        assert s[1..][i - 1..i - 1 + |p|] == s[i..i + |p|];
        assert OccursAt(s[1..], p, i - 1);
      }
    }
  }

  /** Whatever surrounds an occurrence of p, the search finds it. */
  lemma {:induction false} ContainsInfix(a: string, p: string, c: string)
    ensures Contains(a + p + c, p)
  {
    if a == [] {
      assert a + p + c == p + c;
      assert (p + c)[..|p|] == p;
    } else {
      assert (a + p + c)[1..] == a[1..] + p + c;
      ContainsInfix(a[1..], p, c);
    }
  }

  /** A string that lacks the first character of p cannot contain p. */
  lemma {:induction false} MissingFirstChar(s: string, p: string)
    requires |p| > 0 && p[0] !in s
    ensures !Contains(s, p)
  {
    if |s| > 0 {
      assert s[0] != p[0];
      assert s[1..] <= s[1..];
      assert forall c :: c in s[1..] ==> c in s;
      MissingFirstChar(s[1..], p);
    }
  }

  /** An occurrence of p inside an occurrence of x is an occurrence of p. */
  lemma ContainsTransitive(s: string, x: string, p: string)
    requires Contains(s, x) && Contains(x, p)
    ensures Contains(s, p)
  {
    ContainsIff(s, x);
    ContainsIff(x, p);
    var i :| OccursAt(s, x, i);
    var j :| OccursAt(x, p, j);
    var w := s[i..i + |x|];
    assert w == x;
    forall k | 0 <= k < |p|
      ensures s[i + j..i + j + |p|][k] == p[k]
    {
      assert s[i + j + k] == w[j + k] == x[j..j + |p|][k];
    }
    assert s[i + j..i + j + |p|] == p;
    assert OccursAt(s, p, i + j);
    ContainsIff(s, p);
  }

  /**
   * Joining two strings that lack p around a separator none of whose
   * characters occurs in p creates no occurrence of p.
   */
  lemma ContainsNotAcrossSeparator(a: string, sep: string, c: string, p: string)
    requires !Contains(a, p) && !Contains(c, p)
    requires |sep| > 0 && forall k :: 0 <= k < |sep| ==> sep[k] !in p
    ensures !Contains(a + sep + c, p)
  {
    var m := a + sep + c;
    ContainsIff(a, p);
    ContainsIff(c, p);
    forall i
      ensures !OccursAt(m, p, i)
    {
      if i + |p| <= |a| {
        assert !OccursAt(a, p, i);
        assert 0 <= i ==> m[i..i + |p|] == a[i..i + |p|];
      } else if i >= |a| + |sep| {
        assert !OccursAt(c, p, i - |a| - |sep|);
        assert i + |p| <= |m| ==> m[i..i + |p|] == c[i - |a| - |sep|..i - |a| - |sep| + |p|];
      } else if 0 <= i && i + |p| <= |m| {
        var k := if i < |a| then |a| else i;
        assert m[i..i + |p|][k - i] == sep[k - |a|];
        assert sep[k - |a|] !in p;
      }
    }
    ContainsIff(m, p);
  }

  predicate IsDigit(c: char)
  {
    '0' <= c <= '9'
  }

  /** Every character of s is a decimal digit. */
  predicate AllDigits(s: string)
  {
    forall i :: 0 <= i < |s| ==> IsDigit(s[i])
  }

  function DigitValue(c: char): (d: nat)
    requires IsDigit(c)
    ensures d < 10
  {
    c as int - '0' as int
  }

  function DigitChar(d: nat): (c: char)
    requires d < 10
    ensures IsDigit(c) && DigitValue(c) == d
  {
    ('0' as int + d) as char
  }

  /** `n.toString()` for a non-negative integer: its decimal digits, most significant first. */
  function NatToString(n: nat): (s: string)
    ensures |s| > 0
    ensures AllDigits(s)
    ensures n > 0 ==> s[0] != '0'
    decreases n
  {
    if n < 10 then [DigitChar(n)] else NatToString(n / 10) + [DigitChar(n % 10)]
  }

  /** The number a string of decimal digits denotes (the reference reading of a count). */
  function DigitsValue(s: string): nat
    requires AllDigits(s)
    decreases |s|
  {
    if s == [] then 0
    else 10 * DigitsValue(s[..|s| - 1]) + DigitValue(s[|s| - 1])
  }

  /** Reading back the printed form of n gives n. */
  lemma {:induction false} NatToStringRoundTrip(n: nat)
    ensures DigitsValue(NatToString(n)) == n
    decreases n
  {
    var s := NatToString(n);
    if n >= 10 {
      NatToStringRoundTrip(n / 10);
      assert s[..|s| - 1] == NatToString(n / 10);
    }
  }

}
