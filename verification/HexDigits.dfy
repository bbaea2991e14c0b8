/**
 * Groups of hexadecimal digits as numbers: in lower case and without leading zeros, a number has one text.
 * (Used by the /64 key, src/lib/client-ip.ts.)
 */
module HexDigits {
  import opened Texts

  predicate HexChar(c: char) {
    '0' <= c <= '9' || 'a' <= c <= 'f' || 'A' <= c <= 'F'
  }

  function Digit(c: char): int
    requires HexChar(c)
  {
    if c <= '9' then c as int - '0' as int
    else if 'a' <= c then c as int - 'a' as int + 10
    else c as int - 'A' as int + 10
  }

  function Pow16(n: nat): int {
    if n == 0 then 1 else 16 * Pow16(n - 1)
  }

  predicate HexText(s: string) {
    forall i | 0 <= i < |s| :: HexChar(s[i])
  }

  function HexValue(s: string): int
    requires HexText(s)
  {
    if s == [] then 0 else Digit(s[0]) * Pow16(|s| - 1) + HexValue(s[1..])
  }

  lemma {:induction false} LowerHex(s: string)
    requires HexText(s)
    ensures |Lower(s)| == |s| && HexText(Lower(s)) && HexValue(Lower(s)) == HexValue(s)
  {
    LowerIndex(s);
    if s != [] {
      LowerHex(s[1..]);
      assert Lower(s)[1..] == Lower(s[1..]);
    }
  }

  lemma {:induction false} Pow16Positive(n: nat)
    ensures 1 <= Pow16(n)
  {
    if n > 0 {
      Pow16Positive(n - 1);
    }
  }

  lemma {:induction false} Pow16Grows(m: nat, n: nat)
    requires m <= n
    ensures Pow16(m) <= Pow16(n)
  {
    if m < n {
      Pow16Grows(m, n - 1);
      Pow16Positive(n - 1);
    }
  }

  lemma {:induction false} HexBound(s: string)
    requires HexText(s)
    ensures 0 <= HexValue(s) < Pow16(|s|)
    ensures s != [] && s[0] != '0' ==> Pow16(|s| - 1) <= HexValue(s)
  {
    if s != [] {
      HexBound(s[1..]);
      Pow16Positive(|s| - 1);
      DigitTimes(Digit(s[0]), Pow16(|s| - 1));
    }
  }

  lemma Times(a: int, b: int, p: int)
    requires a <= b && 0 <= p
    ensures a * p <= b * p
  {
    assert (b - a) * p >= 0;
  }

  lemma DigitTimes(d: int, p: int)
    requires 0 <= d <= 15 && 1 <= p
    ensures 0 <= d * p <= 15 * p && (1 <= d ==> p <= d * p)
  {
    Times(0, d, p);
    Times(d, 15, p);
    if 1 <= d {
      Times(1, d, p);
    }
  }

  predicate LowerText(s: string) {
    forall i | 0 <= i < |s| :: '0' <= s[i] <= '9' || 'a' <= s[i] <= 'f'
  }

  lemma LesserLead(d: int, e: int, p: int, x: int, y: int)
    requires 0 <= x < p && 0 <= y < p
    ensures d < e ==> d * p + x < e * p + y
  {
    if d < e {
      Times(d + 1, e, p);
      assert (d + 1) * p == d * p + p;
    }
  }

  /** Lower-case texts of one length and one value are the same text. */
  lemma {:induction false} HexInjective(s: string, t: string)
    requires LowerText(s) && LowerText(t) && |s| == |t| && HexValue(s) == HexValue(t)
    ensures s == t
  {
    if s != [] {
      HexBound(s[1..]);
      HexBound(t[1..]);
      LesserLead(Digit(s[0]), Digit(t[0]), Pow16(|s| - 1), HexValue(s[1..]), HexValue(t[1..]));
      LesserLead(Digit(t[0]), Digit(s[0]), Pow16(|s| - 1), HexValue(t[1..]), HexValue(s[1..]));
      assert s[0] == t[0];
      HexInjective(s[1..], t[1..]);
      assert s == [s[0]] + s[1..] && t == [t[0]] + t[1..];
    }
  }

  /** Leading zeros go, but not the last character. */
  function Strip(g: string): string {
    if |g| >= 2 && g[0] == '0' then Strip(g[1..]) else g
  }

  lemma {:induction false} StripKeeps(s: string)
    requires LowerText(s) && s != []
    ensures Strip(s) != [] && LowerText(Strip(s)) && HexValue(Strip(s)) == HexValue(s)
    ensures |Strip(s)| <= |s| && (|Strip(s)| == 1 || Strip(s)[0] != '0')
  {
    if |s| >= 2 && s[0] == '0' {
      StripKeeps(s[1..]);
      assert Digit(s[0]) == 0;
    }
  }

  /** Without leading zeros, a value has one text. */
  lemma {:induction false} StripIff(s: string, t: string)
    requires LowerText(s) && LowerText(t) && s != [] && t != []
    ensures Strip(s) == Strip(t) <==> HexValue(s) == HexValue(t)
  {
    StripKeeps(s);
    StripKeeps(t);
    if HexValue(s) == HexValue(t) {
      NotLonger(Strip(s), Strip(t));
      NotLonger(Strip(t), Strip(s));
      HexInjective(Strip(s), Strip(t));
    }
  }

  lemma {:induction false} NotLonger(s: string, t: string)
    requires LowerText(s) && LowerText(t) && s != [] && t != [] && HexValue(s) == HexValue(t)
    requires |s| == 1 || s[0] != '0'
    ensures |s| <= |t|
  {
    HexBound(s);
    HexBound(t);
    if |t| < |s| {
      Pow16Grows(|t|, |s| - 1);
      assert false;
    }
  }

  lemma {:induction false} StripKeepsPart(s: string)
    requires ':' !in s
    ensures ':' !in Strip(s)
  {
    if |s| >= 2 && s[0] == '0' {
      StripKeepsPart(s[1..]);
    }
  }
}
