/**
 * String helpers standing in for the Java library calls the core relies on:
 * `String.valueOf(int)`, `String.join`, `String.contains`, `endsWith`, and
 * repeated `StringBuilder.append`.
 */
module Strings {

  /** `n` copies of `unit`; no copies when `n <= 0` (a Java `for` loop that never runs). */
  function Repeat(unit: string, n: int): (r: string)
    ensures |r| == if n <= 0 then 0 else n * |unit|
    decreases if n <= 0 then 0 else n
  {
    if n <= 0 then "" else Repeat(unit, n - 1) + unit
  }

  /** Copy number `k` of `unit` sits at offset `k * |unit|`. */
  lemma {:induction false} RepeatChunk(unit: string, n: int, k: int)
    requires 0 <= k < n
    ensures OccursAt(Repeat(unit, n), unit, k * |unit|)
    decreases n
  {
    var u := |unit|;
    var r := Repeat(unit, n - 1);
    assert Repeat(unit, n) == r + unit;
    ChunkBounds(k, n, u);
    if k == n - 1 {
      assert |r| == k * u;
      assert (r + unit)[|r|..|r| + u] == unit;
    } else {
      RepeatChunk(unit, n - 1, k);
      SliceOfLeft(r, unit, k * u, k * u + u);
    }
  }

  /** The arithmetic behind `RepeatChunk`. */
  lemma ChunkBounds(k: int, n: int, u: nat)
    requires 0 <= k < n
    ensures 0 <= k * u
    ensures k < n - 1 ==> k * u + u <= (n - 1) * u
    ensures k == n - 1 ==> (n - 1) * u == k * u
  {
    var d := n - 1 - k;
    assert (n - 1) * u == k * u + d * u;
    assert 0 <= d * u;
  }

  /** A slice that lies in the left operand of a concatenation. */
  lemma SliceOfLeft(a: string, b: string, i: int, j: int)
    requires 0 <= i <= j <= |a|
    ensures (a + b)[i..j] == a[i..j]
  {
  }

  /** Every character of a repetition of a one-character unit is that character. */
  lemma {:induction false} RepeatChar(c: char, n: int, k: int)
    requires 0 <= k < n
    ensures Repeat([c], n)[k] == c
    decreases n
  {
    if k < n - 1 {
      RepeatChar(c, n - 1, k);
    }
  }

  /** Concatenation of all parts, in order (what `build(String...)` returns). */
  function Concat(parts: seq<string>): string
  {
    if parts == [] then "" else Concat(parts[..|parts| - 1]) + parts[|parts| - 1]
  }

  /** Concatenation distributes over splitting the argument list. */
  lemma {:induction false} ConcatAppend(a: seq<string>, b: seq<string>)
    ensures Concat(a + b) == Concat(a) + Concat(b)
    decreases |b|
  {
    if b == [] {
      assert a + b == a;
    } else {
      var b' := b[..|b| - 1];
      assert (a + b)[..|a + b| - 1] == a + b';
      ConcatAppend(a, b');
    }
  }

  /** The length of a concatenation is the sum of the lengths of its parts. */
  function TotalLength(parts: seq<string>): nat
  {
    if parts == [] then 0 else TotalLength(parts[..|parts| - 1]) + |parts[|parts| - 1]|
  }

  lemma {:induction false} ConcatLength(parts: seq<string>)
    ensures |Concat(parts)| == TotalLength(parts)
    decreases |parts|
  {
    if parts != [] {
      ConcatLength(parts[..|parts| - 1]);
    }
  }

  /** `String.join(sep, items)`: the items in order, `sep` between neighbours. */
  function Join(sep: string, items: seq<string>): string
  {
    if |items| == 0 then ""
    else if |items| == 1 then items[0]
    else items[0] + sep + Join(sep, items[1..])
  }

  /** Each item followed by `suffix`, in order. */
  function Suffixed(items: seq<string>, suffix: string): string
  {
    if items == [] then "" else Suffixed(items[..|items| - 1], suffix) + items[|items| - 1] + suffix
  }

  /** `s.endsWith(suffix)`. */
  predicate EndsWith(s: string, suffix: string)
  {
    |suffix| <= |s| && s[|s| - |suffix|..] == suffix
  }

  /** `s.contains(pat)`, computed by scanning from the left. */
  predicate Contains(s: string, pat: string)
    decreases |s|
  {
    |pat| <= |s| && (s[..|pat|] == pat || (|s| > 0 && Contains(s[1..], pat)))
  }

  /** Occurrence of `pat` at offset `i` of `s`. */
  ghost predicate OccursAt(s: string, pat: string, i: int)
  {
    0 <= i && i + |pat| <= |s| && s[i..i + |pat|] == pat
  }

  /** `Contains` is exactly "occurs at some offset". */
  lemma {:induction false} ContainsIff(s: string, pat: string)
    ensures Contains(s, pat) <==> exists i :: OccursAt(s, pat, i)
    decreases |s|
  {
    if |pat| <= |s| && s[..|pat|] != pat && |s| > 0 {
      ContainsIff(s[1..], pat);
      if exists i :: OccursAt(s, pat, i) {
        var i :| OccursAt(s, pat, i);
        assert i != 0;
        assert OccursAt(s[1..], pat, i - 1) by {
          assert s[1..][i - 1..i - 1 + |pat|] == s[i..i + |pat|];
        }
      }
      if exists i :: OccursAt(s[1..], pat, i) {
        var i :| OccursAt(s[1..], pat, i);
        assert s[1..][i..i + |pat|] == s[i + 1..i + 1 + |pat|];
        assert OccursAt(s, pat, i + 1);
      }
    } else if |pat| <= |s| && s[..|pat|] == pat {
      assert OccursAt(s, pat, 0);
    }
  }

  predicate IsDigitChar(c: char)
  {
    '0' <= c <= '9'
  }

  function DigitChar(d: nat): (c: char)
    requires d < 10
    ensures IsDigitChar(c)
  {
    ('0' as int + d) as char
  }

  function DigitValue(c: char): (d: nat)
    requires IsDigitChar(c)
    ensures d < 10
  {
    c as int - '0' as int
  }

  /** Decimal digits of `n`, most significant first, without leading zeros. */
  function NatToString(n: nat): (r: string)
    ensures |r| > 0
    ensures forall k :: 0 <= k < |r| ==> IsDigitChar(r[k])
  {
    if n < 10 then [DigitChar(n)] else NatToString(n / 10) + [DigitChar(n % 10)]
  }

  /** Java's decimal rendering of an `int`, a `-` in front of negative values. */
  function IntToString(i: int): (r: string)
    ensures |r| > 0
    ensures forall k :: 0 <= k < |r| ==> IsDigitChar(r[k]) || (k == 0 && r[k] == '-')
  {
    if i < 0 then "-" + NatToString(-i) else NatToString(i)
  }

  /** Value of a string of decimal digits. */
  function DigitsValue(s: string): nat
    requires forall k :: 0 <= k < |s| ==> IsDigitChar(s[k])
  {
    if s == [] then 0 else DigitsValue(s[..|s| - 1]) * 10 + DigitValue(s[|s| - 1])
  }

  /** Reads back what `IntToString` writes. */
  function ParseInt(s: string): int
    requires forall k :: 0 <= k < |s| ==> IsDigitChar(s[k]) || (k == 0 && s[k] == '-')
  {
    if |s| > 0 && s[0] == '-' then -(DigitsValue(s[1..]) as int) else DigitsValue(s)
  }

  lemma {:induction false} NatToStringRoundTrip(n: nat)
    ensures DigitsValue(NatToString(n)) == n
  {
    if n >= 10 {
      var r := NatToString(n);
      assert r[..|r| - 1] == NatToString(n / 10);
      NatToStringRoundTrip(n / 10);
    }
  }

  /** Decimal rendering round-trips, so two different ints never print alike. */
  lemma IntToStringRoundTrip(i: int)
    ensures ParseInt(IntToString(i)) == i
  {
    if i < 0 {
      assert IntToString(i)[1..] == NatToString(-i);
      NatToStringRoundTrip(-i);
    } else {
      NatToStringRoundTrip(i);
    }
  }

  lemma IntToStringInjective(a: int, b: int)
    requires IntToString(a) == IntToString(b)
    ensures a == b
  {
    IntToStringRoundTrip(a);
    IntToStringRoundTrip(b);
  }
}
