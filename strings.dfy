/** String helpers standing in for JavaScript's `startsWith`, `endsWith`, `includes` and
    `indexOf`, and for the decimal rendering of an integer (`"" + n`). */
module Strings {

  predicate StartsWith(s: string, prefix: string)
  {
    |prefix| <= |s| && s[..|prefix|] == prefix
  }

  predicate EndsWith(s: string, suffix: string)
  {
    |suffix| <= |s| && s[|s| - |suffix|..] == suffix
  }

  /** `s.includes(sub)`: computed by scanning, characterised by `ContainsAt` below. */
  predicate Contains(s: string, sub: string)
  {
    StartsWith(s, sub) || (|s| > 0 && Contains(s[1..], sub))
  }

  /** The occurrence-based meaning of `includes`. */
  ghost predicate OccursAt(s: string, sub: string, i: int)
  {
    0 <= i && i + |sub| <= |s| && s[i..i + |sub|] == sub
  }

  lemma {:induction false} ContainsAt(s: string, sub: string)
    ensures Contains(s, sub) <==> exists i :: OccursAt(s, sub, i)
  {
    assert OccursAt(s, sub, 0) <==> StartsWith(s, sub);
    if |s| > 0 {
      ContainsAt(s[1..], sub);
      forall i | 0 < i
        ensures OccursAt(s, sub, i) <==> OccursAt(s[1..], sub, i - 1)
      {
        if i + |sub| <= |s| {
          SliceOfTail(s, i, |sub|);
        }
      }
      if Contains(s[1..], sub) {
        var i :| OccursAt(s[1..], sub, i);
        assert OccursAt(s, sub, i + 1);
      }
    } else {
      assert forall i :: OccursAt(s, sub, i) ==> i == 0;
    }
  }

  /** Where the parts of a concatenation sit. */
  lemma ConcatSlices(x: string, y: string, i: int)
    requires 0 <= i <= |x|
    ensures (x + y)[..i] == x[..i]
    ensures (x + y)[i..] == x[i..] + y
  {
    var xy := x + y;
    assert |xy[..i]| == |x[..i]|;
    forall k | 0 <= k < i
      ensures xy[..i][k] == x[..i][k]
    {
    }
    assert |xy[i..]| == |x[i..] + y|;
    forall k | 0 <= k < |xy| - i
      ensures xy[i..][k] == (x[i..] + y)[k]
    {
    }
  }

  lemma SliceOfTail(s: string, i: int, n: int)
    requires 1 <= i && 0 <= n && i + n <= |s|
    ensures s[1..][i - 1..i - 1 + n] == s[i..i + n]
  {
    var x, y := s[1..][i - 1..i - 1 + n], s[i..i + n];
    assert |x| == |y|;
    forall j | 0 <= j < n
      ensures x[j] == y[j]
    {
    }
  }

  /** Index of the first `c` in `s`, or `|s|` when there is none. */
  function FirstIndexOf(s: string, c: char): (r: nat)
    ensures r <= |s|
    ensures forall k :: 0 <= k < r ==> s[k] != c
    ensures r < |s| ==> s[r] == c
  {
    if |s| == 0 then 0
    else if s[0] == c then 0
    else 1 + FirstIndexOf(s[1..], c)
  }

  lemma {:induction false} FirstIndexOfAppend(x: string, y: string, c: char)
    ensures FirstIndexOf(x + y, c) == if c in x then FirstIndexOf(x, c) else |x| + FirstIndexOf(y, c)
  {
    if |x| == 0 {
      assert x + y == y;
    } else if x[0] != c {
      assert (x + y)[1..] == x[1..] + y;
      assert c in x <==> c in x[1..];
      FirstIndexOfAppend(x[1..], y, c);
    }
  }

  /** The part of `s` before the first `c` (all of `s` when there is none). */
  function CutAt(s: string, c: char): (r: string)
    ensures c !in r
    ensures |r| <= |s| && r == s[..|r|]
    ensures |r| < |s| ==> s[|r|] == c
  {
    s[..FirstIndexOf(s, c)]
  }

  /** Cutting a string that lacks `c` keeps all of it. */
  lemma CutAtAbsent(s: string, c: char)
    requires c !in s
    ensures CutAt(s, c) == s
  {
    assert FirstIndexOf(s, c) == |s|;
  }

  /** Cutting a string that starts with `c` keeps nothing. */
  lemma CutAtFirst(s: string, c: char)
    requires |s| > 0 && s[0] == c
    ensures CutAt(s, c) == []
  {
  }

  /** When `c` occurs in `x`, the cut falls inside `x`. */
  lemma CutAtAppendIn(x: string, y: string, c: char)
    requires c in x
    ensures CutAt(x + y, c) == CutAt(x, c)
  {
    FirstIndexOfAppend(x, y, c);
    ConcatSlices(x, y, FirstIndexOf(x, c));
  }

  /** When `c` does not occur in `x`, the cut keeps `x` and cuts `y`. */
  lemma CutAtAppendOut(x: string, y: string, c: char)
    requires c !in x
    ensures CutAt(x + y, c) == x + CutAt(y, c)
  {
    FirstIndexOfAppend(x, y, c);
    var i := FirstIndexOf(y, c);
    calc {
      CutAt(x + y, c);
      (x + y)[..|x| + i];
      { assert (x + y)[..|x| + i] == x + y[..i]; }
      x + y[..i];
    }
  }

  /** Every character of a suffix occurs in the string. */
  lemma SuffixCharsOccur(s: string, suffix: string)
    ensures EndsWith(s, suffix) ==> forall k :: 0 <= k < |suffix| ==> suffix[k] in s
  {
    if EndsWith(s, suffix) {
      forall k | 0 <= k < |suffix| ensures suffix[k] in s {
        assert s[|s| - |suffix| + k] == suffix[k];
      }
    }
  }

  /** Removes every occurrence of `c`: `s.replace(/c/g, "")`. */
  function RemoveAll(s: string, c: char): (r: string)
    ensures c !in r
    ensures |r| == |s| - multiset(s)[c]
  {
    if |s| == 0 then []
    else
      assert s == [s[0]] + s[1..];
      (if s[0] == c then [] else [s[0]]) + RemoveAll(s[1..], c)
  }

  /** Removing a character that does not occur changes nothing. */
  lemma {:induction false} RemoveAbsent(s: string, c: char)
    requires c !in s
    ensures RemoveAll(s, c) == s
  {
    if |s| > 0 {
      RemoveAbsent(s[1..], c);
      assert [s[0]] + s[1..] == s;
    }
  }

  /** Removal works piece by piece, so the characters kept stay in their order. */
  lemma {:induction false} RemoveAllAppend(a: string, b: string, c: char)
    ensures RemoveAll(a + b, c) == RemoveAll(a, c) + RemoveAll(b, c)
  {
    if |a| == 0 {
      assert a + b == b;
    } else {
      var tail := a[1..];
      var head := if a[0] == c then [] else [a[0]];
      assert (a + b)[1..] == tail + b;
      RemoveAllAppend(tail, b, c);
      ConcatAssoc(head, RemoveAll(tail, c), RemoveAll(b, c));
    }
  }

  lemma ConcatAssoc(x: string, y: string, z: string)
    ensures x + (y + z) == (x + y) + z
  {
  }

  /** Replaces every occurrence of `c` by `d`: `s.replace(/c/g, "d")`. */
  function ReplaceAll(s: string, c: char, d: char): (r: string)
    ensures |r| == |s|
    ensures forall k :: 0 <= k < |s| ==> r[k] == if s[k] == c then d else s[k]
  {
    if |s| == 0 then []
    else [if s[0] == c then d else s[0]] + ReplaceAll(s[1..], c, d)
  }

  function DigitChar(d: nat): (c: char)
    requires d < 10
  {
    "0123456789"[d]
  }

  predicate IsDigit(c: char)
  {
    '0' <= c <= '9'
  }

  function DigitValue(c: char): (d: nat)
    requires IsDigit(c)
    ensures d < 10
  {
    (c as int) - ('0' as int)
  }

  /** The decimal text of a non-negative integer, as JavaScript renders an integral number below 1e21. */
  function DecimalString(n: nat): (r: string)
    ensures |r| > 0
    ensures forall k :: 0 <= k < |r| ==> IsDigit(r[k])
    ensures r[0] == '0' ==> n == 0
  {
    if n < 10 then [DigitChar(n)] else DecimalString(n / 10) + [DigitChar(n % 10)]
  }

  /** Reads a string of decimal digits back as a number. */
  function ParseDecimal(s: string): nat
    requires forall k :: 0 <= k < |s| ==> IsDigit(s[k])
  {
    if |s| == 0 then 0
    else ParseDecimal(s[..|s| - 1]) * 10 + DigitValue(s[|s| - 1])
  }

  lemma {:induction false} DecimalRoundTrip(n: nat)
    ensures ParseDecimal(DecimalString(n)) == n
  {
    if n >= 10 {
      var s := DecimalString(n);
      assert s[..|s| - 1] == DecimalString(n / 10);
      DecimalRoundTrip(n / 10);
    }
  }
}
