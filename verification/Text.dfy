/** Strings as sequences of Unicode scalar values, measured in UTF-8 bytes. */
module Text {
  import opened Prelude

  /** Bytes UTF-8 spends on one scalar value (section 3 of RFC 3629). */
  function Width(c: char): (w: nat)
    ensures 1 <= w <= 4
  {
    var n := c as int;
    if n < 0x80 then 1 else if n < 0x800 then 2 else if n < 0x1_0000 then 3 else 4
  }

  /** The total weight of a string under a per-character weight. */
  function Weigh(s: string, w: char -> nat): nat {
    if s == [] then 0 else w(s[0]) + Weigh(s[1..], w)
  }

  /** The UTF-8 length of a string. */
  function ByteLen(s: string): nat {
    Weigh(s, Width)
  }

  lemma {:induction false} WeighAppend(a: string, b: string, w: char -> nat)
    ensures Weigh(a + b, w) == Weigh(a, w) + Weigh(b, w)
  {
    if a == [] {
      assert a + b == b;
    } else {
      assert (a + b)[1..] == a[1..] + b;
      WeighAppend(a[1..], b, w);
    }
  }

  lemma WeighPrefixes(s: string, i: nat, j: nat, w: char -> nat)
    requires i <= j <= |s|
    ensures Weigh(s[..i], w) <= Weigh(s[..j], w)
    ensures i < j ==> Weigh(s[..i], w) + w(s[i]) <= Weigh(s[..j], w)
  {
    assert s[..j] == s[..i] + s[i..j];
    WeighAppend(s[..i], s[i..j], w);
  }

  /** Heavier characters make heavier strings. */
  lemma {:induction false} WeighMonotone(s: string, w: char -> nat, v: char -> nat)
    requires forall c :: w(c) <= v(c)
    ensures Weigh(s, w) <= Weigh(s, v)
  {
    if s != [] {
      WeighMonotone(s[1..], w, v);
    }
  }

  // ---- The longest prefix within a budget ----

  /** The longest prefix of `s` weighing at most `budget`. */
  function LongestPrefix(s: string, budget: int, w: char -> nat): string {
    if s == [] || w(s[0]) > budget then []
    else [s[0]] + LongestPrefix(s[1..], budget - w(s[0]), w)
  }

  /** What makes `p` the longest prefix of `s` within `budget`. */
  ghost predicate IsLongestPrefix(p: string, s: string, budget: int, w: char -> nat) {
    && p <= s
    && (p != [] ==> Weigh(p, w) <= budget)
    && (forall k :: |p| < k <= |s| ==> Weigh(s[..k], w) > budget)
  }

  lemma {:induction false} LongestPrefixCorrect(s: string, budget: int, w: char -> nat)
    ensures IsLongestPrefix(LongestPrefix(s, budget, w), s, budget, w)
  {
    var p := LongestPrefix(s, budget, w);
    if s == [] {
    } else if w(s[0]) > budget {
      forall k | 0 < k <= |s| ensures Weigh(s[..k], w) > budget {
        WeighPrefixes(s, 1, k, w);
        assert s[..1][1..] == [];
      }
    } else {
      LongestPrefixCorrect(s[1..], budget - w(s[0]), w);
      assert p[1..] == LongestPrefix(s[1..], budget - w(s[0]), w);
      forall k | |p| < k <= |s| ensures Weigh(s[..k], w) > budget {
        assert s[..k][1..] == s[1..][..k - 1];
      }
    }
  }

  /** At most one string is the longest prefix within a budget. */
  lemma LongestPrefixUnique(p: string, q: string, s: string, budget: int, w: char -> nat)
    requires IsLongestPrefix(p, s, budget, w) && IsLongestPrefix(q, s, budget, w)
    ensures p == q
  {
    assert p == s[..|p|] && q == s[..|q|];
  }

  /** Cutting twice is cutting once, to the smaller budget. */
  lemma {:induction false} LongestPrefixTwice(s: string, a: int, b: int, w: char -> nat)
    ensures LongestPrefix(LongestPrefix(s, a, w), b, w) == LongestPrefix(s, Min(a, b), w)
  {
    if s != [] && w(s[0]) <= a {
      LongestPrefixTwice(s[1..], a - w(s[0]), b - w(s[0]), w);
      assert LongestPrefix(s, a, w)[1..] == LongestPrefix(s[1..], a - w(s[0]), w);
    }
  }

  lemma {:induction false} LongestPrefixWhole(s: string, budget: int, w: char -> nat)
    requires Weigh(s, w) <= budget
    ensures LongestPrefix(s, budget, w) == s
  {
    if s != [] {
      LongestPrefixWhole(s[1..], budget - w(s[0]), w);
    }
  }

  // ---- Cutting at a byte offset ----

  /** Whether byte offset `b` of `s` falls between two characters. */
  predicate IsCharBoundary(s: string, b: nat) {
    b == 0 || (s != [] && Width(s[0]) <= b && IsCharBoundary(s[1..], b - Width(s[0])))
  }

  /** The characters before byte offset `b`. */
  function BytePrefix(s: string, b: nat): (p: string)
    requires IsCharBoundary(s, b)
    ensures p <= s && ByteLen(p) == b
  {
    if b == 0 then [] else
    var rest := BytePrefix(s[1..], b - Width(s[0]));
    assert ([s[0]] + rest)[1..] == rest;
    [s[0]] + rest
  }

  lemma {:induction false} BoundaryOfPrefix(s: string, k: nat)
    requires k <= |s|
    ensures IsCharBoundary(s, ByteLen(s[..k]))
  {
    if k > 0 {
      BoundaryOfPrefix(s[1..], k - 1);
      assert s[..k][1..] == s[1..][..k - 1];
    }
  }

  /** Slicing at the byte offset of a character gives the characters before it. */
  lemma BytePrefixOfPrefix(s: string, k: nat)
    requires k <= |s|
    ensures IsCharBoundary(s, ByteLen(s[..k]))
    ensures BytePrefix(s, ByteLen(s[..k])) == s[..k]
  {
    BoundaryOfPrefix(s, k);
    var p := BytePrefix(s, ByteLen(s[..k]));
    assert p == s[..|p|];
    WeighPrefixes(s, Min(|p|, k), Max(|p|, k), Width);
  }

  /**
   * Walking back from `target` to the nearest offset between two characters finds
   * the longest prefix of `s` that fits.
   */
  method Cut(s: string, target: nat) returns (r: string)
    ensures r == LongestPrefix(s, target, Width)
  {
    if ByteLen(s) <= target {
      LongestPrefixWhole(s, target, Width);
      return s;
    }
    var end := target;
    while end > 0 && !IsCharBoundary(s, end)
      invariant 0 <= end <= target
      invariant forall b :: end < b <= target ==> !IsCharBoundary(s, b)
    {
      end := end - 1;
    }
    r := BytePrefix(s, end);
    forall k | |r| < k <= |s| ensures ByteLen(s[..k]) > target {
      BoundaryOfPrefix(s, k);
      assert r == s[..|r|];
      WeighPrefixes(s, |r|, k, Width);
    }
    LongestPrefixCorrect(s, target, Width);
    LongestPrefixUnique(r, LongestPrefix(s, target, Width), s, target, Width);
  }
}
