/** UTF-8 bytes (section 3 of RFC 3629), and why byte matches fall on character boundaries. */
module Utf8 {
  import opened Prelude
  import opened Text

  newtype Byte = b: int | 0 <= b < 256

  /** Whether `t` occurs in `s` at position `k`. */
  predicate OccursAt<T(==)>(s: seq<T>, t: seq<T>, k: nat) {
    k + |t| <= |s| && s[k..k + |t|] == t
  }

  /** The first occurrence at or after `from`. */
  function FindFrom<T(==)>(s: seq<T>, t: seq<T>, from: nat): (r: Option<nat>)
    ensures r.Some? ==> from <= r.value && OccursAt(s, t, r.value)
    ensures forall j :: from <= j && (r.Some? ==> j < r.value) ==> !OccursAt(s, t, j)
    decreases |s| - from
  {
    if from + |t| > |s| then None
    else if OccursAt(s, t, from) then Some(from)
    else FindFrom(s, t, from + 1)
  }

  function EncodeChar(c: char): (bytes: seq<Byte>)
    ensures |bytes| == Width(c)
  {
    var n := c as int;
    if n < 0x80 then [n as Byte]
    else if n < 0x800 then [(0xC0 + n / 0x40) as Byte, (0x80 + n % 0x40) as Byte]
    else if n < 0x1_0000 then
      [(0xE0 + n / 0x1000) as Byte, (0x80 + n / 0x40 % 0x40) as Byte, (0x80 + n % 0x40) as Byte]
    else
      [(0xF0 + n / 0x4_0000) as Byte, (0x80 + n / 0x1000 % 0x40) as Byte, (0x80 + n / 0x40 % 0x40) as Byte,
       (0x80 + n % 0x40) as Byte]
  }

  predicate IsContinuation(b: Byte) {
    0x80 <= b < 0xC0
  }

  /** Only the first byte of a character is not a continuation byte. */
  lemma LeadOnly(c: char, k: nat)
    requires k < Width(c)
    ensures IsContinuation(EncodeChar(c)[k]) <==> k > 0
  {
  }

  /** The first byte fixes the width. */
  lemma LeadFixesWidth(c: char, d: char)
    requires EncodeChar(c)[0] == EncodeChar(d)[0]
    ensures Width(c) == Width(d)
  {
  }

  /** The number a character's bytes spell. */
  function ValueOf(bytes: seq<Byte>): int
    requires 1 <= |bytes| <= 4
  {
    if |bytes| == 1 then bytes[0] as int
    else if |bytes| == 2 then 0x40 * (bytes[0] as int - 0xC0) + (bytes[1] as int - 0x80)
    else if |bytes| == 3 then
      0x1000 * (bytes[0] as int - 0xE0) + 0x40 * (bytes[1] as int - 0x80) + (bytes[2] as int - 0x80)
    else
      0x4_0000 * (bytes[0] as int - 0xF0) + 0x1000 * (bytes[1] as int - 0x80) + 0x40 * (bytes[2] as int - 0x80)
        + (bytes[3] as int - 0x80)
  }

  lemma SixBitGroups(n: nat)
    ensures n == 0x40 * (n / 0x40) + n % 0x40
    ensures n == 0x1000 * (n / 0x1000) + 0x40 * (n / 0x40 % 0x40) + n % 0x40
    ensures n == 0x4_0000 * (n / 0x4_0000) + 0x1000 * (n / 0x1000 % 0x40) + 0x40 * (n / 0x40 % 0x40) + n % 0x40
  {
    var q := n / 0x40;
    assert n / 0x1000 == q / 0x40;
    var r := q / 0x40;
    assert n / 0x4_0000 == r / 0x40;
  }

  lemma ValueOfEncoded(c: char)
    ensures ValueOf(EncodeChar(c)) == c as int
  {
    SixBitGroups(c as int);
  }

  /** Different characters have different bytes. */
  lemma EncodeCharInjective(c: char, d: char)
    requires EncodeChar(c) == EncodeChar(d)
    ensures c == d
  {
    hide EncodeChar, ValueOf;
    ValueOfEncoded(c);
    ValueOfEncoded(d);
  }

  function Encode(s: string): seq<Byte> {
    if s == [] then [] else EncodeChar(s[0]) + Encode(s[1..])
  }

  lemma {:induction false} EncodeLength(s: string)
    ensures |Encode(s)| == ByteLen(s)
  {
    if s != [] {
      EncodeLength(s[1..]);
    }
  }

  lemma {:induction false} EncodeAppend(a: string, b: string)
    ensures Encode(a + b) == Encode(a) + Encode(b)
  {
    hide EncodeChar;
    if a == [] {
      assert a + b == b;
    } else {
      assert (a + b)[1..] == a[1..] + b;
      EncodeAppend(a[1..], b);
    }
  }

  /** No string's bytes begin another's without its characters doing so. */
  lemma {:induction false} EncodedPrefix(s: string, t: string)
    requires Encode(t) <= Encode(s)
    ensures t <= s
  {
    if t != [] {
      var et, es := Encode(t), Encode(s);
      assert et[0] == EncodeChar(t[0])[0] && es[0] == et[0];
      assert s != [];
      LeadFixesWidth(s[0], t[0]);
      var w := Width(t[0]);
      assert et[..w] == EncodeChar(t[0]) && es[..w] == EncodeChar(s[0]);
      EncodeCharInjective(s[0], t[0]);
      assert et[w..] == Encode(t[1..]) && es[w..] == Encode(s[1..]);
      EncodedPrefix(s[1..], t[1..]);
    }
  }

  /** Characters that match, match in bytes. */
  lemma OccursEncoded(s: string, t: string, k: nat)
    requires OccursAt(s, t, k)
    ensures OccursAt(Encode(s), Encode(t), ByteLen(s[..k]))
  {
    hide Encode;
    var before, after := s[..k], s[k + |t|..];
    assert s == before + (t + after);
    EncodeAppend(before, t + after);
    EncodeAppend(t, after);
    EncodeLength(before);
    assert Encode(s) == Encode(before) + (Encode(t) + Encode(after));
  }

  lemma FirstBytes(s: string, p: nat)
    requires s != [] && p < Width(s[0])
    ensures p < |Encode(s)| && Encode(s)[p] == EncodeChar(s[0])[p]
  {
  }

  lemma MatchFirst(s: seq<Byte>, t: seq<Byte>, p: nat)
    requires t != [] && OccursAt(s, t, p)
    ensures s[p] == t[0]
  {
    assert s[p..p + |t|][0] == s[p];
  }

  /** No match starts inside a character. */
  lemma NoMatchInside(s: string, t: string, p: nat)
    requires s != [] && t != [] && 0 < p < Width(s[0])
    ensures !OccursAt(Encode(s), Encode(t), p)
  {
    hide EncodeChar, Encode, OccursAt;
    LeadOnly(t[0], 0);
    LeadOnly(s[0], p);
    FirstBytes(s, p);
    FirstBytes(t, 0);
    if OccursAt(Encode(s), Encode(t), p) {
      MatchFirst(Encode(s), Encode(t), p);
    }
  }

  /** A match past the first character is a match in the rest. */
  lemma MatchInRest(s: string, t: string, p: nat)
    requires s != [] && p >= Width(s[0]) && OccursAt(Encode(s), Encode(t), p)
    ensures OccursAt(Encode(s[1..]), Encode(t), p - Width(s[0]))
  {
    hide EncodeChar;
    var w, es, et := Width(s[0]), Encode(s), Encode(t);
    assert es[w..] == Encode(s[1..]);
    assert es[p..p + |et|] == es[w..][p - w..p - w + |et|];
  }

  /** Bytes that match fall on a character boundary, and the characters match there. */
  lemma {:induction false} MatchOnBoundary(s: string, t: string, p: nat) returns (k: nat)
    requires t != [] && OccursAt(Encode(s), Encode(t), p)
    ensures k <= |s| && p == ByteLen(s[..k]) && OccursAt(s, t, k)
  {
    hide Encode, EncodeChar;
    if p == 0 {
      assert Encode(t) <= Encode(s);
      EncodedPrefix(s, t);
      k := 0;
    } else if s == [] {
      EncodeLength(s);
      EncodeLength(t);
      assert false;
    } else if p < Width(s[0]) {
      NoMatchInside(s, t, p);
      assert false;
    } else {
      MatchInRest(s, t, p);
      var j := MatchOnBoundary(s[1..], t, p - Width(s[0]));
      k := j + 1;
      assert s[..k][1..] == s[1..][..j];
      assert s[k..k + |t|] == s[1..][j..j + |t|];
    }
  }
}
