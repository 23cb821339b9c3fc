/** The water-filling allocator behind payload shortening. */
module SharedCeiling {
  import opened Prelude

  /** What a ceiling of `c` per leaf retains. */
  function SumMin(lens: seq<nat>, c: nat): nat {
    if lens == [] then 0 else Min(lens[0], c) + SumMin(lens[1..], c)
  }

  function CountAtLeast(lens: seq<nat>, c: nat): nat {
    if lens == [] then 0 else (if lens[0] >= c then 1 else 0) + CountAtLeast(lens[1..], c)
  }

  /** The identity key, so that lengths sort by themselves. */
  function Self(n: nat): int { n }

  // ---- Sorting does not change what a ceiling retains ----

  lemma {:induction false} InsertKeepsTotals(x: nat, s: seq<nat>, c: nat)
    ensures SumMin(InsertBy(x, s, Self), c) == Min(x, c) + SumMin(s, c)
    ensures CountAtLeast(InsertBy(x, s, Self), c) == CountAtLeast([x], c) + CountAtLeast(s, c)
    ensures Sum(InsertBy(x, s, Self)) == x + Sum(s)
  {
    if s == [] || x <= s[0] {
      assert ([x] + s)[1..] == s;
    } else {
      InsertKeepsTotals(x, s[1..], c);
    }
  }

  lemma {:induction false} SortKeepsTotals(s: seq<nat>, c: nat)
    ensures SumMin(SortBy(s, Self), c) == SumMin(s, c)
    ensures CountAtLeast(SortBy(s, Self), c) == CountAtLeast(s, c)
    ensures Sum(SortBy(s, Self)) == Sum(s)
  {
    if s != [] {
      SortKeepsTotals(s[1..], c);
      InsertKeepsTotals(s[0], SortBy(s[1..], Self), c);
    }
  }

  // ---- How a ceiling's total grows ----

  lemma {:induction false} SumMinStep(lens: seq<nat>, c: nat)
    ensures SumMin(lens, c + 1) == SumMin(lens, c) + CountAtLeast(lens, c + 1)
    ensures CountAtLeast(lens, c + 1) <= CountAtLeast(lens, c) <= |lens|
    ensures c !in lens ==> CountAtLeast(lens, c) == CountAtLeast(lens, c + 1)
  {
    if lens != [] {
      SumMinStep(lens[1..], c);
    }
  }

  lemma {:induction false} SumMinMonotone(lens: seq<nat>, c: nat, d: nat)
    requires c <= d
    ensures SumMin(lens, c) <= SumMin(lens, d) <= Sum(lens)
  {
    if lens != [] {
      SumMinMonotone(lens[1..], c, d);
    }
  }

  /** In sorted lengths a ceiling at position `k` keeps the first `k` whole. */
  lemma {:induction false} SplitTotals(s: seq<nat>, k: nat, c: nat)
    requires k <= |s|
    requires forall i :: 0 <= i < k ==> s[i] <= c
    requires forall i :: k <= i < |s| ==> s[i] >= c
    ensures SumMin(s, c) == Sum(s[..k]) + (|s| - k) * c
    ensures (forall i :: 0 <= i < k ==> s[i] < c) ==> CountAtLeast(s, c) == |s| - k
  {
    if s != [] {
      if k == 0 {
        SplitTotals(s[1..], 0, c);
        assert (|s| - 0) * c == c + (|s| - 1) * c;
        assert s[1..][..0] == [] && s[..0] == [];
      } else {
        SplitTotals(s[1..], k - 1, c);
        assert s[..k][1..] == s[1..][..k - 1];
      }
    }
  }

  // ---- When the ceiling is the largest one ----

  /** No other ceiling within `allowed` retains more. */
  ghost predicate RetainsMost(lens: seq<nat>, allowed: nat, c: nat) {
    forall d: nat :: SumMin(lens, d) <= allowed ==> SumMin(lens, d) <= SumMin(lens, c)
  }

  /**
   * `allowed` lies in the tie gap of a leaf length: one more byte per longer
   * leaf would still fit, but one more byte per leaf at least that long would not.
   */
  predicate InTieGap(lens: seq<nat>, allowed: nat, len: nat) {
    SumMin(lens, len) < SumMin(lens, len + 1) <= allowed < SumMin(lens, len) + CountAtLeast(lens, len)
  }

  predicate SomeTieGap(lens: seq<nat>, allowed: nat) {
    exists i :: 0 <= i < |lens| && InTieGap(lens, allowed, lens[i])
  }

  /** What the allocator establishes about its answer. */
  ghost predicate Fills(lens: seq<nat>, allowed: nat, c: nat) {
    && SumMin(lens, c) <= allowed
    && (allowed < SumMin(lens, c) + CountAtLeast(lens, c) || SumMin(lens, c) == Sum(lens))
    && (forall i :: 0 <= i < |lens| && lens[i] < c ==>
          SumMin(lens, lens[i]) + CountAtLeast(lens, lens[i]) <= allowed)
  }

  lemma TieGapLosesBytes(lens: seq<nat>, allowed: nat, c: nat, i: nat)
    requires Fills(lens, allowed, c) && i < |lens| && InTieGap(lens, allowed, lens[i])
    ensures !RetainsMost(lens, allowed, c)
  {
    assert c <= lens[i];
    SumMinMonotone(lens, c, lens[i]);
    assert SumMin(lens, lens[i] + 1) > SumMin(lens, c);
  }

  /** A ceiling that retains more within `allowed` exposes a tie gap. */
  lemma BetterCeilingMeansTieGap(lens: seq<nat>, allowed: nat, c: nat, d: nat) returns (i: nat)
    requires Fills(lens, allowed, c)
    requires SumMin(lens, c) < SumMin(lens, d) <= allowed
    ensures i < |lens| && InTieGap(lens, allowed, lens[i])
  {
    if d <= c {
      SumMinMonotone(lens, d, c);
    }
    SumMinMonotone(lens, d, d);
    SumMinStep(lens, c);
    SumMinMonotone(lens, c + 1, d);
    if CountAtLeast(lens, c + 1) == 0 {
      NothingAbove(lens, c, d);
    }
    i :| 0 <= i < |lens| && lens[i] == c;
  }

  lemma {:induction false} NothingAbove(lens: seq<nat>, c: nat, d: nat)
    requires CountAtLeast(lens, c + 1) == 0 && c <= d
    ensures SumMin(lens, d) == SumMin(lens, c)
  {
    if lens != [] {
      NothingAbove(lens[1..], c, d);
    }
  }

  // ---- The allocator ----

  /** An equal share of the headroom per remaining leaf. */
  function Share(room: nat, leaves: nat): nat
    requires leaves > 0
  {
    room / leaves
  }

  predicate Sorted(s: seq<nat>) {
    forall i, j :: 0 <= i < j < |s| ==> s[i] <= s[j]
  }

  /** Every leaf before `index` leaves room for all the later ones to exceed it. */
  ghost predicate RoomAbove(sorted: seq<nat>, allowed: nat, index: nat)
    requires index <= |sorted|
  {
    forall i :: 0 <= i < index ==> SumMin(sorted, sorted[i]) + CountAtLeast(sorted, sorted[i]) <= allowed
  }

  /** The headroom left at `index` lets each remaining leaf exceed the previous one. */
  ghost predicate Headroom(sorted: seq<nat>, allowed: nat, index: nat, below: nat)
    requires index <= |sorted|
  {
    && below == Sum(sorted[..index])
    && below <= allowed
    && (0 < index < |sorted| ==> Share(allowed - below, |sorted| - index) > sorted[index - 1])
  }

  /**
   * One ceiling for all leaves, under which they keep at most `allowed` bytes. The unused
   * slack is below the number of leaves the ceiling binds, and the ceiling is the
   * largest possible exactly when `allowed` falls in no leaf length's tie gap.
   */
  method Ceiling(lens: seq<nat>, allowed: nat) returns (c: nat)
    ensures SumMin(lens, c) <= allowed
    ensures allowed < Sum(lens) ==> allowed - SumMin(lens, c) < CountAtLeast(lens, c)
    ensures RetainsMost(lens, allowed, c) <==> !SomeTieGap(lens, allowed)
    ensures Fills(lens, allowed, c)
  {
    var sorted := SortBy(lens, Self);
    SortByFacts(lens, Self);
    assert Sorted(sorted) by { SelfSorted(sorted); }
    var below: nat := 0;
    var index := 0;
    while index < |sorted|
      invariant 0 <= index <= |sorted|
      invariant Headroom(sorted, allowed, index, below)
      invariant RoomAbove(sorted, allowed, index)
    {
      var remaining := |sorted| - index;
      var headroom := allowed - below;
      var ceiling := Share(headroom, remaining);
      if ceiling <= sorted[index] {
        ReturnedCeiling(sorted, allowed, index, below, ceiling);
        AnswerCarriesOver(lens, sorted, allowed, ceiling);
        return ceiling;
      }
      StepPastLeaf(sorted, allowed, index, below);
      below := below + sorted[index];
      index := index + 1;
    }
    c := if sorted == [] then 0 else sorted[|sorted| - 1];
    LastCeiling(sorted, allowed, below, c);
    AnswerCarriesOver(lens, sorted, allowed, c);
  }

  lemma SelfSorted(s: seq<nat>)
    requires Ascending(s, Self)
    ensures Sorted(s)
  {
    forall i, j | 0 <= i < j < |s| ensures s[i] <= s[j] {
      assert Self(s[i]) <= Self(s[j]);
    }
  }

  lemma Quotient(n: nat, d: nat)
    requires d > 0
    ensures d * (n / d) <= n < d * (n / d) + d
  {
  }

  lemma QuotientBound(n: nat, d: nat, q: nat)
    requires d > 0 && d * q <= n
    ensures q <= n / d
  {
    Quotient(n, d);
    assert d * q < d * (n / d + 1);
  }

  lemma Grow(d: nat, a: nat, b: nat)
    requires a < b
    ensures d * a + d <= d * b
  {
    assert d * (a + 1) <= d * b;
  }

  lemma ReturnedCeiling(sorted: seq<nat>, allowed: nat, index: nat, below: nat, c: nat)
    requires Sorted(sorted) && index < |sorted|
    requires Headroom(sorted, allowed, index, below) && RoomAbove(sorted, allowed, index)
    requires c == Share(allowed - below, |sorted| - index) && c <= sorted[index]
    ensures Fills(sorted, allowed, c)
  {
    Quotient(allowed - below, |sorted| - index);
    SplitTotals(sorted, index, c);
  }

  lemma LastCeiling(sorted: seq<nat>, allowed: nat, below: nat, c: nat)
    requires Sorted(sorted) && Headroom(sorted, allowed, |sorted|, below)
    requires RoomAbove(sorted, allowed, |sorted|)
    requires c == if sorted == [] then 0 else sorted[|sorted| - 1]
    ensures Fills(sorted, allowed, c)
  {
    assert sorted[..|sorted|] == sorted;
    SplitTotals(sorted, |sorted|, c);
  }

  lemma StepArithmetic(room: nat, remaining: nat, len: nat)
    requires remaining > 0 && Share(room, remaining) > len
    ensures remaining * len + remaining <= room && len <= room
    ensures remaining > 1 ==> Share(room - len, remaining - 1) > len
  {
    Quotient(room, remaining);
    Grow(remaining, len, room / remaining);
    assert remaining * len == (remaining - 1) * len + len;
    if remaining > 1 {
      assert (remaining - 1) * (len + 1) == (remaining - 1) * len + (remaining - 1);
      QuotientBound(room - len, remaining - 1, len + 1);
    }
  }

  /** Passing a leaf keeps room for every later leaf to exceed it. */
  lemma StepPastLeaf(sorted: seq<nat>, allowed: nat, index: nat, below: nat)
    requires Sorted(sorted) && index < |sorted|
    requires Headroom(sorted, allowed, index, below) && RoomAbove(sorted, allowed, index)
    requires Share(allowed - below, |sorted| - index) > sorted[index]
    ensures Headroom(sorted, allowed, index + 1, below + sorted[index])
    ensures RoomAbove(sorted, allowed, index + 1)
  {
    var len := sorted[index];
    StepArithmetic(allowed - below, |sorted| - index, len);
    assert sorted[..index + 1] == sorted[..index] + [len];
    SumAppend(sorted[..index], [len]);
    assert [len][1..] == [];
    if index == 0 || sorted[index - 1] < len {
      SplitTotals(sorted, index, len);
    }
  }

  lemma AnswerCarriesOver(lens: seq<nat>, sorted: seq<nat>, allowed: nat, c: nat)
    requires sorted == SortBy(lens, Self) && multiset(sorted) == multiset(lens)
    requires Fills(sorted, allowed, c)
    ensures SumMin(lens, c) <= allowed
    ensures allowed < Sum(lens) ==> allowed - SumMin(lens, c) < CountAtLeast(lens, c)
    ensures RetainsMost(lens, allowed, c) <==> !SomeTieGap(lens, allowed)
    ensures Fills(lens, allowed, c)
  {
    SortKeepsTotals(lens, c);
    forall i | 0 <= i < |lens| && lens[i] < c
      ensures SumMin(lens, lens[i]) + CountAtLeast(lens, lens[i]) <= allowed
    {
      assert lens[i] in multiset(sorted);
      var j :| 0 <= j < |sorted| && sorted[j] == lens[i];
      SortKeepsTotals(lens, lens[i]);
    }
    if SomeTieGap(lens, allowed) {
      var i :| 0 <= i < |lens| && InTieGap(lens, allowed, lens[i]);
      TieGapLosesBytes(lens, allowed, c, i);
    }
    if !RetainsMost(lens, allowed, c) {
      var d: nat :| SumMin(lens, c) < SumMin(lens, d) <= allowed;
      var i := BetterCeilingMeansTieGap(lens, allowed, c, d);
    }
  }

  lemma OneLength(n: nat, c: nat)
    ensures SumMin([n], c) == Min(n, c) && CountAtLeast([n], c) == (if n >= c then 1 else 0) && Sum([n]) == n
  {
    var lens: seq<nat> := [n];
    assert lens[0] == n && lens[1..] == [];
    assert SumMin(lens[1..], c) == 0 && CountAtLeast(lens[1..], c) == 0 && Sum(lens[1..]) == 0;
  }

  lemma FiveAndTen(c: nat)
    ensures SumMin([5, 10], c) == Min(5, c) + Min(10, c)
    ensures CountAtLeast([5, 10], c) == (if 5 >= c then 1 else 0) + (if 10 >= c then 1 else 0)
    ensures Sum([5, 10]) == 15
  {
    var lens: seq<nat> := [5, 10];
    assert lens[0] == 5 && lens[1..] == [10];
    OneLength(10, c);
  }

  lemma FiveFills(c: nat)
    ensures Fills([5, 10], 11, c) <==> c == 5
  {
    var lens: seq<nat> := [5, 10];
    FiveAndTen(c);
    FiveAndTen(5);
    FiveAndTen(10);
    hide SumMin, CountAtLeast;
    if c > 5 {
      assert lens[0] < c;
    }
  }

  /** Lengths 5 and 10 with 11 allowed: the allocator answers 5 and keeps 10 bytes, though 6 would keep all 11. */
  lemma LargestFails()
    ensures SomeTieGap([5, 10], 11)
    ensures forall c :: Fills([5, 10], 11, c) <==> c == 5
    ensures SumMin([5, 10], 5) == 10 && SumMin([5, 10], 6) == 11
    ensures !RetainsMost([5, 10], 11, 5)
  {
    forall c: nat ensures Fills([5, 10], 11, c) <==> c == 5 {
      FiveFills(c);
    }
    FiveAndTen(5);
    FiveAndTen(6);
    hide SumMin, CountAtLeast, Fills;
    assert InTieGap([5, 10], 11, [5, 10][0]);
    TieGapLosesBytes([5, 10], 11, 5, 0);
  }
}
