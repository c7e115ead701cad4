/**
 Sequence operations in the shape JavaScript's arrays offer them:
 `filter` (order-preserving selection), counting, and `slice` with its
 clamping rules. The components build all of their derived lists from these.
 */
module Seqs {

  function Min(a: int, b: int): int { if a <= b then a else b }

  function Max(a: int, b: int): int { if a <= b then b else a }

  /** The elements of `s` that satisfy `p`, in their original order (`Array.prototype.filter`). */
  function Filter<T>(s: seq<T>, p: T -> bool): (r: seq<T>)
    ensures |r| <= |s|
    ensures forall k :: 0 <= k < |r| ==> p(r[k]) && r[k] in s
    ensures forall j :: 0 <= j < |s| && p(s[j]) ==> s[j] in r
  {
    if |s| == 0 then []
    else if p(s[0]) then [s[0]] + Filter(s[1..], p)
    else Filter(s[1..], p)
  }

  /** Number of positions of `s` whose element satisfies `p`. */
  function Count<T>(s: seq<T>, p: T -> bool): nat
  {
    if |s| == 0 then 0
    else (if p(s[0]) then 1 else 0) + Count(s[1..], p)
  }

  /** The indices `i, i+1, ..` of `s` whose element satisfies `p`, ascending. */
  function PositionsFrom<T>(s: seq<T>, p: T -> bool, i: nat): seq<int>
    requires i <= |s|
    decreases |s| - i
  {
    if i == |s| then []
    else (if p(s[i]) then [i] else []) + PositionsFrom(s, p, i + 1)
  }

  function Positions<T>(s: seq<T>, p: T -> bool): seq<int>
  {
    PositionsFrom(s, p, 0)
  }

  /**
   `idx` picks `r` out of `s` in order: each `r[k]` is `s[idx[k]]`, and the
   chosen indices are strictly increasing, so `r` is an order-preserving
   subsequence of `s`.
   */
  ghost predicate Picks<T>(r: seq<T>, s: seq<T>, idx: seq<int>)
  {
    && |idx| == |r|
    && (forall k :: 0 <= k < |idx| ==> 0 <= idx[k] < |s| && r[k] == s[idx[k]])
    && (forall k, l :: 0 <= k < l < |idx| ==> idx[k] < idx[l])
  }

  /** The positions from `i` on are ascending, at least `i`, and exactly those whose element satisfies `p`. */
  lemma {:induction false} PositionsFromAscending<T>(s: seq<T>, p: T -> bool, i: nat)
    requires i <= |s|
    ensures forall k :: 0 <= k < |PositionsFrom(s, p, i)| ==> i <= PositionsFrom(s, p, i)[k] < |s|
    ensures forall k, l :: 0 <= k < l < |PositionsFrom(s, p, i)| ==> PositionsFrom(s, p, i)[k] < PositionsFrom(s, p, i)[l]
    ensures forall j :: i <= j < |s| ==> (p(s[j]) <==> j in PositionsFrom(s, p, i))
    decreases |s| - i
  {
    if i < |s| {
      PositionsFromAscending(s, p, i + 1);
      var rest := PositionsFrom(s, p, i + 1);
      if p(s[i]) {
        var idx := [i] + rest;
        assert PositionsFrom(s, p, i) == idx;
        assert forall k :: 0 < k < |idx| ==> idx[k] == rest[k - 1];
      }
    }
  }

  /** The positions from `i` on pick `Filter(s[i..], p)` out of `s`. */
  lemma {:induction false} FilterPicksFrom<T>(s: seq<T>, p: T -> bool, i: nat)
    requires i <= |s|
    ensures |PositionsFrom(s, p, i)| == |Filter(s[i..], p)|
    ensures forall k :: 0 <= k < |PositionsFrom(s, p, i)| ==>
      0 <= PositionsFrom(s, p, i)[k] < |s| && Filter(s[i..], p)[k] == s[PositionsFrom(s, p, i)[k]]
    decreases |s| - i
  {
    if i < |s| {
      FilterPicksFrom(s, p, i + 1);
      var rest := PositionsFrom(s, p, i + 1);
      var tail := Filter(s[i + 1..], p);
      assert s[i..][1..] == s[i + 1..];
      if p(s[i]) {
        var idx := [i] + rest;
        var r := [s[i]] + tail;
        assert PositionsFrom(s, p, i) == idx;
        assert Filter(s[i..], p) == r;
        assert forall k :: 0 < k < |idx| ==> idx[k] == rest[k - 1] && r[k] == tail[k - 1];
      }
    }
  }

  /**
   `Filter(s, p)` is the order-preserving subsequence of `s` made of exactly
   the positions whose element satisfies `p`.
   */
  lemma FilterIsOrderedSubsequence<T>(s: seq<T>, p: T -> bool)
    ensures Picks(Filter(s, p), s, Positions(s, p))
    ensures forall j :: 0 <= j < |s| ==> (p(s[j]) <==> j in Positions(s, p))
  {
    FilterPicksFrom(s, p, 0);
    PositionsFromAscending(s, p, 0);
    assert s[0..] == s;
  }

  /** The filtered list is exactly as long as the number of elements satisfying `p`. */
  lemma {:induction false} FilterLength<T>(s: seq<T>, p: T -> bool)
    ensures |Filter(s, p)| == Count(s, p)
  {
    if |s| > 0 {
      FilterLength(s[1..], p);
    }
  }

  /** Filtering keeps everything when every element satisfies `p`. */
  lemma {:induction false} FilterKeepsAll<T>(s: seq<T>, p: T -> bool)
    requires forall k :: 0 <= k < |s| ==> p(s[k])
    ensures Filter(s, p) == s
  {
    if |s| > 0 {
      FilterKeepsAll(s[1..], p);
      assert [s[0]] + s[1..] == s;
    }
  }

  /** Filtering keeps nothing when no element satisfies `p`. */
  lemma {:induction false} FilterDropsAll<T>(s: seq<T>, p: T -> bool)
    requires forall k :: 0 <= k < |s| ==> !p(s[k])
    ensures Filter(s, p) == []
  {
    if |s| > 0 {
      FilterDropsAll(s[1..], p);
    }
  }

  /** Counting over `s + [x]` adds one for `x` exactly when `x` satisfies `p`. */
  lemma {:induction false} CountSnoc<T>(s: seq<T>, x: T, p: T -> bool)
    ensures Count(s + [x], p) == Count(s, p) + (if p(x) then 1 else 0)
  {
    if |s| > 0 {
      CountSnoc(s[1..], x, p);
      assert (s + [x])[1..] == s[1..] + [x];
    } else {
      assert (s + [x])[1..] == [];
    }
  }

  /** Where JavaScript's `slice` puts a start or end argument: counted from the end if negative, clamped to `[0, len]`. */
  function SliceBound(x: int, len: nat): (r: nat)
    ensures r <= len
    ensures 0 <= x ==> r == Min(x, len)
    ensures x < 0 && -x <= len ==> r == len + x
    ensures x < 0 && len < -x ==> r == 0
  {
    if x < 0 then Max(len + x, 0) else Min(x, len)
  }

  /**
   JavaScript's `slice`: never fails; the run of elements from the placed
   start to the placed end, empty when those cross.
   */
  function Slice<T>(s: seq<T>, start: int, end: int): (r: seq<T>)
    ensures |r| <= |s|
    ensures |r| == Max(0, SliceBound(end, |s|) - SliceBound(start, |s|))
    ensures forall k :: 0 <= k < |r| ==> r[k] == s[SliceBound(start, |s|) + k]
    ensures 0 <= start && 0 <= end ==> |r| == Max(0, Min(end, |s|) - start)
    ensures 0 <= start ==> forall k :: 0 <= k < |r| ==> start + k < |s| && r[k] == s[start + k]
  {
    var from := SliceBound(start, |s|);
    var to := SliceBound(end, |s|);
    if from < to then s[from..to] else []
  }

  /** A slice from 0 to `n`: the first `n` elements, or all of `s` when it is shorter. */
  function Take<T>(s: seq<T>, n: nat): (r: seq<T>)
    ensures |r| == Min(n, |s|)
    ensures r == s[..|r|]
  {
    Slice(s, 0, n)
  }
}
