/** `Slice(begin, end)`: Python's half-open slice `values[begin:end]`. */
module Slicing {
  import opened Values

  /** Python's reading of one slice bound against a sequence of length `n`:
      an omitted bound takes `omitted`, a negative bound counts from the end,
      and the result is clamped into `0..n`. */
  function Resolve(bound: Maybe<int>, n: nat, omitted: nat): (r: nat)
    requires omitted <= n
    ensures r <= n
  {
    match bound
    case Nothing => omitted
    case Just(i) =>
      if i < 0 then (if n + i < 0 then 0 else n + i)
      else if i > n then n
      else i
  }

  /** `r` is the run of `values` that starts at position `lo`. */
  predicate IsRunAt(r: seq<Value>, values: seq<Value>, lo: nat) {
    lo + |r| <= |values| && r == values[lo..lo + |r|]
  }

  /** The items of `values[begin:end]`: a contiguous run of the input, in
      order, never longer than it. */
  function Slice(begin: Maybe<int>, end: Maybe<int>, values: seq<Value>): (r: seq<Value>)
    ensures |r| <= |values|
    ensures exists lo: nat :: IsRunAt(r, values, lo)
  {
    var lo := Resolve(begin, |values|, 0);
    var hi := Resolve(end, |values|, |values|);
    var r := if lo < hi then values[lo..hi] else [];
    assert IsRunAt(r, values, lo);
    r
  }

  /** Reference for `Slice`, as the language defines it without clamping:
      position `k` is selected when it is at or past the start bound and
      before the end bound, a negative bound being read as `n` plus it. */
  predicate InSlice(begin: Maybe<int>, end: Maybe<int>, n: nat, k: nat) {
    && (begin.Nothing? || k >= (if begin.value < 0 then n + begin.value else begin.value))
    && (end.Nothing? || k < (if end.value < 0 then n + end.value else end.value))
  }

  /** The slice holds exactly the positions the reference selects, in order:
      they form one run starting at `lo`, and the slice is that run. */
  lemma SliceSelectsIndices(begin: Maybe<int>, end: Maybe<int>, values: seq<Value>)
    ensures exists lo: nat :: IsRunAt(Slice(begin, end, values), values, lo)
              && forall k :: 0 <= k < |values| ==>
                   (InSlice(begin, end, |values|, k) <==> lo <= k < lo + |Slice(begin, end, values)|)
  {
    var n := |values|;
    var lo := Resolve(begin, n, 0);
    var hi := Resolve(end, n, n);
    var r := Slice(begin, end, values);
    assert |r| == if lo < hi then hi - lo else 0;
    forall k | 0 <= k < n
      ensures InSlice(begin, end, n, k) <==> lo <= k < lo + |r|
    {
    }
    assert IsRunAt(r, values, lo);
  }

  /** `Slice()` returns the whole sequence. */
  lemma SliceWhole(values: seq<Value>)
    ensures Slice(Nothing, Nothing, values) == values
  {
  }

  /** `Slice(None, k)` with `k >= 0` returns the prefix of length `min(k, n)`. */
  lemma SlicePrefix(k: nat, values: seq<Value>)
    ensures Slice(Nothing, Just(k), values) == values[..if k < |values| then k else |values|]
  {
  }

  /** `values[:k] + values[k:] == values`, for every `k`, negative included. */
  lemma SliceSplit(k: int, values: seq<Value>)
    ensures Slice(Nothing, Just(k), values) + Slice(Just(k), Nothing, values) == values
  {
  }

  /** Re-slicing the result with the same bounds changes nothing when the start
      bound is not positive and the end bound is not negative. */
  lemma SliceIdempotent(begin: Maybe<int>, end: Maybe<int>, values: seq<Value>)
    requires begin.Nothing? || begin.value <= 0
    requires end.Nothing? || end.value >= 0
    ensures Slice(begin, end, Slice(begin, end, values)) == Slice(begin, end, values)
  {
  }

  /** Slicing is not idempotent in general: `Slice(1)` drops one more element
      each time it is applied. */
  lemma SliceNotIdempotent()
    ensures Slice(Just(1), Nothing, [Int(2), Int(3), Int(5)]) == [Int(3), Int(5)]
    ensures Slice(Just(1), Nothing, [Int(3), Int(5)]) == [Int(5)]
  {
  }

  /** The documented examples. */
  lemma SliceExamples()
    ensures Slice(Nothing, Nothing, [Int(2), Int(3), Int(5), Int(7)]) == [Int(2), Int(3), Int(5), Int(7)]
    ensures Slice(Nothing, Just(3), [Int(2), Int(3), Int(5), Int(7)]) == [Int(2), Int(3), Int(5)]
  {
  }
}
