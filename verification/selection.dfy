/** The selection processors: `Filter` keeps the values a predicate accepts,
    and `TakeFirst` returns the first such value. */
module Selection {
  import opened Values

  /** The predicate a selection processor tests values with. `NotMissing` is
      the default one (neither `None` nor the empty string); `Truthiness` is
      what an explicit `None` predicate means (Python's `bool`); `Custom` is a
      user function whose result is tested for truthiness. */
  datatype Predicate =
    | NotMissing
    | Truthiness
    | Custom(f: Value -> Value)

  /** Whether `p` accepts `v`. The default predicate accepts every truthy
      value and, besides those, the present-but-false ones: zero, `False` and
      the empty sequences. */
  function Holds(p: Predicate, v: Value): (r: bool)
    ensures p.NotMissing? ==> (r <==> Truthy(v) || v == Int(0) || v == Bool(false)
                                       || v == List([]) || v == Tuple([]))
    ensures p.Truthiness? ==> (r <==> Truthy(v))
    ensures p.Custom? ==> (r <==> Truthy(p.f(v)))
  {
    match p
    case NotMissing => v != None && v != Str("")
    case Truthiness => Truthy(v)
    case Custom(f) => Truthy(f(v))
  }

  /** The default predicate and truthiness part ways exactly on the values
      that are present but false: zero, `False` and empty sequences. */
  lemma DefaultVersusTruthiness(v: Value)
    ensures Holds(Truthiness, v) ==> Holds(NotMissing, v)
    ensures Holds(NotMissing, v) && !Holds(Truthiness, v)
            <==> v == Int(0) || v == Bool(false) || (IsIterable(v) && v.items == [])
  {
  }

  /** `Filter(p)(values)`: the values `p` accepts, in their original order.
      (The processor hands them back as a tuple.) */
  function Filter(p: Predicate, values: seq<Value>): (r: seq<Value>)
    ensures |r| <= |values|
    ensures forall k :: 0 <= k < |r| ==> Holds(p, r[k])
  {
    if values == [] then []
    else
      assert values == [values[0]] + values[1..];
      (if Holds(p, values[0]) then [values[0]] else []) + Filter(p, values[1..])
  }

  /** Reference for `Filter`: the positions of the accepted values, ascending. */
  function KeptIndices(p: Predicate, values: seq<Value>): (idx: seq<nat>)
    ensures forall k :: 0 <= k < |idx| ==> idx[k] < |values| && Holds(p, values[idx[k]])
    ensures forall k, l :: 0 <= k < l < |idx| ==> idx[k] < idx[l]
    ensures forall i :: 0 <= i < |values| && Holds(p, values[i]) ==> i in idx
  {
    if values == [] then []
    else
      var n := |values| - 1;
      var front := KeptIndices(p, values[..n]);
      front + (if Holds(p, values[n]) then [n] else [])
  }

  /** Filtering distributes over concatenation. */
  lemma {:induction false} FilterConcat(p: Predicate, xs: seq<Value>, ys: seq<Value>)
    ensures Filter(p, xs + ys) == Filter(p, xs) + Filter(p, ys)
    decreases |xs|
  {
    if xs == [] {
      assert xs + ys == ys;
    } else {
      assert (xs + ys)[1..] == xs[1..] + ys;
      FilterConcat(p, xs[1..], ys);
    }
  }

  /** `Filter` returns exactly the accepted values, in order: its k-th result
      is the value at the k-th accepted position. */
  lemma {:induction false} FilterSelectsKeptIndices(p: Predicate, values: seq<Value>)
    ensures |Filter(p, values)| == |KeptIndices(p, values)|
    ensures forall k :: 0 <= k < |Filter(p, values)| ==>
              Filter(p, values)[k] == values[KeptIndices(p, values)[k]]
    decreases |values|
  {
    if values != [] {
      var n := |values| - 1;
      var front := values[..n];
      assert values == front + [values[n]];
      FilterConcat(p, front, [values[n]]);
      FilterSelectsKeptIndices(p, front);
      assert [values[n]][1..] == [];
      var tail := if Holds(p, values[n]) then [values[n]] else [];
      assert Filter(p, [values[n]]) == tail;
      assert Filter(p, values) == Filter(p, front) + tail;
      assert KeptIndices(p, values) == KeptIndices(p, front) + (if Holds(p, values[n]) then [n] else []);
      forall k | 0 <= k < |Filter(p, front)|
        ensures Filter(p, values)[k] == values[KeptIndices(p, values)[k]]
      {
        assert Filter(p, values)[k] == Filter(p, front)[k];
        assert KeptIndices(p, values)[k] == KeptIndices(p, front)[k];
      }
    }
  }

  /** A value survives filtering exactly when it occurs in the input and is
      accepted. */
  lemma {:induction false} FilterMembership(p: Predicate, values: seq<Value>, v: Value)
    ensures v in Filter(p, values) <==> v in values && Holds(p, v)
    decreases |values|
  {
    if values != [] {
      FilterMembership(p, values[1..], v);
      assert values == [values[0]] + values[1..];
    }
  }

  /** Filtering is idempotent: everything left already passes. */
  lemma {:induction false} FilterIdempotent(p: Predicate, values: seq<Value>)
    ensures Filter(p, Filter(p, values)) == Filter(p, values)
    decreases |values|
  {
    if values != [] {
      var head := if Holds(p, values[0]) then [values[0]] else [];
      FilterConcat(p, head, Filter(p, values[1..]));
      FilterIdempotent(p, values[1..]);
      if Holds(p, values[0]) {
        assert [values[0]][1..] == [];
      }
    }
  }

  /** The position of the first accepted value, if any. */
  function FirstMatch(p: Predicate, values: seq<Value>): (r: Maybe<nat>)
    ensures r.Just? ==> r.value < |values| && Holds(p, values[r.value])
                        && forall j :: 0 <= j < r.value ==> !Holds(p, values[j])
    ensures r.Nothing? ==> forall j :: 0 <= j < |values| ==> !Holds(p, values[j])
  {
    if values == [] then Nothing
    else if Holds(p, values[0]) then Just(0)
    else
      match FirstMatch(p, values[1..])
      case Nothing => Nothing
      case Just(i) => Just(i + 1)
  }

  /** `TakeFirst(p)(values)`: the first value `p` accepts, scanning left to
      right, or `None` when there is none. A found `None` and "nothing found"
      give the same result. */
  function TakeFirst(p: Predicate, values: seq<Value>): (r: Value)
    ensures (forall i :: 0 <= i < |values| ==> !Holds(p, values[i])) ==> r == None
    ensures forall i :: (0 <= i < |values| && Holds(p, values[i])
              && forall j :: 0 <= j < i ==> !Holds(p, values[j])) ==> r == values[i]
  {
    match FirstMatch(p, values)
    case Nothing => None
    case Just(i) => values[i]
  }

  /** `TakeFirst` picks the head of what `Filter` keeps. */
  lemma {:induction false} TakeFirstIsHeadOfFilter(p: Predicate, values: seq<Value>)
    ensures TakeFirst(p, values) == (if Filter(p, values) == [] then None else Filter(p, values)[0])
  {
    FilterSelectsKeptIndices(p, values);
  }

  /** A found `None` and "nothing found" cannot be told apart. */
  lemma TakeFirstConflatesNone(p: Predicate)
    requires Holds(p, None)
    ensures TakeFirst(p, [None]) == TakeFirst(p, [])
  {
  }

  /** The documented examples, with `0.0` written as the integer `0` (it has
      the same truthiness): the default predicate keeps zero and negative
      numbers, an explicit `None` predicate keeps only truthy values. */
  lemma FilterDefaultExample()
    ensures Filter(NotMissing, [Str("A"), Int(0), Str(""), Int(0), None, Int(-1)])
            == [Str("A"), Int(0), Int(0), Int(-1)]
  {
  }

  lemma FilterTruthinessExample()
    ensures Filter(Truthiness, [Str("A"), Int(0), Str(""), Int(0), None, Int(-1)])
            == [Str("A"), Int(-1)]
  {
  }

  lemma TakeFirstExamples()
    ensures TakeFirst(NotMissing, [Int(0), Str("A")]) == Int(0)
    ensures TakeFirst(NotMissing, [Str(""), Int(0)]) == Int(0)
    ensures TakeFirst(NotMissing, [None, Str("A")]) == Str("A")
    ensures TakeFirst(Truthiness, [Int(0), Str("A")]) == Str("A")
    ensures TakeFirst(Truthiness, [Str(""), Int(0)]) == None
    ensures TakeFirst(Truthiness, [None, Str("A")]) == Str("A")
  {
  }
}
