/** `MapCompose(*functions, **defaults)`: applies each stage in turn to every
    value of a working list, flattening what each call returns into the next
    working list. */
module MapComposeProcessor {
  import opened Values
  import opened LoaderContext

  /** A pipeline: its stages and its default context, both fixed when it is
      built. */
  datatype MapCompose = MapCompose(functions: seq<Stage>, defaults: Context)

  /** Every call of `f` on `values` yields nothing once coerced. */
  predicate AllDropped(f: Value -> Value, values: seq<Value>) {
    forall i :: 0 <= i < |values| ==> Iter(f(values[i])) == []
  }

  /** One stage: `f` applied to every value in order, each result coerced to a
      list, the lists concatenated. */
  function FlatMap(f: Value -> Value, values: seq<Value>): (r: seq<Value>)
    ensures r == [] <==> AllDropped(f, values)
    decreases |values|
  {
    if values == [] then []
    else FlatMap(f, values[..|values| - 1]) + Iter(f(values[|values| - 1]))
  }

  /** All stages, first to last, on a working list. */
  function Stages(fs: seq<Value -> Value>, values: seq<Value>): (r: seq<Value>)
    ensures fs == [] ==> r == values
    ensures values == [] ==> r == []
    decreases |fs|
  {
    if |fs| == 0 then values else Stages(fs[1..], FlatMap(fs[0], values))
  }

  /** `MapCompose(...)(value, loader_context)`. The input is coerced first;
      with no stages that coerced value itself is returned (a tuple stays a
      tuple), otherwise a fresh list holding the final working list. */
  function Call(p: MapCompose, value: Value, runtime: Maybe<Context>): (r: Value)
    ensures IsIterable(r)
    ensures r.items == Stages(WrapAll(p.functions, Merge(runtime, p.defaults)), Iter(value))
    ensures p.functions == [] ==> r == ArgToIter(value)
  {
    var fs := WrapAll(p.functions, Merge(runtime, p.defaults));
    if |fs| == 0 then ArgToIter(value) else List(Stages(fs, Iter(value)))
  }

  /** A value is in a stage's output exactly when the stage's coerced result
      on some input value contains it. */
  lemma {:induction false} FlatMapMembership(f: Value -> Value, values: seq<Value>, x: Value)
    ensures x in FlatMap(f, values) <==> exists i :: 0 <= i < |values| && x in Iter(f(values[i]))
    decreases |values|
  {
    if values != [] {
      var n := |values| - 1;
      var front := values[..n];
      var last := Iter(f(values[n]));
      assert FlatMap(f, values) == FlatMap(f, front) + last;
      FlatMapMembership(f, front, x);
      if x in FlatMap(f, values) {
        if x in FlatMap(f, front) {
          var i :| 0 <= i < n && x in Iter(f(front[i]));
          assert front[i] == values[i];
        } else {
          assert x in Iter(f(values[n]));
        }
      }
      if exists i :: 0 <= i < |values| && x in Iter(f(values[i])) {
        var i :| 0 <= i < |values| && x in Iter(f(values[i]));
        if i < n {
          assert front[i] == values[i];
          assert x in FlatMap(f, front);
        }
      }
    }
  }

  /** One stage distributes over concatenation of its input. */
  lemma {:induction false} FlatMapConcat(f: Value -> Value, xs: seq<Value>, ys: seq<Value>)
    ensures FlatMap(f, xs + ys) == FlatMap(f, xs) + FlatMap(f, ys)
    decreases |ys|
  {
    if ys == [] {
      assert xs + ys == xs;
    } else {
      var n := |ys| - 1;
      var last := Iter(f(ys[n]));
      assert (xs + ys)[..|xs + ys| - 1] == xs + ys[..n];
      assert (xs + ys)[|xs + ys| - 1] == ys[n];
      assert FlatMap(f, xs + ys) == FlatMap(f, xs + ys[..n]) + last;
      assert FlatMap(f, ys) == FlatMap(f, ys[..n]) + last;
      FlatMapConcat(f, xs, ys[..n]);
    }
  }

  /** The whole pipeline distributes over concatenation: each input value is
      processed on its own and the results are concatenated in order. */
  lemma {:induction false} StagesConcat(fs: seq<Value -> Value>, xs: seq<Value>, ys: seq<Value>)
    ensures Stages(fs, xs + ys) == Stages(fs, xs) + Stages(fs, ys)
    decreases |fs|
  {
    if |fs| > 0 {
      FlatMapConcat(fs[0], xs, ys);
      StagesConcat(fs[1..], FlatMap(fs[0], xs), FlatMap(fs[0], ys));
    }
  }

  /** Running two pipelines one after the other is running their
      concatenation. */
  lemma {:induction false} StagesAppend(fs: seq<Value -> Value>, gs: seq<Value -> Value>, values: seq<Value>)
    ensures Stages(fs + gs, values) == Stages(gs, Stages(fs, values))
    decreases |fs|
  {
    if |fs| == 0 {
      assert fs + gs == gs;
    } else {
      assert (fs + gs)[1..] == fs[1..] + gs;
      StagesAppend(fs[1..], gs, FlatMap(fs[0], values));
    }
  }

  /** A stage whose results are all single non-`None` scalars is a plain
      element-wise map; a stage result of `None` drops that value. */
  lemma {:induction false} FlatMapOfScalars(f: Value -> Value, values: seq<Value>)
    requires forall i :: 0 <= i < |values| ==> f(values[i]) != None && !IsIterable(f(values[i]))
    ensures FlatMap(f, values) == seq(|values|, i requires 0 <= i < |values| => f(values[i]))
    decreases |values|
  {
    if values != [] {
      var n := |values| - 1;
      FlatMapOfScalars(f, values[..n]);
    }
  }

  lemma FlatMapDropsNone(f: Value -> Value, v: Value)
    requires f(v) == None
    ensures FlatMap(f, [v]) == []
  {
  }

  /** The nested loop as written: for each stage, a new list is built by
      appending the coerced result of the stage on each value. */
  method Run(fs: seq<Value -> Value>, values: seq<Value>) returns (r: seq<Value>)
    ensures r == Stages(fs, values)
    ensures fs == [] ==> r == values
  {
    r := values;
    var k := 0;
    while k < |fs|
      invariant k <= |fs|
      invariant Stages(fs, values) == Stages(fs[k..], r)
    {
      var next := [];
      var i := 0;
      while i < |r|
        invariant i <= |r|
        invariant next == FlatMap(fs[k], r[..i])
      {
        assert r[..i + 1][..i] == r[..i];
        next := next + Iter(fs[k](r[i]));
        i := i + 1;
      }
      assert r[..|r|] == r;
      assert fs[k..][1..] == fs[k + 1..];
      r := next;
      k := k + 1;
    }
  }

  /** A `None` input or an empty sequence gives an empty result whatever the
      stages are. */
  lemma MapComposeOfEmpty(p: MapCompose, value: Value, runtime: Maybe<Context>)
    requires value == None || (IsIterable(value) && value.items == [])
    ensures Call(p, value, runtime).items == []
  {
  }

  /** The flattening example: a stage returning several values for one input
      contributes all of them, in order. */
  lemma MapComposeExpandExample(expand: Value -> Value)
    requires forall v :: expand(v) == List([v, v])
    ensures Call(MapCompose([Plain(expand)], map[]), List([Int(1), Int(2)]), Nothing)
            == List([Int(1), Int(1), Int(2), Int(2)])
  {
    var fs := WrapAll([Plain(expand)], map[]);
    assert fs[0] == expand;
    assert [Int(1), Int(2)][..1] == [Int(1)];
    assert [Int(1)][..0] == [];
    assert FlatMap(expand, [Int(1), Int(2)]) == [Int(1), Int(1), Int(2), Int(2)];
    assert fs[1..] == [];
    assert Stages(fs, [Int(1), Int(2)]) == FlatMap(expand, [Int(1), Int(2)]);
  }
}
