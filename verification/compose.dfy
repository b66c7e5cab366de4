/** `Compose(*functions, **defaults)`: threads one value through a chain of
    stages, left to right, stopping at a `None` unless told not to. */
module ComposeProcessor {
  import opened Values
  import opened LoaderContext

  /** A pipeline: its stages and its default context, both fixed when it is
      built. */
  datatype Compose = Compose(functions: seq<Stage>, defaults: Context)

  /** The `stop_on_none` option, read from the defaults when the pipeline is
      built; it is on unless the defaults give it a false value. */
  function StopOnNone(defaults: Context): (stop: bool)
    ensures "stop_on_none" !in defaults ==> stop
    ensures "stop_on_none" in defaults ==> (stop <==> Truthy(defaults["stop_on_none"]))
  {
    if "stop_on_none" in defaults then Truthy(defaults["stop_on_none"]) else true
  }

  /** Reference for the chain: the value before each stage and, last, the
      value after the final stage, with no early exit. */
  function Trace(fs: seq<Value -> Value>, value: Value): (t: seq<Value>)
    ensures |t| == |fs| + 1
    ensures t[0] == value
    ensures forall i :: 0 <= i < |fs| ==> t[i + 1] == fs[i](t[i])
    decreases |fs|
  {
    if |fs| == 0 then [value]
    else [value] + Trace(fs[1..], fs[0](value))
  }

  /** Runs the stages in order; with `stop` set, a `None` met before a stage
      ends the run with `None`. */
  function Chain(fs: seq<Value -> Value>, value: Value, stop: bool): (r: Value)
    ensures |fs| == 0 ==> r == value
    ensures stop && value == None ==> r == None
    ensures stop && r != None ==> forall i :: 0 <= i <= |fs| ==> Trace(fs, value)[i] != None
    decreases |fs|
  {
    if |fs| == 0 then value
    else if value == None && stop then None
    else Chain(fs[1..], fs[0](value), stop)
  }

  /** `Compose(...)(value, loader_context)`: the stages, bound to the runtime
      context merged over the defaults, applied to `value`. With
      `stop_on_none` on, a `None` met before some stage makes the result
      `None`; otherwise the result is the value after the last stage. */
  function Call(p: Compose, value: Value, runtime: Maybe<Context>): (r: Value)
    ensures r == if StopOnNone(p.defaults)
                    && exists i :: 0 <= i < |p.functions|
                         && Trace(WrapAll(p.functions, Merge(runtime, p.defaults)), value)[i] == None
                 then None
                 else Trace(WrapAll(p.functions, Merge(runtime, p.defaults)), value)[|p.functions|]
  {
    var fs := WrapAll(p.functions, Merge(runtime, p.defaults));
    ChainMatchesTrace(fs, value, StopOnNone(p.defaults));
    Chain(fs, value, StopOnNone(p.defaults))
  }

  /** The chain returns `None` when a `None` appears before some stage and
      `stop` is set, and otherwise the value after the last stage. */
  lemma {:induction false} ChainMatchesTrace(fs: seq<Value -> Value>, value: Value, stop: bool)
    ensures Chain(fs, value, stop)
            == if stop && exists i :: 0 <= i < |fs| && Trace(fs, value)[i] == None then None
               else Trace(fs, value)[|fs|]
    decreases |fs|
  {
    if |fs| > 0 {
      var t := Trace(fs, value);
      var rest := Trace(fs[1..], fs[0](value));
      assert t == [value] + rest;
      ChainMatchesTrace(fs[1..], fs[0](value), stop);
      if stop && value != None {
        assert (exists i :: 0 <= i < |fs| && t[i] == None)
               <==> (exists i :: 0 <= i < |fs[1..]| && rest[i] == None) by {
          forall i | 0 <= i < |fs[1..]| && rest[i] == None
            ensures 0 <= i + 1 < |fs| && t[i + 1] == None
          {
          }
          forall i | 0 <= i < |fs| && t[i] == None
            ensures 0 <= i - 1 < |fs[1..]| && rest[i - 1] == None
          {
          }
        }
      }
    }
  }

  /** Running two chains one after the other is running their concatenation. */
  lemma {:induction false} ChainAppend(fs: seq<Value -> Value>, gs: seq<Value -> Value>, value: Value, stop: bool)
    ensures Chain(fs + gs, value, stop) == Chain(gs, Chain(fs, value, stop), stop)
    decreases |fs|
  {
    if |fs| == 0 {
      assert fs + gs == gs;
    } else if value == None && stop {
      if |gs| > 0 {
        assert Chain(gs, None, stop) == None;
      }
    } else {
      assert (fs + gs)[1..] == fs[1..] + gs;
      ChainAppend(fs[1..], gs, fs[0](value), stop);
    }
  }

  /** The loop as written: it returns the result together with the number of
      stages it invoked. Every invoked stage met a value that does not stop
      the chain; stopping early happens only on a `None` with `stop` set, and
      no later stage is invoked. */
  method Run(fs: seq<Value -> Value>, value: Value, stop: bool) returns (r: Value, invoked: nat)
    ensures invoked <= |fs|
    ensures forall j :: 0 <= j < invoked ==> !(stop && Trace(fs, value)[j] == None)
    ensures invoked < |fs| ==> stop && Trace(fs, value)[invoked] == None && r == None
    ensures invoked == |fs| ==> r == Trace(fs, value)[|fs|]
    ensures r == Chain(fs, value, stop)
  {
    r := value;
    invoked := 0;
    while invoked < |fs|
      invariant invoked <= |fs|
      invariant r == Trace(fs, value)[invoked]
      invariant forall j :: 0 <= j < invoked ==> !(stop && Trace(fs, value)[j] == None)
      invariant Chain(fs, value, stop) == Chain(fs[invoked..], r, stop)
    {
      if r == None && stop {
        break;
      }
      assert fs[invoked..][1..] == fs[invoked + 1..];
      r := fs[invoked](r);
      invoked := invoked + 1;
    }
  }

  /** With no stages the input comes back unchanged. */
  lemma ComposeEmpty(defaults: Context, value: Value, runtime: Maybe<Context>)
    ensures Call(Compose([], defaults), value, runtime) == value
  {
  }

  /** With `stop_on_none` on (the default), a `None` input gives `None`
      whatever the stages are. */
  lemma ComposeStopsOnNone(p: Compose, runtime: Maybe<Context>)
    requires StopOnNone(p.defaults)
    ensures Call(p, None, runtime) == None
  {
  }

  /** With `stop_on_none` off, every stage runs, `None` included: the result
      is the plain left-to-right composition. */
  lemma ComposeWithoutStop(p: Compose, value: Value, runtime: Maybe<Context>)
    requires !StopOnNone(p.defaults)
    ensures Call(p, value, runtime)
            == Trace(WrapAll(p.functions, Merge(runtime, p.defaults)), value)[|p.functions|]
  {
    ChainMatchesTrace(WrapAll(p.functions, Merge(runtime, p.defaults)), value, false);
  }

  /** A runtime context that is absent or empty makes no difference, and a
      pipeline of plain stages ignores the runtime context altogether. */
  lemma ComposeRuntimeContext(p: Compose, value: Value, runtime: Maybe<Context>)
    ensures Call(p, value, Just(map[])) == Call(p, value, Nothing)
    ensures (forall i :: 0 <= i < |p.functions| ==> p.functions[i].Plain?)
            ==> Call(p, value, runtime) == Call(p, value, Nothing)
  {
    RuntimeContextIrrelevance(p.functions, runtime, p.defaults);
  }

  /** A context-aware stage receives the runtime context merged over the
      defaults: a runtime key shadows the default of the same name. */
  lemma ComposeAwareStageSeesMergedContext(g: (Value, Context) -> Value, defaults: Context,
                                           value: Value, runtime: Maybe<Context>, key: string)
    requires value != None || !StopOnNone(defaults)
    ensures Call(Compose([Aware(g)], defaults), value, runtime)
            == g(value, Merge(runtime, defaults))
    ensures runtime.Just? && key in runtime.value ==> Merge(runtime, defaults)[key] == runtime.value[key]
    ensures key in defaults && (runtime.Nothing? || key !in runtime.value)
            ==> Merge(runtime, defaults)[key] == defaults[key]
  {
    var ctx := Merge(runtime, defaults);
    var fs := WrapAll([Aware(g)], ctx);
    assert fs[0] == Wrap(Aware(g), ctx);
    assert fs[0](value) == g(value, ctx);
    assert fs[1..] == [];
    assert Chain(fs, value, StopOnNone(defaults)) == Chain(fs[1..], fs[0](value), StopOnNone(defaults));
  }

  /** The documented short circuit: `Compose(f, g)(None)` returns `None`
      without calling either; with `stop_on_none=False` it returns
      `g(f(None))`. */
  lemma ComposeExamples(f: Value -> Value, g: Value -> Value)
    ensures Call(Compose([Plain(f), Plain(g)], map[]), None, Nothing) == None
    ensures Call(Compose([Plain(f), Plain(g)], map["stop_on_none" := Bool(false)]), None, Nothing)
            == g(f(None))
  {
    var defaults := map["stop_on_none" := Bool(false)];
    var fs := WrapAll([Plain(f), Plain(g)], defaults);
    assert !StopOnNone(defaults);
    assert fs[0] == f && fs[1] == g;
    assert fs[1..][1..] == [];
    assert Chain(fs, None, false) == Chain(fs[1..], f(None), false) == Chain(fs[1..][1..], g(f(None)), false);
  }
}
