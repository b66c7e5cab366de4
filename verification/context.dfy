/** The loader context handed to pipeline stages: the runtime context merged
    over a pipeline's own defaults, and the two calling conventions a stage
    may use. */
module LoaderContext {
  import opened Values

  /** Named parameters, keyed by name. */
  type Context = map<string, Value>

  /** Looks a key up in a chain of mappings, first mapping first: the lookup
      a merged dictionary performs. */
  function LookupFirst(chain: seq<Context>, key: string): (r: Maybe<Value>)
    ensures r.Just? <==> exists i :: 0 <= i < |chain| && key in chain[i]
    ensures r.Just? ==> exists i :: 0 <= i < |chain| && key in chain[i] && r.value == chain[i][key]
                          && forall j :: 0 <= j < i ==> key !in chain[j]
  {
    if |chain| == 0 then Nothing
    else if key in chain[0] then Just(chain[0][key])
    else
      var r := LookupFirst(chain[1..], key);
      assert forall i :: 1 <= i < |chain| ==> chain[i] == chain[1..][i - 1];
      r
  }

  /** The context the stages of a pipeline receive. A runtime context that is
      absent or empty leaves the defaults as they are; otherwise every key of
      the runtime context shadows the default of the same name. */
  function Merge(runtime: Maybe<Context>, defaults: Context): (ctx: Context)
    ensures runtime == Nothing || runtime.value == map[] ==> ctx == defaults
    ensures runtime.Just? ==> ctx.Keys == runtime.value.Keys + defaults.Keys
    ensures runtime.Just? ==> forall k :: k in runtime.value ==> ctx[k] == runtime.value[k]
    ensures forall k :: k in defaults && (runtime == Nothing || k !in runtime.value) ==> ctx[k] == defaults[k]
  {
    match runtime
    case Just(m) => if m == map[] then defaults else defaults + m
    case Nothing => defaults
  }

  /** Looking a key up in the merged context is looking it up in the runtime
      context first and in the defaults second. */
  lemma MergeIsLookupChain(runtime: Context, defaults: Context, key: string)
    ensures LookupFirst([runtime, defaults], key)
            == (if key in Merge(Just(runtime), defaults) then Just(Merge(Just(runtime), defaults)[key]) else Nothing)
  {
  }

  /** A pipeline stage. A plain stage takes the value only; a context-aware
      stage (one declaring a `loader_context` parameter) also receives the
      merged context. */
  datatype Stage =
    | Plain(f: Value -> Value)
    | Aware(g: (Value, Context) -> Value)

  /** Binds the merged context into a stage, giving a one-argument function. */
  function Wrap(st: Stage, ctx: Context): (h: Value -> Value)
    ensures st.Plain? ==> h == st.f
    ensures st.Aware? ==> forall v :: h(v) == st.g(v, ctx)
  {
    match st
    case Plain(f) => f
    case Aware(g) => v => g(v, ctx)
  }

  /** Binds the merged context into every stage, keeping their order. */
  function WrapAll(stages: seq<Stage>, ctx: Context): (fs: seq<Value -> Value>)
    ensures |fs| == |stages|
    ensures forall i :: 0 <= i < |stages| ==> fs[i] == Wrap(stages[i], ctx)
  {
    seq(|stages|, i requires 0 <= i < |stages| => Wrap(stages[i], ctx))
  }

  /** What the runtime context can change: an empty runtime context binds the
      same functions as an absent one, and stages that are all plain bind the
      same functions whatever the context. */
  lemma RuntimeContextIrrelevance(stages: seq<Stage>, runtime: Maybe<Context>, defaults: Context)
    ensures WrapAll(stages, Merge(Just(map[]), defaults)) == WrapAll(stages, Merge(Nothing, defaults))
    ensures (forall i :: 0 <= i < |stages| ==> stages[i].Plain?)
            ==> WrapAll(stages, Merge(runtime, defaults)) == WrapAll(stages, Merge(Nothing, defaults))
  {
  }
}
