# Item-loader value processors, modelled in Dafny

This project models the value processors of Scrapy's item loaders
(`scrapy/contrib/loader/processor.py`). These are small callables that normalise
extracted field values:

- selection and reduction primitives over a list of values: `Filter`, `Slice`,
  `TakeFirst`, `Identity` and `Join`;
- two pipeline combinators, each built from an ordered list of stages and a
  default loader context:
  - `Compose` threads one value through its stages and stops at `None`;
  - `MapCompose` flat-maps a working list through its stages.

A Python value is the datatype `Values.Value`: `None`, strings, integers,
booleans, lists and tuples. A stage is a Dafny function value. Python's
signature introspection (does the function declare `loader_context`?) becomes
an explicit tag, `LoaderContext.Stage`: `Plain(f)` or `Aware(g)`.

Files:

| file | module | models |
|---|---|---|
| values.dfy | `Values` | the value datatype, truthiness, the list coercion `arg_to_iter` |
| context.dfy | `LoaderContext` | the merged loader context, stage wrapping |
| selection.dfy | `Selection` | `Filter`, `TakeFirst` and their predicates |
| identity.dfy | `IdentityProcessor` | `Identity` |
| slice.dfy | `Slicing` | `Slice` with Python's half-open slice semantics |
| join.dfy | `Joining` | `Join` |
| compose.dfy | `ComposeProcessor` | `Compose` |
| map_compose.dfy | `MapComposeProcessor` | `MapCompose` |

Two facts about the code worth stating up front:

- `Filter(None)` passes `None` to the built-in `filter`, which then keeps only
  truthy values; the doc-test at processor.py:56-57 gives `('A', -1)`
  (`Selection.FilterTruthinessExample`).
- `Slice` is not idempotent in general (`Slicing.SliceNotIdempotent`);
  `Slicing.SliceIdempotent` gives a sufficient condition.

## Model

| member | source | states |
|---|---|---|
| Values.Truthy | scrapy/contrib/loader/processor.py:95 | exactly six values are false (`None`, `''`, `0`, `False`, `[]`, `()`), every other value is true, as Python's `bool` |
| Values.ArgToIter | scrapy/contrib/loader/processor.py:18 | the coercion always yields a sequence: `None` gives an empty list, a list or tuple is returned unchanged, any other value (a string included) gives a one-element list |
| Values.Iter | scrapy/contrib/loader/processor.py:26-27 | the coerced value yields no elements exactly when the input is `None` or an empty sequence |
| Values.ArgToIterIdempotent | scrapy/contrib/loader/processor.py:18 | coercing an already coerced value changes nothing |
| LoaderContext.LookupFirst | scrapy/contrib/loader/processor.py:20 | a chained lookup finds a key exactly when some mapping has it, and returns the value from the first mapping that has it |
| LoaderContext.Merge | scrapy/contrib/loader/processor.py:19-22 | an absent or empty runtime context leaves the defaults as they are; otherwise the keys are the union of both, runtime values win on collision, and defaults fill in the other keys |
| LoaderContext.MergeIsLookupChain | scrapy/contrib/loader/processor.py:20 | looking a key up in the merged context agrees with looking it up in the runtime context first and in the defaults second |
| LoaderContext.Wrap | scrapy/contrib/loader/processor.py:23 | a plain stage is bound to itself; a context-aware stage is called with the value and the given context |
| LoaderContext.WrapAll | scrapy/contrib/loader/processor.py:23 | every stage is bound to the same merged context, and the stages keep their order |
| LoaderContext.RuntimeContextIrrelevance | scrapy/contrib/loader/processor.py:19-23 | an empty runtime context binds the same functions as an absent one, and all-plain stages bind the same functions whatever the runtime context |
| Selection.Holds | scrapy/contrib/loader/processor.py:62 | the default predicate accepts the truthy values plus `0`, `False` and the empty sequences; an explicit `None` predicate is truthiness; a user predicate is the truthiness of its result |
| Selection.DefaultVersusTruthiness | scrapy/contrib/loader/processor.py:94-95 | a truthy value passes the default predicate; the default predicate and truthiness disagree exactly on zero, `False` and empty sequences |
| Selection.Filter | scrapy/contrib/loader/processor.py:65-66 | the result is no longer than the input and every value in it passes the predicate |
| Selection.KeptIndices | scrapy/contrib/loader/processor.py:65-66 | the reference positions for filtering: strictly ascending, all in range and accepted, and every accepted position is among them |
| Selection.FilterSelectsKeptIndices | scrapy/contrib/loader/processor.py:65-66 | the k-th filtered value is the input value at the k-th accepted position, so the result holds exactly the accepted values in their original order |
| Selection.FilterMembership | scrapy/contrib/loader/processor.py:62-66 | a value is in the result if and only if it is in the input and passes the predicate |
| Selection.FilterConcat | scrapy/contrib/loader/processor.py:65-66 | filtering a concatenation concatenates the filtered parts |
| Selection.FilterIdempotent | scrapy/contrib/loader/processor.py:65-66 | filtering the result again changes nothing |
| Selection.FilterDefaultExample | scrapy/contrib/loader/processor.py:54-55 | the default predicate drops only `None` and `''`: `['A', 0, '', 0, None, -1]` gives `('A', 0, 0, -1)` |
| Selection.FilterTruthinessExample | scrapy/contrib/loader/processor.py:56-57 | `Filter(None)` keeps only truthy values: the same input gives `('A', -1)` |
| Selection.FirstMatch | scrapy/contrib/loader/processor.py:97-100 | when found, the position holds an accepted value and no earlier one is accepted; when not found, no value is accepted |
| Selection.TakeFirst | scrapy/contrib/loader/processor.py:94-100 | the result is the leftmost accepted value, or `None` when no value is accepted |
| Selection.TakeFirstIsHeadOfFilter | scrapy/contrib/loader/processor.py:97-100 | the result is the first value `Filter` would keep with the same predicate, or `None` when `Filter` keeps nothing |
| Selection.TakeFirstConflatesNone | scrapy/contrib/loader/processor.py:97-100 | a found `None` and "no match" give the same result |
| Selection.TakeFirstExamples | scrapy/contrib/loader/processor.py:86-89 | the documented cases: the default gives `0, 0, 'A'`; `TakeFirst(None)` gives `'A', None, 'A'` |
| IdentityProcessor.Identity | scrapy/contrib/loader/processor.py:105-106 | the input comes back unchanged |
| IdentityProcessor.IdentityIdempotent | scrapy/contrib/loader/processor.py:105-106 | applying `Identity` twice equals applying it once |
| Slicing.Resolve | scrapy/contrib/loader/processor.py:80-81 | every resolved slice bound lies between 0 and the length |
| Slicing.Slice | scrapy/contrib/loader/processor.py:77-81 | the result is a contiguous run of the input, in order, and never longer than it |
| Slicing.SliceSelectsIndices | scrapy/contrib/loader/processor.py:80-81 | the slice is the run of exactly those positions that the unclamped definition selects (negative bounds counted from the end) |
| Slicing.SliceWhole | scrapy/contrib/loader/processor.py:71-72 | `Slice()` returns the whole sequence |
| Slicing.SlicePrefix | scrapy/contrib/loader/processor.py:73-74 | `Slice(None, k)` with `k >= 0` returns the prefix of length `min(k, n)` |
| Slicing.SliceSplit | scrapy/contrib/loader/processor.py:80-81 | `values[:k] + values[k:] == values` for every integer `k` |
| Slicing.SliceIdempotent | scrapy/contrib/loader/processor.py:80-81 | with a start bound that is omitted or not positive and an end bound that is omitted or not negative, slicing the result again changes nothing |
| Slicing.SliceNotIdempotent | scrapy/contrib/loader/processor.py:80-81 | `Slice(1)` applied twice drops two elements, so slicing is not idempotent in general |
| Slicing.SliceExamples | scrapy/contrib/loader/processor.py:71-74 | the documented cases `Slice()` and `Slice(None, 3)` on `[2, 3, 5, 7]` |
| Joining.Join | scrapy/contrib/loader/processor.py:114-115 | no parts give `""`; one part gives that part; otherwise the length is the total part length plus one separator per gap |
| Joining.JoinAppend | scrapy/contrib/loader/processor.py:114-115 | joining one more part appends the separator and that part |
| Joining.JoinSplitRoundTrip | scrapy/contrib/loader/processor.py:114-115 | joining with a one-character separator that no part contains and then splitting at it gives the parts back |
| Joining.JoinValues | scrapy/contrib/loader/processor.py:114-115 | joining values succeeds exactly when every value is a string, and then gives the join of those strings |
| Joining.JoinExamples | scrapy/contrib/loader/processor.py:111-115 | the default separator is a space (`'a b'`), `Join(',')` gives `'a,b'`, and a non-string value makes the call fail |
| ComposeProcessor.StopOnNone | scrapy/contrib/loader/processor.py:36 | `stop_on_none` is on when the defaults omit it, and otherwise follows the truthiness of the given value |
| ComposeProcessor.Trace | scrapy/contrib/loader/processor.py:45-48 | the reference trace starts with the input and each next entry is the current stage applied to the previous entry |
| ComposeProcessor.Chain | scrapy/contrib/loader/processor.py:45-48 | with no stages the input is returned; with `stop_on_none` on, a `None` input gives `None`, and a non-`None` result means no `None` occurred anywhere along the trace |
| ComposeProcessor.Call | scrapy/contrib/loader/processor.py:39-49 | with the stages bound to the merged context, the result is `None` if `stop_on_none` is on and `None` appears before some stage, and otherwise the value after the last stage |
| ComposeProcessor.ChainMatchesTrace | scrapy/contrib/loader/processor.py:45-49 | the result is `None` when `stop_on_none` is on and some stage meets `None`; otherwise it is the value after the last stage |
| ComposeProcessor.ChainAppend | scrapy/contrib/loader/processor.py:45-49 | running two chains in sequence equals running their concatenation |
| ComposeProcessor.Run | scrapy/contrib/loader/processor.py:45-49 | the loop invokes a prefix of the stages, and every invoked stage met a value that does not stop the chain; it stops early only on `None` with `stop_on_none` on, and then returns `None`; otherwise it returns the value after the last stage |
| ComposeProcessor.ComposeEmpty | scrapy/contrib/loader/processor.py:45-49 | with no stages the input comes back unchanged |
| ComposeProcessor.ComposeStopsOnNone | scrapy/contrib/loader/processor.py:45-47 | with `stop_on_none` on, a `None` input gives `None` whatever the stages are |
| ComposeProcessor.ComposeWithoutStop | scrapy/contrib/loader/processor.py:45-49 | with `stop_on_none` off, the result is the full left-to-right composition |
| ComposeProcessor.ComposeRuntimeContext | scrapy/contrib/loader/processor.py:40-44 | an empty runtime context acts like an absent one, and plain stages make the result independent of the runtime context |
| ComposeProcessor.ComposeAwareStageSeesMergedContext | scrapy/contrib/loader/processor.py:40-48 | a single context-aware stage is called with the value and the merged context, for any runtime context (absent, empty or not) and also on a `None` input when `stop_on_none` is off; in that context a runtime key shadows the default of the same name and the defaults fill in the other keys |
| ComposeProcessor.ComposeExamples | scrapy/contrib/loader/processor.py:45-49 | `Compose(f, g)(None)` is `None`; with `stop_on_none=False` it is `g(f(None))` |
| MapComposeProcessor.Call | scrapy/contrib/loader/processor.py:17-29 | the result is always a sequence whose items are the stages applied to the coerced input; with no stages it is the coerced input itself |
| MapComposeProcessor.FlatMap | scrapy/contrib/loader/processor.py:25-28 | a stage's output is empty exactly when the coerced result of every call is empty |
| MapComposeProcessor.FlatMapMembership | scrapy/contrib/loader/processor.py:25-28 | a value is in a stage's output if and only if the coerced result of the stage on some input value contains it |
| MapComposeProcessor.Stages | scrapy/contrib/loader/processor.py:24-28 | with no stages the working list is returned; an empty working list stays empty through every stage |
| MapComposeProcessor.FlatMapConcat | scrapy/contrib/loader/processor.py:25-28 | one stage over a concatenation is the concatenation of the stage over each part |
| MapComposeProcessor.StagesConcat | scrapy/contrib/loader/processor.py:24-29 | the pipeline processes each input value on its own and concatenates the results in order |
| MapComposeProcessor.StagesAppend | scrapy/contrib/loader/processor.py:24-29 | running two pipelines in sequence equals running their concatenation |
| MapComposeProcessor.FlatMapOfScalars | scrapy/contrib/loader/processor.py:26-27 | a stage whose results are single non-`None` scalars is a plain element-wise map |
| MapComposeProcessor.FlatMapDropsNone | scrapy/contrib/loader/processor.py:27 | a value the stage maps to `None` contributes nothing |
| MapComposeProcessor.Run | scrapy/contrib/loader/processor.py:24-29 | the nested loop, which appends each coerced stage result to a fresh list, computes the pipeline; with no stages it returns the input list |
| MapComposeProcessor.MapComposeOfEmpty | scrapy/contrib/loader/processor.py:18-29 | a `None` input or an empty sequence gives an empty result |
| MapComposeProcessor.MapComposeExpandExample | scrapy/contrib/loader/processor.py:24-29 | a stage that returns two values per input gives `[1, 1, 2, 2]` for `[1, 2]` |

## Left out

- Signature introspection by `wrap_loader_context`: a stage carries an explicit `Plain`/`Aware` tag instead. The `.common` module is not part of this model.
- `arg_to_iter` and `MergeDict` (from `scrapy.utils`): only the behaviour used here is modelled, as the list coercion `Values.ArgToIter` and the lookup with fallback `LoaderContext.LookupFirst`/`LoaderContext.Merge`. Dictionaries as values, which `arg_to_iter` wraps in a list, are not in the value datatype.
- Floating-point values: the documented `0.0` is written as the integer `0`, which has the same truthiness and passes the same predicates.
- The doc-tests that use `len(str(s))` as a predicate (lines 58-59 and 90-91): they depend on Python's textual form of arbitrary objects.
- Exceptions raised by user-supplied stages or predicates: the processors only let them propagate. Stages are total Dafny functions.
- Selection.Filter: works on a list of values and returns the items of the tuple the processor builds, not the tuple object. Filtering a string (its characters) or another non-list iterable input is not modelled.
- Slicing.Slice: works on a list of values. Slicing a string input, and preserving the list/tuple type of the input, are not modelled.
- Selection.TakeFirst: works on a list of values. Iterating over a string or a generator is not modelled.
- Joining.JoinValues: works on a list of values. Joining the characters of a string input, or another non-list iterable input, is not modelled.
- Joining.Join: works on Dafny strings. The Python 2 distinction between byte strings and unicode strings is not modelled.
- Concurrency: the processors hold no mutable state, and their values are immutable Dafny datatypes.
