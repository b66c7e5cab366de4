/** The Python values that flow through item-loader processors, and the two
    conversions every processor relies on: Python truthiness and the
    "turn anything into a list" coercion used by the pipelines. */
module Values {

  /** An optional argument or result; `Nothing` is Python's omitted/`None`
      argument, kept apart from the `None` *value* below. */
  datatype Maybe<+T> = Nothing | Just(value: T)

  /** A Python value as a processor sees it. Floating-point numbers are not
      modelled; lists and tuples are both sequences of values. */
  datatype Value =
    | None
    | Str(s: string)
    | Int(i: int)
    | Bool(b: bool)
    | List(items: seq<Value>)
    | Tuple(items: seq<Value>)

  /** Values that the coercion hands back untouched: the sequence types. */
  predicate IsIterable(v: Value) {
    v.List? || v.Tuple?
  }

  /** Python's `bool(v)`: exactly six values are false (`None`, the empty
      string, zero, `False`, the empty list and the empty tuple); everything
      else is true. */
  function Truthy(v: Value): (r: bool)
    ensures !r <==> v == None || v == Str("") || v == Int(0) || v == Bool(false)
                    || v == List([]) || v == Tuple([])
  {
    match v
    case None => false
    case Str(s) => s != ""
    case Int(i) => i != 0
    case Bool(b) => b
    case List(xs) => xs != []
    case Tuple(xs) => xs != []
  }

  /** The coercion applied to every input and every stage result of a
      pipeline: `None` becomes an empty list, a list or tuple is returned as
      the very same object, and any other value (strings included) becomes a
      one-element list. */
  function ArgToIter(v: Value): (r: Value)
    ensures IsIterable(r)
    ensures IsIterable(v) ==> r == v
    ensures v == None ==> r.items == []
    ensures !IsIterable(v) && v != None ==> r.items == [v]
  {
    match v
    case None => List([])
    case List(_) => v
    case Tuple(_) => v
    case _ => List([v])
  }

  /** The elements the coerced value yields when iterated. */
  function Iter(v: Value): (r: seq<Value>)
    ensures |r| == 0 <==> v == None || (IsIterable(v) && v.items == [])
  {
    ArgToIter(v).items
  }

  /** Coercing twice is coercing once: a coerced value is already a sequence. */
  lemma ArgToIterIdempotent(v: Value)
    ensures ArgToIter(ArgToIter(v)) == ArgToIter(v)
    ensures Iter(ArgToIter(v)) == Iter(v)
  {
  }
}
