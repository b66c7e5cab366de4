/** `Identity()`: passes its input through. */
module IdentityProcessor {
  import opened Values

  /** `Identity()(values)`: the input, untouched. */
  function Identity(values: Value): (r: Value)
    ensures r == values
  {
    values
  }

  /** Applying `Identity` twice is applying it once. */
  lemma IdentityIdempotent(v: Value)
    ensures Identity(Identity(v)) == Identity(v)
  {
  }
}
