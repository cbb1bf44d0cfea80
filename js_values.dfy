/** The two JavaScript value shapes the hook's refs hold: a number that may be
    `undefined`, and the truthiness test the hook applies to such a ref. */
module JsValues {

  /** A ref that is either `undefined` (None) or holds a number. */
  datatype Option<+T> = None | Some(value: T)

  /** JavaScript truthiness of a number-or-undefined: `undefined` and `0` are
      both falsy, every other number is truthy. */
  predicate Truthy(v: Option<int>)
    ensures Truthy(v) <==> v != None && v != Some(0)
  {
    v.Some? && v.value != 0
  }

}
