/** The first-element unwrap both normalising checks apply to an attribute:
    `x = x[0] if x else <empty> ` when `x` is a list, and `x` unchanged otherwise. */
module AttributeView {
  import opened Python

  /** Unwraps a list-valued attribute to its first element, or to `whenEmpty`
      for an empty list; any other value is returned unchanged. */
  function Unwrap(raw: PyVal, whenEmpty: PyVal): PyVal {
    match raw
    case PyList(xs) => if |xs| > 0 then xs[0] else whenEmpty
    case _ => raw
  }

  /** Only the first element of a non-empty list matters. */
  lemma UnwrapHeadDecides(xs: seq<PyVal>, ys: seq<PyVal>, whenEmpty: PyVal)
    requires |xs| > 0 && |ys| > 0 && xs[0] == ys[0]
    ensures Unwrap(PyList(xs), whenEmpty) == Unwrap(PyList(ys), whenEmpty) == xs[0]
  {}

  /** A value that is not a list passes through unchanged; an empty list gives the default. */
  lemma UnwrapScalarAndEmpty(raw: PyVal, whenEmpty: PyVal)
    ensures !raw.PyList? ==> Unwrap(raw, whenEmpty) == raw
    ensures Unwrap(PyList([]), whenEmpty) == whenEmpty
  {}

  /** Unwrapping is idempotent exactly when its result is not itself a list
      (given a default that is not a list): a nested list loses one level per
      application, and `[[]]` unwraps to `[]` and then to the default. */
  lemma UnwrapIdempotentUnlessNested(raw: PyVal, whenEmpty: PyVal)
    requires !whenEmpty.PyList?
    ensures Unwrap(Unwrap(raw, whenEmpty), whenEmpty) == Unwrap(raw, whenEmpty)
        <==> !Unwrap(raw, whenEmpty).PyList?
  {}

  /** The concrete case: `[["a"]]` unwraps to `["a"]`, which unwraps again to `"a"`. */
  lemma UnwrapOneLevelOnly()
    ensures Unwrap(PyList([PyList([Str("a")])]), PyNone) == PyList([Str("a")])
    ensures Unwrap(Unwrap(PyList([PyList([Str("a")])]), PyNone), PyNone) == Str("a")
  {}
}
