/** Values shared by every part of the model. */
module Common {

  /** A value that may be absent (an `undefined` field, a `null` lookup result). */
  datatype Option<+T> = None | Some(value: T)

  /** Document identifiers. Every collection is held as a sequence and a
      document's identifier is its position in it; the source never deletes
      a document, so positions never shift. */
  type Id = nat

  /** A count that is at least one (a page number, a page size). */
  type Positive = n: nat | n >= 1 witness 1

  /** A string field of a request body is truthy when it is present and not
      the empty string. */
  predicate Present(field: Option<string>) {
    field.Some? && field.value != ""
  }

  /** `field || fallback` for a string field. */
  function OrElse(field: Option<string>, fallback: string): (r: string)
    ensures Present(field) ==> r == field.value
    ensures !Present(field) ==> r == fallback
  {
    if Present(field) then field.value else fallback
  }

  /** `list || []` for a list field of a request body. */
  function ListOrEmpty(list: Option<seq<string>>): (r: seq<string>)
    ensures list.Some? ==> r == list.value
    ensures list.None? ==> r == []
  {
    if list.Some? then list.value else []
  }

  /** A property every element of a sequence has, and the appended element
      too, holds of every element of the longer sequence. */
  lemma AllAppend<X>(xs: seq<X>, x: X, p: X -> bool)
    requires forall i :: 0 <= i < |xs| ==> p(xs[i])
    requires p(x)
    ensures forall i :: 0 <= i < |xs + [x]| ==> p((xs + [x])[i])
  {
  }

  /** Likewise for replacing one element. */
  lemma AllUpdate<X>(xs: seq<X>, k: nat, x: X, ys: seq<X>, p: X -> bool)
    requires k < |xs| && ys == xs[k := x]
    requires forall i :: 0 <= i < |xs| ==> p(xs[i])
    requires p(x)
    ensures forall i :: 0 <= i < |ys| ==> p(ys[i])
  {
  }
}
