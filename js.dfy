/**
 * The pieces of JavaScript semantics the frontend's reducers and components
 * rely on: array index normalisation, `splice` of one element, assignment to
 * an array index, `at(-1)`, and truthiness of optional numbers and strings.
 */
module Js {
  import opened Wrappers

  /** A relative array index as `slice` and `splice` read it: negative counts from the end, then clamped to 0..len. */
  function ClampIndex(x: int, len: nat): (r: nat)
    ensures r <= len
    ensures 0 <= x <= len ==> r == x
    ensures x < 0 && 0 <= len + x ==> r == len + x
    ensures x > len ==> r == len
    ensures len + x < 0 ==> r == 0
  {
    if x < 0 then (if len + x < 0 then 0 else len + x)
    else if x > len then len
    else x
  }

  /** `xs.splice(start, 1)`: removes the element at the normalised start, if there is one. */
  function SpliceOne<T>(xs: seq<T>, start: int): (r: seq<T>)
    ensures start >= |xs| ==> r == xs
    ensures 0 <= start < |xs| ==> r == xs[..start] + xs[start + 1..]
    ensures start < 0 && 0 <= |xs| + start ==> r == xs[..|xs| + start] + xs[|xs| + start + 1..]
    ensures |xs| + start < 0 ==> r == if xs == [] then [] else xs[1..]
  {
    var s := ClampIndex(start, |xs|);
    if s < |xs| then xs[..s] + xs[s + 1..] else xs
  }

  /** Splicing two arrays of equal length at the same start leaves them of equal length. */
  lemma SpliceSameLength<T, U>(xs: seq<T>, ys: seq<U>, start: int)
    requires |xs| == |ys|
    ensures |SpliceOne(xs, start)| == |SpliceOne(ys, start)|
  {
  }

  /**
   * `xs[index] = x` for an index no greater than the length: an element is
   * replaced, or appended at `index == length`; a negative index sets a
   * property that is not an element, so the elements are unchanged.
   */
  function Assign<T>(xs: seq<T>, index: int, x: T): (r: seq<T>)
    requires index <= |xs|
    ensures 0 <= index < |xs| ==>
      (|r| == |xs| && r[index] == x && forall j :: 0 <= j < |xs| && j != index ==> r[j] == xs[j])
    ensures index == |xs| ==> r == xs + [x]
    ensures index < 0 ==> r == xs
  {
    if index < 0 then xs
    else if index == |xs| then xs + [x]
    else xs[index := x]
  }

  /** `xs.at(-1)`: the last element, `undefined` for an empty array. */
  function Last<T>(xs: seq<T>): (r: Option<T>)
    ensures r.None? <==> xs == []
    ensures r.Some? ==> r.value == xs[|xs| - 1]
  {
    if xs == [] then None else Some(xs[|xs| - 1])
  }

  /** A JavaScript value that may be `undefined`, `null` or present. */
  datatype Nullable<T> = Undefined | Null | Value(value: T)

  /**
   * Truthiness of an optional number or string: present and not the type's
   * falsy value (`0` or `""`); NaN is not modelled.
   */
  predicate Truthy<T(==)>(x: Option<T>, falsy: T) {
    x.Some? && x.value != falsy
  }

  /** `a || b` on optional numbers or strings. */
  function Or<T(==)>(a: Option<T>, b: Option<T>, falsy: T): (r: Option<T>)
    ensures Truthy(a, falsy) ==> r == a
    ensures !Truthy(a, falsy) ==> r == b
  {
    if Truthy(a, falsy) then a else b
  }
}
