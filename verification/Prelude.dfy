/** Small shared vocabulary. */
module Prelude {

  datatype Option<+T> = None | Some(value: T)

  newtype byte = x: int | 0 <= x < 0x100

  /** There is no repetition. */
  predicate Distinct<T(==)>(s: seq<T>) { forall i, j :: 0 <= i < j < |s| ==> s[i] != s[j] }

  /** The elements of a sequence, in the same order, with index `i` left out. */
  function RemoveAt<T>(s: seq<T>, i: nat): (r: seq<T>)
    requires i < |s|
    ensures |r| == |s| - 1
    ensures multiset(r) == multiset(s) - multiset{s[i]}
  {
    assert s == s[..i] + [s[i]] + s[i + 1..];
    s[..i] + s[i + 1..]
  }
}
