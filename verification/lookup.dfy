/** Locating a requested value in the ordered value set of a dimension. */
module Lookup {
  import opened Outcomes

  /** No value occurs twice in `s` (what `SELECT DISTINCT` guarantees). */
  predicate NoDuplicates<T(==)>(s: seq<T>) {
    forall i, j :: 0 <= i < j < |s| ==> s[i] != s[j]
  }

  /** The first position holding `x`, or `None` when no element matches:
      the `findIndex` search, with its `-1` written as `None`. */
  function FindIndex<T(==)>(s: seq<T>, x: T): (r: Option<nat>)
    ensures r.None? <==> x !in s
    ensures r.Some? ==> r.value < |s| && s[r.value] == x
    ensures r.Some? ==> forall j :: 0 <= j < r.value ==> s[j] != x
  {
    if |s| == 0 then None
    else if s[0] == x then Some(0)
    else
      match FindIndex(s[1..], x)
      case None => None
      case Some(k) => Some(k + 1)
  }

  /** In a sequence without duplicates, looking up the value at a position
      finds that very position. */
  lemma {:induction false} FindIndexOfDistinct<T>(s: seq<T>, i: nat)
    requires NoDuplicates(s) && i < |s|
    ensures FindIndex(s, s[i]) == Some(i)
  {
  }
}
