/** The location dimension: the sorted distinct `locationSource` values,
    the lookup of the requested location and its cyclic neighbours. */
module Locations {
  import opened Outcomes
  import Ring
  import Lookup

  /** Fixed start of the 404 message for an unknown location. */
  const NotFoundPrefix: string := "Location not found: "

  /** Neighbours of position `i` as the location handler writes them:
      one branch for the first entry and one for the last. */
  function Neighbours(names: seq<string>, i: nat): (r: (string, string))
    requires i < |names|
    ensures r.0 == Ring.RingPrev(names, i)
    ensures r.1 == Ring.RingNext(names, i)
  {
    var previous := if i > 0 then names[i - 1] else names[|names| - 1];
    var next := if i < |names| - 1 then names[i + 1] else names[0];
    (previous, next)
  }

  /** Looks `loc` up in the ordered location list and, when it is there,
      returns it with its previous and next locations. */
  function Navigate(names: seq<string>, loc: string): (r: Option<Ring.Navigation<string>>)
    ensures r.None? <==> loc !in names
    ensures r.Some? ==> r.value.current == loc
    ensures r.Some? ==> r.value.previous in names && r.value.next in names
  {
    match Lookup.FindIndex(names, loc)
    case None => None
    case Some(i) =>
      var (previous, next) := Neighbours(names, i);
      Some(Ring.Navigation(loc, previous, next))
  }

  /** The neighbours are those of the FIRST position holding `loc`, on the
      generic ring. */
  lemma NavigateIsRing(names: seq<string>, loc: string, i: nat)
    requires i < |names| && names[i] == loc
    requires forall j :: 0 <= j < i ==> names[j] != loc
    ensures Navigate(names, loc) == Some(Ring.Navigation(loc, Ring.RingPrev(names, i), Ring.RingNext(names, i)))
  {
    assert Lookup.FindIndex(names, loc) == Some(i);
  }

  /** With a single location, previous and next are the location itself. */
  lemma SingleLocation(loc: string)
    ensures Navigate([loc], loc) == Some(Ring.Navigation(loc, loc, loc))
  {
    Ring.SingletonRing([loc]);
  }

  /** In a list without duplicates, following the previous link and then
      the next link (or the other way round) comes back to `loc`. */
  lemma {:induction false} NavigateRoundTrip(names: seq<string>, loc: string)
    requires Lookup.NoDuplicates(names) && loc in names
    ensures Navigate(names, Navigate(names, loc).value.previous).value.next == loc
    ensures Navigate(names, Navigate(names, loc).value.next).value.previous == loc
  {
    var n := |names|;
    var i := Lookup.FindIndex(names, loc).value;
    var p := Ring.PrevIndex(i, n);
    var q := Ring.NextIndex(i, n);
    Ring.PrevNextInverse(i, n);
    Lookup.FindIndexOfDistinct(names, p);
    Lookup.FindIndexOfDistinct(names, q);
    assert Navigate(names, loc).value.previous == names[p];
    assert Navigate(names, loc).value.next == names[q];
  }
}
