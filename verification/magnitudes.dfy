/** The magnitude dimension: nine integer groups, group `m` selecting
    magnitudes in `[m, m+1)`, navigated as a ring of nine. */
module Magnitudes {
  import opened Outcomes
  import opened Buckets
  import Ring
  import Lookup

  /** The groups `m, m+1, ..., 9`, in the order the index page's loop
      emits them. */
  function GroupsFrom(m: int): (r: seq<int>)
    requires 1 <= m <= 10
    ensures |r| == 10 - m
    ensures forall i :: 0 <= i < |r| ==> r[i] == m + i
    decreases 10 - m
  {
    if m > 9 then [] else [m] + GroupsFrom(m + 1)
  }

  /** All magnitude groups, in index-page order. */
  function Groups(): seq<int> {
    GroupsFrom(1)
  }

  /** Fixed start of the 404 message for a rejected group; the message
      goes on with the raw path segment, not the parsed number. */
  const NotFoundPrefix: string := "Magnitude group not found: "

  /** The handler's guard: NaN, below 1 and above 9 are rejected. Exactly
      the groups listed on the index page are accepted. */
  function Validate(parsed: Option<int>): (r: Option<int>)
    ensures r.Some? <==> parsed.Some? && parsed.value in Groups()
    ensures r.Some? ==> r.value == parsed.value
  {
    match parsed
    case None => None
    case Some(m) =>
      if m < 1 || m > 9 then None
      else
        assert Groups()[m - 1] == m;
        Some(m)
  }

  /** The magnitude range a group selects: one unit wide, holding the
      group's own value and every value below the next group. */
  function GroupBand(m: int): (b: Band)
    ensures b.upper - b.lower == 1
    ensures b.Contains(m as real) && !b.Contains((m + 1) as real)
  {
    Band(m, m + 1)
  }

  /** Previous group, written in closed form; it is the ring predecessor
      of the group's position in `Groups()` and is itself accepted. */
  function Prev(m: int): (r: int)
    requires 1 <= m <= 9
    ensures r == Ring.RingPrev(Groups(), m - 1)
    ensures Validate(Some(r)) == Some(r)
  {
    if m > 1 then m - 1 else 9
  }

  /** Next group, written in closed form; it is the ring successor of the
      group's position in `Groups()` and is itself accepted. */
  function Next(m: int): (r: int)
    requires 1 <= m <= 9
    ensures r == Ring.RingNext(Groups(), m - 1)
    ensures Validate(Some(r)) == Some(r)
  {
    if m < 9 then m + 1 else 1
  }

  /** An accepted group sits at position `m - 1` of the group list, so the
      numeric guard and a list lookup agree. */
  lemma PositionIsGroupMinusOne(m: int)
    ensures Validate(Some(m)).Some? <==> Lookup.FindIndex(Groups(), m).Some?
    ensures Validate(Some(m)).Some? ==> Lookup.FindIndex(Groups(), m) == Some(m - 1)
  {
    if 1 <= m <= 9 {
      var k := Lookup.FindIndex(Groups(), m);
      assert Groups()[m - 1] == m;
      assert k.Some?;
    }
  }

  /** Previous and next undo each other. */
  lemma PrevNextInverse(m: int)
    requires 1 <= m <= 9
    ensures Next(Prev(m)) == m && Prev(Next(m)) == m
  {
  }

  /** Adjacent groups share a bound, so the bands leave no gap and do not
      overlap. */
  lemma BandsContiguous(m: int)
    requires 1 <= m < 9
    ensures GroupBand(m).upper == GroupBand(m + 1).lower
    ensures GroupBand(m).lower < GroupBand(m).upper
  {
  }

  /** A magnitude lies in some group's band exactly when it is in `[1, 10)`,
      and then only in the band of its integer part. */
  lemma BandsPartition(x: real)
    ensures (exists m :: 1 <= m <= 9 && GroupBand(m).Contains(x)) <==> 1.0 <= x < 10.0
    ensures forall m :: 1 <= m <= 9 && GroupBand(m).Contains(x) ==> m == x.Floor
  {
    if 1.0 <= x < 10.0 {
      assert GroupBand(x.Floor).Contains(x);
    }
  }
}
