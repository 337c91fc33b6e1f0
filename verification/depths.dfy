/** The depth dimension: three named bands of hypocentre depth in
    kilometres, navigated as a ring of three. */
module Depths {
  import opened Outcomes
  import opened Buckets
  import Ring
  import Lookup

  /** A depth group's band and the caption shown for it. */
  datatype Bucket = Bucket(band: Band, caption: string)

  /** All depth groups, in index-page order. */
  function Groups(): seq<int> {
    [1, 2, 3]
  }

  /** Fixed start of the 404 message for a rejected group; the message
      goes on with the raw path segment. */
  const NotFoundPrefix: string := "Depth group not found: "

  /** The handler's guard: NaN, below 1 and above 3 are rejected. Exactly
      the groups listed on the index page are accepted. */
  function Validate(parsed: Option<int>): (r: Option<int>)
    ensures r.Some? <==> parsed.Some? && parsed.value in Groups()
    ensures r.Some? ==> r.value == parsed.value
  {
    match parsed
    case None => None
    case Some(g) => if g < 1 || g > 3 then None else Some(g)
  }

  /** The fixed band table of the depth handler: non-empty bands inside
      `[0, 700)`, the first starting at 0 and the last ending at 700. */
  function GroupBucket(g: int): (b: Bucket)
    requires 1 <= g <= 3
    ensures 0 <= b.band.lower < b.band.upper <= 700
    ensures b.band.lower == 0 <==> g == 1
    ensures b.band.upper == 700 <==> g == 3
  {
    if g == 1 then Bucket(Band(0, 70), "Shallow (0-70 km)")
    else if g == 2 then Bucket(Band(70, 300), "Intermediate (70-300 km)")
    else Bucket(Band(300, 700), "Deep (300-700 km)")
  }

  /** Previous group, in closed form; the ring predecessor of the group's
      position in `Groups()`, itself accepted. */
  function Prev(g: int): (r: int)
    requires 1 <= g <= 3
    ensures r == Ring.RingPrev(Groups(), g - 1)
    ensures Validate(Some(r)) == Some(r)
  {
    if g > 1 then g - 1 else 3
  }

  /** Next group, in closed form; the ring successor of the group's
      position in `Groups()`, itself accepted. */
  function Next(g: int): (r: int)
    requires 1 <= g <= 3
    ensures r == Ring.RingNext(Groups(), g - 1)
    ensures Validate(Some(r)) == Some(r)
  {
    if g < 3 then g + 1 else 1
  }

  /** The depth list of the index page, with its own copy of the captions:
      groups 1, 2 and 3 in order. */
  function IndexLinks(): (r: seq<Link>)
    ensures |r| == 3
    ensures forall i :: 0 <= i < |r| ==> r[i].group == i + 1
  {
    [ Link(1, "Shallow (0-70 km)"),
      Link(2, "Intermediate (70-300 km)"),
      Link(3, "Deep (300-700 km)") ]
  }

  /** The index page links every group once, in order, each under the
      caption its own page shows, and every such link is accepted. */
  lemma IndexLinksMatchBuckets()
    ensures |IndexLinks()| == |Groups()|
    ensures forall i :: 0 <= i < |IndexLinks()| ==>
      && IndexLinks()[i].group == Groups()[i]
      && Validate(Some(IndexLinks()[i].group)).Some?
      && IndexLinks()[i].text == GroupBucket(IndexLinks()[i].group).caption
  {
  }

  /** An accepted group sits at position `g - 1` of the group list. */
  lemma PositionIsGroupMinusOne(g: int)
    ensures Validate(Some(g)).Some? <==> Lookup.FindIndex(Groups(), g).Some?
    ensures Validate(Some(g)).Some? ==> Lookup.FindIndex(Groups(), g) == Some(g - 1)
  {
  }

  /** Previous and next undo each other. */
  lemma PrevNextInverse(g: int)
    requires 1 <= g <= 3
    ensures Next(Prev(g)) == g && Prev(Next(g)) == g
  {
  }

  /** The bands start at 0 km and end at 700 km. */
  lemma BandsSpan()
    ensures GroupBucket(1).band.lower == 0 && GroupBucket(3).band.upper == 700
  {
  }

  /** Each band starts where the previous one ends and is non-empty. */
  lemma BandsContiguous(g: int)
    requires 1 <= g < 3
    ensures GroupBucket(g).band.upper == GroupBucket(g + 1).band.lower
    ensures GroupBucket(g).band.lower < GroupBucket(g).band.upper
  {
  }

  /** A depth lies in some group's band exactly when it is in `[0, 700)`,
      and then in only one. */
  lemma BandsPartition(d: real)
    ensures (exists g :: 1 <= g <= 3 && GroupBucket(g).band.Contains(d)) <==> 0.0 <= d < 700.0
    ensures forall g, h :: 1 <= g <= 3 && 1 <= h <= 3 && GroupBucket(g).band.Contains(d) && GroupBucket(h).band.Contains(d) ==> g == h
  {
    if 0.0 <= d < 70.0 {
      assert GroupBucket(1).band.Contains(d);
    } else if 70.0 <= d < 300.0 {
      assert GroupBucket(2).band.Contains(d);
    } else if 300.0 <= d < 700.0 {
      assert GroupBucket(3).band.Contains(d);
    }
  }
}
