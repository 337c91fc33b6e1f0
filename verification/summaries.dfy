/** The per-row pass every drill-down page makes over its query result:
    the chart arrays and the location label. */
module Summaries {

  /** One row of the Earthquakes table. Numeric columns are carried through
      unchanged, never computed with. */
  datatype Row = Row(
    time: string,
    latitude: real,
    longitude: real,
    depth: real,
    mag: real,
    place: string,
    eventType: string,
    locationSource: string)

  /** What the row loop accumulates. */
  datatype Summary = Summary(magnitudes: seq<real>, depths: seq<real>, location: string)

  /** The row loop, one row at a time in query order: each row appends its
      magnitude and depth and overwrites the label with its location.
      The chart arrays hold one entry per row, in row order, and the label
      is the last row's location, or empty when there are no rows. */
  function Summarize(rows: seq<Row>): (s: Summary)
    ensures |s.magnitudes| == |rows| && |s.depths| == |rows|
    ensures forall i :: 0 <= i < |rows| ==> s.magnitudes[i] == rows[i].mag
    ensures forall i :: 0 <= i < |rows| ==> s.depths[i] == rows[i].depth
    ensures rows == [] ==> s.location == ""
    ensures rows != [] ==> s.location == rows[|rows| - 1].locationSource
  {
    if rows == [] then Summary([], [], "")
    else
      var s := Summarize(rows[..|rows| - 1]);
      var row := rows[|rows| - 1];
      Summary(s.magnitudes + [row.mag], s.depths + [row.depth], row.locationSource)
  }

  /** Rows fetched for one location carry that location as their label. */
  lemma {:induction false} LabelOfLocationRows(rows: seq<Row>, loc: string)
    requires forall i :: 0 <= i < |rows| ==> rows[i].locationSource == loc
    ensures Summarize(rows).location == (if rows == [] then "" else loc)
  {
  }

  /** Splitting the rows splits the chart arrays the same way: the loop
      never reorders, drops or merges entries. */
  lemma {:induction false} SummarizeAppend(a: seq<Row>, b: seq<Row>)
    ensures Summarize(a + b).magnitudes == Summarize(a).magnitudes + Summarize(b).magnitudes
    ensures Summarize(a + b).depths == Summarize(a).depths + Summarize(b).depths
    ensures b != [] ==> Summarize(a + b).location == Summarize(b).location
    ensures b == [] ==> Summarize(a + b).location == Summarize(a).location
  {
    assert b == [] ==> a + b == a;
  }
}
