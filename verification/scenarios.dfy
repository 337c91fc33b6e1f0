/** Concrete requests and the responses the handlers give them. */
module Scenarios {
  import opened Outcomes
  import Ring
  import Routes
  import opened Summaries

  /** On the sorted list A, B, C the first location wraps back to C and the
      last wraps forward to A. */
  lemma ThreeLocations(rows: seq<Row>)
    ensures Routes.LocationRoute("A", Rows(["A", "B", "C"]), Rows(rows)).page.nav == Ring.Navigation("A", "C", "B")
    ensures Routes.LocationRoute("B", Rows(["A", "B", "C"]), Rows(rows)).page.nav == Ring.Navigation("B", "A", "C")
    ensures Routes.LocationRoute("C", Rows(["A", "B", "C"]), Rows(rows)).page.nav == Ring.Navigation("C", "B", "A")
  {
  }

  /** An unknown location is a 404 that names it. */
  lemma UnknownLocation(rows: Query<seq<Row>>)
    ensures Routes.LocationRoute("Nonexistent", Rows(["A", "B", "C"]), rows)
      == NotFound("Location not found: Nonexistent")
    ensures Routes.LocationRoute("Nonexistent", Rows(["A", "B", "C"]), rows).Status() == 404
  {
  }

  /** Groups 0 and 10 and a non-numeric segment are all 404s that repeat
      the segment as typed. */
  lemma RejectedMagnitudes(rows: Query<seq<Row>>)
    ensures Routes.MagnitudeRoute("0", Some(0), rows) == NotFound("Magnitude group not found: 0")
    ensures Routes.MagnitudeRoute("10", Some(10), rows) == NotFound("Magnitude group not found: 10")
    ensures Routes.MagnitudeRoute("abc", None, rows) == NotFound("Magnitude group not found: abc")
  {
  }

  /** Magnitude 1 wraps back to 9 and 9 wraps forward to 1; depth 1 wraps
      back to 3 and 3 forward to 1. */
  lemma WrappingBuckets(rows: seq<Row>)
    ensures Routes.MagnitudeRoute("1", Some(1), Rows(rows)).page.nav == Ring.Navigation(1, 9, 2)
    ensures Routes.MagnitudeRoute("9", Some(9), Rows(rows)).page.nav == Ring.Navigation(9, 8, 1)
    ensures Routes.DepthRoute("1", Some(1), Rows(rows)).page.nav == Ring.Navigation(1, 3, 2)
    ensures Routes.DepthRoute("3", Some(3), Rows(rows)).page.nav == Ring.Navigation(3, 2, 1)
  {
  }

  /** With no locations in the table the index page still renders, with an
      empty location list. */
  lemma EmptyIndex()
    ensures Routes.IndexRoute(Rows([])).Ok?
    ensures Routes.IndexRoute(Rows([])).page.locations == []
  {
  }
}
