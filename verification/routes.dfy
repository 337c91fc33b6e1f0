/** The four GET handlers with their query results passed in: each either
    renders its page, answers 404 naming the missing value, or answers 500
    after a failed query. */
module Routes {
  import opened Outcomes
  import opened Buckets
  import opened Summaries
  import Ring
  import Lookup
  import Locations
  import Magnitudes
  import Depths

  /** The index page: one link per distinct location, in query order, the
      nine magnitude groups and the three depth links. */
  datatype IndexPage = IndexPage(locations: seq<string>, magnitudeGroups: seq<int>, depthLinks: seq<Link>)

  /** A location page: its navigation, the row count and the row summary. */
  datatype LocationPage = LocationPage(nav: Ring.Navigation<string>, count: nat, summary: Summary)

  /** A magnitude page: the band queried, its navigation, the row count and
      the row summary. */
  datatype MagnitudePage = MagnitudePage(band: Band, nav: Ring.Navigation<int>, count: nat, summary: Summary)

  /** A depth page: the bucket queried, its navigation, the row count and
      the row summary. */
  datatype DepthPage = DepthPage(bucket: Depths.Bucket, nav: Ring.Navigation<int>, count: nat, summary: Summary)

  /** `GET /`, given the distinct-location query. */
  function IndexRoute(locations: Query<seq<string>>): (r: Response<IndexPage>)
    ensures locations.SqlFailure? ==> r == ServerError(SqlErrorMessage)
    ensures locations.Rows? ==> r.Ok?
    ensures r.Ok? ==> r.page.locations == locations.rows
    ensures r.Ok? ==> r.page.magnitudeGroups == Magnitudes.Groups() && r.page.depthLinks == Depths.IndexLinks()
  {
    match locations
    case SqlFailure => ServerError(SqlErrorMessage)
    case Rows(names) => Ok(IndexPage(names, Magnitudes.Groups(), Depths.IndexLinks()))
  }

  /** The index page's magnitude list holds exactly the groups the
      magnitude handler accepts, and every depth link is accepted by the
      depth handler. */
  lemma IndexListsAccepted(names: seq<string>)
    ensures forall m :: m in IndexRoute(Rows(names)).page.magnitudeGroups <==> Magnitudes.Validate(Some(m)).Some?
    ensures forall l :: l in IndexRoute(Rows(names)).page.depthLinks ==> Depths.Validate(Some(l.group)).Some?
  {
    Depths.IndexLinksMatchBuckets();
  }

  /** `GET /location/:loc`, given the distinct-location query and the
      query for the location's rows (consulted only once `loc` is found). */
  function LocationRoute(loc: string, allLocations: Query<seq<string>>, rows: Query<seq<Row>>): (r: Response<LocationPage>)
    ensures allLocations.SqlFailure? ==> r == ServerError(SqlErrorMessage)
    ensures allLocations.Rows? && loc !in allLocations.rows ==> r == NotFound(NotFoundMessage(Locations.NotFoundPrefix, loc))
    ensures allLocations.Rows? && loc in allLocations.rows && rows.SqlFailure? ==> r == ServerError(SqlErrorMessage)
    ensures r.Ok? <==> allLocations.Rows? && loc in allLocations.rows && rows.Rows?
    ensures r.Ok? ==> r.page.nav.current == loc
    ensures r.Ok? ==> r.page.nav == Locations.Navigate(allLocations.rows, loc).value
    ensures r.Ok? ==> r.page.summary == Summarize(rows.rows)
    ensures r.Ok? ==> r.page.nav.previous in allLocations.rows && r.page.nav.next in allLocations.rows
    ensures r.Ok? ==> r.page.count == |rows.rows| == |r.page.summary.magnitudes|
  {
    match allLocations
    case SqlFailure => ServerError(SqlErrorMessage)
    case Rows(names) =>
      match Locations.Navigate(names, loc)
      case None => NotFound(NotFoundMessage(Locations.NotFoundPrefix, loc))
      case Some(nav) =>
        match rows
        case SqlFailure => ServerError(SqlErrorMessage)
        case Rows(rs) => Ok(LocationPage(nav, |rs|, Summarize(rs)))
  }

  /** `GET /magnitude/:mag`, given the raw path segment, its `parseInt`
      value and the band query (consulted only once the group is valid). */
  function MagnitudeRoute(raw: string, parsed: Option<int>, rows: Query<seq<Row>>): (r: Response<MagnitudePage>)
    ensures r.NotFound? <==> !(parsed.Some? && 1 <= parsed.value <= 9)
    ensures r.NotFound? ==> r.message == NotFoundMessage(Magnitudes.NotFoundPrefix, raw)
    ensures r.ServerError? <==> parsed.Some? && 1 <= parsed.value <= 9 && rows.SqlFailure?
    ensures r.ServerError? ==> r.message == SqlErrorMessage
    ensures r.Ok? ==> r.page.nav == Ring.Navigation(parsed.value, Magnitudes.Prev(parsed.value), Magnitudes.Next(parsed.value))
    ensures r.Ok? ==> r.page.summary == Summarize(rows.rows)
    ensures r.Ok? ==> r.page.band.lower == parsed.value && r.page.band.upper == parsed.value + 1
    ensures r.Ok? ==> r.page.count == |rows.rows| == |r.page.summary.magnitudes|
  {
    match Magnitudes.Validate(parsed)
    case None => NotFound(NotFoundMessage(Magnitudes.NotFoundPrefix, raw))
    case Some(m) =>
      match rows
      case SqlFailure => ServerError(SqlErrorMessage)
      case Rows(rs) =>
        Ok(MagnitudePage(Magnitudes.GroupBand(m), Ring.Navigation(m, Magnitudes.Prev(m), Magnitudes.Next(m)), |rs|, Summarize(rs)))
  }

  /** `GET /depth/:dep`, given the raw path segment, its `parseInt` value
      and the band query (consulted only once the group is valid). */
  function DepthRoute(raw: string, parsed: Option<int>, rows: Query<seq<Row>>): (r: Response<DepthPage>)
    ensures r.NotFound? <==> !(parsed.Some? && 1 <= parsed.value <= 3)
    ensures r.NotFound? ==> r.message == NotFoundMessage(Depths.NotFoundPrefix, raw)
    ensures r.ServerError? <==> parsed.Some? && 1 <= parsed.value <= 3 && rows.SqlFailure?
    ensures r.ServerError? ==> r.message == SqlErrorMessage
    ensures r.Ok? ==> r.page.bucket == Depths.GroupBucket(parsed.value)
    ensures r.Ok? ==> r.page.nav == Ring.Navigation(parsed.value, Depths.Prev(parsed.value), Depths.Next(parsed.value))
    ensures r.Ok? ==> r.page.summary == Summarize(rows.rows)
    ensures r.Ok? ==> r.page.count == |rows.rows| == |r.page.summary.depths|
  {
    match Depths.Validate(parsed)
    case None => NotFound(NotFoundMessage(Depths.NotFoundPrefix, raw))
    case Some(g) =>
      match rows
      case SqlFailure => ServerError(SqlErrorMessage)
      case Rows(rs) =>
        Ok(DepthPage(Depths.GroupBucket(g), Ring.Navigation(g, Depths.Prev(g), Depths.Next(g)), |rs|, Summarize(rs)))
  }

  /** Every link on the index page leads to a page that exists: no
      location, magnitude or depth link answers 404. */
  lemma IndexLinksResolve(names: seq<string>, raw: string, rows: Query<seq<Row>>)
    ensures forall loc :: loc in IndexRoute(Rows(names)).page.locations ==>
      !LocationRoute(loc, Rows(names), rows).NotFound?
    ensures forall m :: m in IndexRoute(Rows(names)).page.magnitudeGroups ==>
      !MagnitudeRoute(raw, Some(m), rows).NotFound?
    ensures forall l :: l in IndexRoute(Rows(names)).page.depthLinks ==>
      !DepthRoute(raw, Some(l.group), rows).NotFound?
  {
  }

  /** The previous and next links of a location page lead to pages that
      exist, as long as the location list is unchanged. */
  lemma LocationLinksResolve(loc: string, names: seq<string>, rows: Query<seq<Row>>, rows': Query<seq<Row>>)
    requires LocationRoute(loc, Rows(names), rows).Ok?
    ensures !LocationRoute(LocationRoute(loc, Rows(names), rows).page.nav.previous, Rows(names), rows').NotFound?
    ensures !LocationRoute(LocationRoute(loc, Rows(names), rows).page.nav.next, Rows(names), rows').NotFound?
  {
  }

  /** On the distinct location list, the page reached by the previous link
      has a next link back to `loc`, and the page reached by the next link
      has a previous link back to `loc`. */
  lemma LocationLinksReturn(loc: string, names: seq<string>, rows: Query<seq<Row>>, rows': Query<seq<Row>>)
    requires Lookup.NoDuplicates(names)
    requires LocationRoute(loc, Rows(names), rows).Ok? && rows'.Rows?
    ensures LocationRoute(LocationRoute(loc, Rows(names), rows).page.nav.previous, Rows(names), rows').page.nav.next == loc
    ensures LocationRoute(LocationRoute(loc, Rows(names), rows).page.nav.next, Rows(names), rows').page.nav.previous == loc
  {
    Locations.NavigateRoundTrip(names, loc);
  }

  /** The previous and next links of a magnitude page lead to pages that
      exist and link back to it. */
  lemma MagnitudeLinksReturn(raw: string, parsed: Option<int>, rows: Query<seq<Row>>, raw': string, rows': Query<seq<Row>>)
    requires MagnitudeRoute(raw, parsed, rows).Ok? && rows'.Rows?
    ensures MagnitudeRoute(raw', Some(MagnitudeRoute(raw, parsed, rows).page.nav.previous), rows').page.nav.next == parsed.value
    ensures MagnitudeRoute(raw', Some(MagnitudeRoute(raw, parsed, rows).page.nav.next), rows').page.nav.previous == parsed.value
  {
    Magnitudes.PrevNextInverse(parsed.value);
  }

  /** The previous and next links of a depth page lead to pages that exist
      and link back to it. */
  lemma DepthLinksReturn(raw: string, parsed: Option<int>, rows: Query<seq<Row>>, raw': string, rows': Query<seq<Row>>)
    requires DepthRoute(raw, parsed, rows).Ok? && rows'.Rows?
    ensures DepthRoute(raw', Some(DepthRoute(raw, parsed, rows).page.nav.previous), rows').page.nav.next == parsed.value
    ensures DepthRoute(raw', Some(DepthRoute(raw, parsed, rows).page.nav.next), rows').page.nav.previous == parsed.value
  {
    Depths.PrevNextInverse(parsed.value);
  }
}
