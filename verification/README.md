# Earthquake drill-down server: navigation and bucket arithmetic

This project models the logic of `dynamic_server.mjs`, a read-only Express
server over one `Earthquakes` table. It has an index page and three
drill-down pages: by location (`/location/:loc`), by magnitude group
(`/magnitude/:mag`, groups 1..9) and by depth group (`/depth/:dep`,
groups 1..3). Each drill-down page links to the previous and next value of
its dimension, and the links wrap around at both ends.

The model is functional. Each handler is a pure function. It takes the
request parameter and the query results (`Query<T> = Rows(T) | SqlFailure`)
and returns `Response<P> = Ok(page) | NotFound(message) | ServerError(message)`,
which stand for HTTP 200, 404 and 500.

Modules:

- `Outcomes`: `Option`, `Query`, `Response`, the 404 message form and the `"SQL Error"` message.
- `Ring`: generic cyclic navigation. It uses modular positions `(i + n - 1) % n` and `(i + 1) % n`, and it is the reference definition for all three dimensions.
- `Lookup`: `FindIndex`, the first matching position, with `None` in place of `findIndex`'s `-1`; and `NoDuplicates`.
- `Locations`: the location handler's lookup and its branch-per-end prev/next.
- `Magnitudes` and `Depths`: validation, bands, closed-form prev/next and index-page lists.
- `Buckets`: the half-open `Band` and the index-page `Link`.
- `Summaries`: the `Row` record and the per-row loop that builds the chart arrays and the location label.
- `Routes`: the four handlers, plus lemmas stating that no generated link is ever answered 404.
- `Scenarios`: concrete requests and their responses.

Two facts about the code shape the model:

- The bucket handlers apply `parseInt`, which accepts `"3abc"` as 3. The model therefore takes the parsed value as an input, next to the raw segment.
- The index page issues only the distinct-location query. Its magnitude list (a `for` loop over 1..9) and its depth list (three fixed links) are fixed.

## Model

| member | source | states |
|---|---|---|
| Outcomes.NotFoundMessage | dynamic_server.mjs:98 | a 404 body is the handler's fixed prefix followed by the requested value exactly as it arrived (the same form at lines 173 and 232, with the raw segment) |
| Ring.PrevIndex | dynamic_server.mjs:106-112 | the modular predecessor stays on the ring; it is `i-1` for an inner position and `n-1` for position 0 |
| Ring.NextIndex | dynamic_server.mjs:115-121 | the modular successor stays on the ring; it is `i+1` before the last position and 0 at the last |
| Ring.RingPrev | dynamic_server.mjs:106-112 | the previous value is always an element of the list |
| Ring.RingNext | dynamic_server.mjs:115-121 | the next value is always an element of the list |
| Ring.PrevNextInverse | dynamic_server.mjs:106-121 | at position level, `next(prev(i)) == i` and `prev(next(i)) == i` |
| Ring.SingletonRing | dynamic_server.mjs:106-121 | on a one-element ring, previous == next == the element |
| Ring.NeighboursMove | dynamic_server.mjs:106-121 | with two or more elements, neither neighbour is the current position |
| Lookup.FindIndex | dynamic_server.mjs:94-97 | not-found exactly when the value is absent; otherwise the position holds the value and no earlier position does |
| Lookup.FindIndexOfDistinct | dynamic_server.mjs:13 | in a duplicate-free list (the DISTINCT query), the lookup of the value at position `i` returns `i` |
| Locations.Neighbours | dynamic_server.mjs:106-121 | the handler's hand-written prev/next branches equal the generic ring's prev/next |
| Locations.Navigate | dynamic_server.mjs:94-121 | no navigation exactly when `loc` is absent; otherwise current is `loc`, and previous and next are list members |
| Locations.NavigateIsRing | dynamic_server.mjs:94-121 | the neighbours are the ring neighbours of the FIRST position holding `loc` |
| Locations.SingleLocation | dynamic_server.mjs:106-121 | with one location, previous and next are that location |
| Locations.NavigateRoundTrip | dynamic_server.mjs:106-121 | on a duplicate-free list, following previous then next (or next then previous) returns to `loc` |
| Magnitudes.GroupsFrom | dynamic_server.mjs:46-48 | the index loop emits consecutive groups, ending at 9 |
| Magnitudes.Validate | dynamic_server.mjs:170-175 | a group is accepted iff it is a number (not NaN) listed on the index page (1..9); it is kept unchanged |
| Magnitudes.GroupBand | dynamic_server.mjs:177-178 | a group's band is one unit wide, holds the group's own value and excludes the next group's |
| Magnitudes.Prev | dynamic_server.mjs:180 | the closed form `m>1 ? m-1 : 9` equals the generic ring predecessor over the nine groups and passes validation |
| Magnitudes.Next | dynamic_server.mjs:181 | the closed form `m<9 ? m+1 : 1` equals the generic ring successor over the nine groups and passes validation |
| Magnitudes.PositionIsGroupMinusOne | dynamic_server.mjs:46-48 | the numeric guard agrees with a list lookup, and group `m` sits at position `m-1` |
| Magnitudes.PrevNextInverse | dynamic_server.mjs:180-181 | the previous and next groups undo each other |
| Magnitudes.BandsContiguous | dynamic_server.mjs:177-178 | adjacent magnitude bands share a bound and each band is non-empty |
| Magnitudes.BandsPartition | dynamic_server.mjs:177-178 | a magnitude is in some band iff it is in [1, 10), and then only in the band of its integer part |
| Depths.Validate | dynamic_server.mjs:229-234 | a group is accepted iff it is a number (not NaN) listed on the index page (1..3); it is kept unchanged |
| Depths.GroupBucket | dynamic_server.mjs:236-251 | every band is non-empty and inside [0, 700); only group 1 starts at 0 and only group 3 ends at 700 |
| Depths.Prev | dynamic_server.mjs:253 | the closed form `g>1 ? g-1 : 3` equals the generic ring predecessor over the three groups and passes validation |
| Depths.Next | dynamic_server.mjs:254 | the closed form `g<3 ? g+1 : 1` equals the generic ring successor over the three groups and passes validation |
| Depths.IndexLinks | dynamic_server.mjs:51-53 | the index page's depth list has three links, for groups 1, 2 and 3 in order |
| Depths.IndexLinksMatchBuckets | dynamic_server.mjs:51-53 | the index page links groups 1, 2 and 3 in order; each link is accepted and shows the same caption as the group's page (lines 239-251) |
| Depths.PositionIsGroupMinusOne | dynamic_server.mjs:229-234 | the numeric guard agrees with a lookup in [1,2,3], and group `g` sits at position `g-1` |
| Depths.PrevNextInverse | dynamic_server.mjs:253-254 | the previous and next depth groups undo each other |
| Depths.BandsSpan | dynamic_server.mjs:239-251 | the bands start at 0 km and end at 700 km |
| Depths.BandsContiguous | dynamic_server.mjs:236-251 | `upper(g) == lower(g+1)`, and each band is non-empty |
| Depths.BandsPartition | dynamic_server.mjs:236-251 | a depth is in some band iff it is in [0, 700), and then in exactly one |
| Summaries.Summarize | dynamic_server.mjs:131-142 | the chart arrays have one entry per row, in row order; the label is the last row's location, or `''` when there are no rows |
| Summaries.LabelOfLocationRows | dynamic_server.mjs:124-139 | rows fetched for one location carry that location as the label, or `''` when none came back |
| Summaries.SummarizeAppend | dynamic_server.mjs:137-142 | the loop neither reorders nor drops rows: summarising `a + b` concatenates the arrays, and the label comes from the later part |
| Routes.IndexRoute | dynamic_server.mjs:32-77 | 500 `SQL Error` on a query failure; otherwise a page with one location link per row in query order, the magnitude groups 1..9 in order, and the three fixed depth links |
| Routes.IndexListsAccepted | dynamic_server.mjs:46-53 | the index page's magnitude list holds exactly the groups the magnitude handler accepts, and every depth link is accepted |
| Routes.LocationRoute | dynamic_server.mjs:81-166 | 500 on either query failure; 404 `'Location not found: ' + loc` when absent; a page exactly when found and rows fetched, whose navigation is the location lookup's (ring neighbours of the first match), whose summary is the row loop's, and whose `TOTAL_COUNT` is the number of rows |
| Routes.MagnitudeRoute | dynamic_server.mjs:169-225 | 404 naming the raw segment exactly when the group is NaN or outside 1..9; 500 `SQL Error` exactly when valid but the query failed; the page covers `[m, m+1)`, links to the closed-form previous and next groups, and carries the row loop's summary and row count |
| Routes.DepthRoute | dynamic_server.mjs:228-295 | 404 naming the raw segment exactly when the group is NaN or outside 1..3; 500 `SQL Error` exactly when valid but the query failed; the page uses the group's band and caption from the table, links to the closed-form previous and next groups, and carries the row loop's summary and row count |
| Routes.IndexLinksResolve | dynamic_server.mjs:40-53 | no location, magnitude or depth link on the index page answers 404 |
| Routes.LocationLinksResolve | dynamic_server.mjs:145-146 | a location page's previous and next links never answer 404 |
| Routes.LocationLinksReturn | dynamic_server.mjs:145-146 | on the distinct location list, the previous page's next link and the next page's previous link lead back |
| Routes.MagnitudeLinksReturn | dynamic_server.mjs:204-205 | a magnitude page's links lead to pages whose opposite links lead back |
| Routes.DepthLinksReturn | dynamic_server.mjs:274-275 | a depth page's links lead to pages whose opposite links lead back |
| Scenarios.ThreeLocations | dynamic_server.mjs:106-121 | on [A, B, C]: A gives previous C and next B; C gives previous B and next A |
| Scenarios.UnknownLocation | dynamic_server.mjs:97-98 | an unknown location is a 404 with body `Location not found: Nonexistent` |
| Scenarios.RejectedMagnitudes | dynamic_server.mjs:172-173 | groups 0 and 10 and the text `abc` are 404s that repeat the raw segment |
| Scenarios.WrappingBuckets | dynamic_server.mjs:180-181 | magnitude 1 goes back to 9 and 9 forward to 1; depth 1 goes back to 3 and 3 forward to 1 |
| Scenarios.EmptyIndex | dynamic_server.mjs:40-43 | with no locations the index page still renders, with an empty location list |

## Left out

- `parseInt`: the handlers receive the raw segment and its parsed value as separate inputs, with `None` for NaN. Whitespace, signs, the `0x` prefix and trailing text are not modelled.
- Routes.MagnitudeRoute, Routes.DepthRoute: the parsed value is taken as an `int`. JavaScript `-0` and values beyond 2^53 are out of range either way, so acceptance is unaffected.
- SQL execution: the query results are inputs. The model does not check that the rows really satisfy `locationSource == ?`, `mag >= ? AND mag < ?` or `depth >= ? AND depth < ?`, because that is the database's behaviour.
- The sort order of `ORDER BY locationSource` (SQLite collation) is not modelled. Only duplicate-freedom from `DISTINCT` is used, and only by the round-trip lemmas.
- A `NULL` locationSource is not modelled. Names are plain strings.
- Express routing, `app.listen`, static files, and URL encoding/decoding of path segments are not modelled. A location name is assumed to come back through its link unchanged.
- The database connection (lines 22-29) and its error logging are not modelled.
- Template reading with `fs.readFile` and its ignored error, and the `$$$TOKEN$$$` substitution with `String.prototype.replace`, are not modelled.
- HTML row markup, the magnitude range caption (line 191), image `src`/`alt` texts, the magnitude link text, and `JSON.stringify` of the chart arrays are presentation only.
- Floating-point columns are modelled as `real` values. They are carried through and never computed with.
- The index route's `asyncCount` join (lines 33-37, 71-74) is callback plumbing and is not modelled.
- The magnitude handler also builds a `depths` array (lines 193, 199) but never substitutes `$$$DEPTHS$$$` (lines 212-220). The depth handler builds only `depths`.
- Routes.MagnitudeRoute, Routes.DepthRoute: the model's magnitude and depth pages carry the full `Summary`, including a `location` label, which the source never computes for these pages (the loops at 196-201 and 268-271 set no label).
