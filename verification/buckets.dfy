/** Static bucket configuration shared by the magnitude and depth dimensions. */
module Buckets {

  /** The half-open numeric range `[lower, upper)` a bucket selects;
      the route hands both bounds to a `>= ? AND < ?` query. */
  datatype Band = Band(lower: int, upper: int) {

    /** `x` falls inside the band. */
    predicate Contains(x: real) {
      lower as real <= x < upper as real
    }
  }

  /** One entry of a bucket list on the index page: the group number put
      into the link's path and the text shown for it. */
  datatype Link = Link(group: int, text: string)
}
