/**
  GPS fixes, the stay points detected among them, and the time metric
  between two fixes.
 */
module Geo {

  /** A GPS fix: latitude and longitude in degrees, and its timestamp as whole
      seconds since the epoch. */
  datatype Point = Point(latitude: real, longitude: real, time: int)

  /** A detected stay point: the centroid of its member fixes, the timestamp of
      its first member (arrival) and of its last member (departure). */
  datatype StayPoint = StayPoint(latitude: real, longitude: real, arriveTime: int, leaveTime: int)

  /** Signed number of seconds elapsed from `p` to `q`: positive exactly
      when `q` is later than `p`. */
  function TimeInterval(p: Point, q: Point): (d: int)
    ensures p.time + d == q.time
    ensures d > 0 <==> p.time < q.time
  {
    q.time - p.time
  }

  /** A trajectory whose timestamps never decrease, as the log parser
      delivers it. */
  ghost predicate Chronological(points: seq<Point>)
  {
    forall a, b :: 0 <= a <= b < |points| ==> points[a].time <= points[b].time
  }
}
