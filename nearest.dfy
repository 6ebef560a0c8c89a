/** The nearest-point matcher of route_compare_gui.py: a linear scan that
    keeps the closest track point seen so far. */
module Nearest {
  import opened Wrappers

  /** One track point: its time and its position. */
  datatype TrackPoint = TrackPoint(time: int, lon: real, lat: real)

  /** `(min_dist, nearest_time, nearest_point)` when there is a point. */
  datatype Match = Match(dist: real, time: int, lon: real, lat: real)

  function DistanceTo(lon: real, lat: real, p: TrackPoint, dist: Distance): real {
    dist(lon, lat, p.lon, p.lat)
  }

  /** The first index among the first `n` points whose distance is least. */
  function ArgMinUpTo(lon: real, lat: real, points: seq<TrackPoint>, n: nat, dist: Distance): (k: nat)
    requires 0 < n <= |points|
    ensures k < n
    ensures forall j :: 0 <= j < n ==> DistanceTo(lon, lat, points[k], dist) <= DistanceTo(lon, lat, points[j], dist)
    ensures forall j :: 0 <= j < k ==> DistanceTo(lon, lat, points[j], dist) > DistanceTo(lon, lat, points[k], dist)
  {
    if n == 1 then 0
    else
      var k := ArgMinUpTo(lon, lat, points, n - 1, dist);
      if DistanceTo(lon, lat, points[n - 1], dist) < DistanceTo(lon, lat, points[k], dist) then n - 1 else k
  }

  /** The match the scan reports for point `k`. */
  function MatchOf(lon: real, lat: real, p: TrackPoint, dist: Distance): Match {
    Match(DistanceTo(lon, lat, p, dist), p.time, p.lon, p.lat)
  }

  /** `find_nearest(lon, lat, points)`: `None` (the `(None, None, None)`
      triple) exactly for an empty list; otherwise the distance, time and
      position of the first point at least distance. */
  method FindNearest(lon: real, lat: real, points: seq<TrackPoint>, dist: Distance) returns (r: Option<Match>)
    ensures r.None? <==> points == []
    ensures r.Some? ==> r.value == MatchOf(lon, lat, points[ArgMinUpTo(lon, lat, points, |points|, dist)], dist)
  {
    r := None;
    var i := 0;
    while i < |points|
      invariant 0 <= i <= |points|
      invariant r.None? <==> i == 0
      invariant r.Some? ==> r.value == MatchOf(lon, lat, points[ArgMinUpTo(lon, lat, points, i, dist)], dist)
    {
      var p := points[i];
      var d := dist(lon, lat, p.lon, p.lat);
      if r.None? || d < r.value.dist {
        r := Some(Match(d, p.time, p.lon, p.lat));
      }
      i := i + 1;
    }
  }

  /** Only the distances matter: two lists at the same distances, point by
      point, are matched at the same index. */
  lemma {:induction false} ArgMinByDistance(lon: real, lat: real, a: seq<TrackPoint>, b: seq<TrackPoint>, n: nat, dist: Distance)
    requires 0 < n <= |a| && |a| == |b|
    requires forall j :: 0 <= j < |a| ==> DistanceTo(lon, lat, a[j], dist) == DistanceTo(lon, lat, b[j], dist)
    ensures ArgMinUpTo(lon, lat, a, n, dist) == ArgMinUpTo(lon, lat, b, n, dist)
  {
    if n > 1 {
      ArgMinByDistance(lon, lat, a, b, n - 1, dist);
    }
  }
}
