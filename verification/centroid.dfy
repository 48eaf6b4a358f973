/**
  The centroid of a window of fixes: the unweighted arithmetic mean of their
  latitudes and of their longitudes.
 */
module Centroid {
  import opened Geo

  function Latitude(p: Point): real { p.latitude }

  function Longitude(p: Point): real { p.longitude }

  /** Sum of one coordinate over the fixes, accumulated front to back. */
  function Sum(ps: seq<Point>, coord: Point -> real): real
  {
    if ps == [] then 0.0 else Sum(ps[..|ps| - 1], coord) + coord(ps[|ps| - 1])
  }

  /** Arithmetic mean of one coordinate over a non-empty window. */
  function Mean(ps: seq<Point>, coord: Point -> real): real
    requires |ps| > 0
  {
    Sum(ps, coord) / (|ps| as real)
  }

  /** If every coordinate lies in [lo, hi], the sum of n of them lies in
      [n * lo, n * hi]. */
  lemma {:induction false} SumBounds(ps: seq<Point>, coord: Point -> real, lo: real, hi: real)
    requires forall k :: 0 <= k < |ps| ==> lo <= coord(ps[k]) <= hi
    ensures (|ps| as real) * lo <= Sum(ps, coord) <= (|ps| as real) * hi
  {
    if ps != [] {
      var init := ps[..|ps| - 1];
      forall k | 0 <= k < |init| ensures lo <= coord(init[k]) <= hi {
        assert init[k] == ps[k];
      }
      SumBounds(init, coord, lo, hi);
      assert lo <= coord(ps[|ps| - 1]) <= hi;
    }
  }

  /** The mean lies between the smallest and the largest coordinate. */
  lemma MeanBounds(ps: seq<Point>, coord: Point -> real, lo: real, hi: real)
    requires |ps| > 0
    requires forall k :: 0 <= k < |ps| ==> lo <= coord(ps[k]) <= hi
    ensures lo <= Mean(ps, coord) <= hi
  {
    SumBounds(ps, coord, lo, hi);
    var n := |ps| as real;
    var s := Sum(ps, coord);
    assert n * lo <= s <= n * hi;
    assert s / n >= lo by {
      assert s / n * n == s;
    }
    assert s / n <= hi by {
      assert s / n * n == s;
    }
  }

  /** A window of fixes that all share one coordinate value has that value as
      its mean. */
  lemma MeanOfStationary(ps: seq<Point>, coord: Point -> real, c: real)
    requires |ps| > 0
    requires forall k :: 0 <= k < |ps| ==> coord(ps[k]) == c
    ensures Mean(ps, coord) == c
  {
    MeanBounds(ps, coord, c, c);
  }

  /** Mean latitude and longitude of a non-empty window, accumulated in one
      pass over the fixes. */
  method MeanCoord(ps: seq<Point>) returns (latitude: real, longitude: real)
    requires |ps| > 0
    ensures latitude == Mean(ps, Latitude)
    ensures longitude == Mean(ps, Longitude)
  {
    var lat, lon := 0.0, 0.0;
    for k := 0 to |ps|
      invariant lat == Sum(ps[..k], Latitude)
      invariant lon == Sum(ps[..k], Longitude)
    {
      assert ps[..k + 1][..k] == ps[..k];
      lat := lat + ps[k].latitude;
      lon := lon + ps[k].longitude;
    }
    assert ps[..|ps|] == ps;
    latitude := lat / (|ps| as real);
    longitude := lon / (|ps| as real);
  }
}
