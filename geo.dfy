/** Points, the great-circle distance and bearing (kept abstract), path
    lengths and the "first closest point" search that several screens share. */
module Geo {

  /** A coordinate in degrees. */
  datatype LatLng = LatLng(latitude: real, longitude: real)

  /** A non-negative length. */
  type Km = r: real | r >= 0.0

  /** The haversine distance: any total, non-negative function of two points.
      The screens use it in kilometres (Earth radius 6371) or in metres
      (radius 6371000); which is said where it is used. */
  type Metric = (LatLng, LatLng) -> Km

  /** A compass bearing, in [0, 360). */
  type Degrees = r: real | 0.0 <= r < 360.0

  /** The initial bearing from one point to another. */
  type BearingFn = (LatLng, LatLng) -> Degrees

  /** The length of a path: the sum of the distances between consecutive points. */
  function PathLength(dist: Metric, pts: seq<LatLng>): real
    decreases |pts|
  {
    if |pts| < 2 then 0.0
    else PathLength(dist, pts[..|pts| - 1]) + dist(pts[|pts| - 2], pts[|pts| - 1])
  }

  lemma {:induction false} PathLengthNonNegative(dist: Metric, pts: seq<LatLng>)
    ensures PathLength(dist, pts) >= 0.0
    decreases |pts|
  {
    if |pts| >= 2 {
      PathLengthNonNegative(dist, pts[..|pts| - 1]);
    }
  }

  /** Appending one point adds exactly the distance from the old last point. */
  lemma PathLengthAppend(dist: Metric, pts: seq<LatLng>, p: LatLng)
    ensures PathLength(dist, pts + [p]) ==
            if pts == [] then 0.0 else PathLength(dist, pts) + dist(pts[|pts| - 1], p)
  {
    assert (pts + [p])[..|pts|] == pts;
  }

  /** The length of a concatenation is the two lengths plus the one step that
      joins them. */
  lemma {:induction false} PathLengthConcat(dist: Metric, a: seq<LatLng>, b: seq<LatLng>)
    requires a != [] && b != []
    ensures PathLength(dist, a + b) ==
            PathLength(dist, a) + dist(a[|a| - 1], b[0]) + PathLength(dist, b)
    decreases |b|
  {
    if |b| == 1 {
      PathLengthAppend(dist, a, b[0]);
      assert a + b == a + [b[0]];
    } else {
      var b' := b[..|b| - 1];
      PathLengthConcat(dist, a, b');
      assert (a + b)[..|a + b| - 1] == a + b';
    }
  }

  /** The distances from one point to each of a list of points. */
  function DistancesFrom(dist: Metric, pos: LatLng, pts: seq<LatLng>): (ds: seq<real>)
    ensures |ds| == |pts|
    ensures forall i :: 0 <= i < |pts| ==> ds[i] == dist(pos, pts[i])
  {
    seq(|pts|, i requires 0 <= i < |pts| => dist(pos, pts[i]))
  }

  /** k is where a left-to-right scan of ds[lo..hi] that keeps a candidate
      only on a strictly smaller value ends: a minimum, and the first one. */
  predicate IsFirstMin(ds: seq<real>, lo: int, hi: int, k: int) {
    0 <= lo <= k < hi <= |ds| &&
    (forall j :: lo <= j < hi ==> ds[k] <= ds[j]) &&
    (forall j :: lo <= j < k ==> ds[k] < ds[j])
  }

  /** The first minimum of a non-empty slice. */
  function FirstMin(ds: seq<real>, lo: nat, hi: nat): (k: nat)
    requires lo < hi <= |ds|
    ensures IsFirstMin(ds, lo, hi, k)
    decreases hi
  {
    if hi == lo + 1 then lo
    else
      var k := FirstMin(ds, lo, hi - 1);
      if ds[hi - 1] < ds[k] then hi - 1 else k
  }

  /** At most one index is the first minimum. */
  lemma FirstMinUnique(ds: seq<real>, lo: int, hi: int, k1: int, k2: int)
    requires IsFirstMin(ds, lo, hi, k1) && IsFirstMin(ds, lo, hi, k2)
    ensures k1 == k2
  {
    assert ds[k1] == ds[k2];
  }
}
