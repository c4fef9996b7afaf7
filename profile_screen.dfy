/** The profile's route list (src/screens/ProfileScreen.tsx): opening a
    saved route flattens its coordinates, which the route builder stores as
    a list of segments, into the one polyline the map draws. */
module ProfileScreen {
  import opened Wrappers
  import opened Geo
  import RouteTrackingScreen

  /** An element of a stored coordinates array: a point, or (in the
      builder's format) a whole segment. */
  datatype Entry = Point(p: LatLng) | Segment(pts: seq<LatLng>)

  /** `flat()`: segments spread into their points, points kept. */
  function FlatPoints(cs: seq<Entry>): seq<LatLng>
    decreases |cs|
  {
    if cs == [] then []
    else (match cs[0] case Point(p) => [p] case Segment(pts) => pts) + FlatPoints(cs[1..])
  }

  function AsPoints(ps: seq<LatLng>): (es: seq<Entry>)
    ensures |es| == |ps|
    ensures forall i :: 0 <= i < |ps| ==> es[i] == Point(ps[i])
  {
    seq(|ps|, i requires 0 <= i < |ps| => Point(ps[i]))
  }

  /** The number of points an entry stands for. */
  function Size(cs: seq<Entry>): nat
    decreases |cs|
  {
    if cs == [] then 0
    else (match cs[0] case Point(_) => 1 case Segment(pts) => |pts|) + Size(cs[1..])
  }

  /** `Array.isArray(coordinates[0]) ? coordinates.flat() : coordinates`. */
  function ParseCoordinates(cs: seq<Entry>): (r: seq<Entry>)
    ensures cs != [] && cs[0].Segment? ==> r == AsPoints(FlatPoints(cs))
    ensures !(cs != [] && cs[0].Segment?) ==> r == cs
    ensures forall i :: 0 <= i < |r| && cs != [] && cs[0].Segment? ==> r[i].Point?
  {
    if cs != [] && cs[0].Segment? then AsPoints(FlatPoints(cs)) else cs
  }

  /** Flattening keeps every point: the length is the sum of the parts. */
  lemma {:induction false} FlatPointsSize(cs: seq<Entry>)
    ensures |FlatPoints(cs)| == Size(cs)
    decreases |cs|
  {
    if cs != [] {
      FlatPointsSize(cs[1..]);
    }
  }

  /** Flattening once is enough: an opened route opens unchanged. */
  lemma ParseCoordinatesIdempotent(cs: seq<Entry>)
    ensures ParseCoordinates(ParseCoordinates(cs)) == ParseCoordinates(cs)
  {
  }

  /** The entries the route builder saves: one per segment. */
  function Stored(segs: seq<seq<LatLng>>): (cs: seq<Entry>)
    ensures |cs| == |segs|
    ensures forall i :: 0 <= i < |segs| ==> cs[i] == Segment(segs[i])
  {
    seq(|segs|, i requires 0 <= i < |segs| => Segment(segs[i]))
  }

  /** The segments one after another. */
  function Concat(segs: seq<seq<LatLng>>): seq<LatLng>
    decreases |segs|
  {
    if segs == [] then [] else Concat(segs[..|segs| - 1]) + segs[|segs| - 1]
  }

  lemma {:induction false} FlatPointsOfStored(segs: seq<seq<LatLng>>)
    ensures FlatPoints(Stored(segs)) == Concat(segs)
    decreases |segs|
  {
    if segs != [] {
      var init := segs[..|segs| - 1];
      FlatPointsOfStored(init);
      FlatPointsAppend(Stored(init), Segment(segs[|segs| - 1]));
      assert Stored(segs) == Stored(init) + [Segment(segs[|segs| - 1])];
    }
  }

  lemma {:induction false} FlatPointsAppend(cs: seq<Entry>, e: Entry)
    ensures FlatPoints(cs + [e]) == FlatPoints(cs) + FlatPoints([e])
    decreases |cs|
  {
    if cs == [] {
      assert cs + [e] == [e];
    } else {
      assert (cs + [e])[1..] == cs[1..] + [e];
      FlatPointsAppend(cs[1..], e);
    }
  }

  /** A route saved with at least one segment opens as the concatenation of
      its segments, point by point. */
  lemma OpenStoredRoute(segs: seq<seq<LatLng>>)
    requires segs != []
    ensures ParseCoordinates(Stored(segs)) == AsPoints(Concat(segs))
  {
    FlatPointsOfStored(segs);
  }

  /** The drawn polyline is at least as long as the distance saved with the
      route: it adds the steps that join one segment to the next. */
  lemma {:induction false} DrawnPathCoversSavedDistance(dist: Metric, segs: seq<seq<LatLng>>)
    ensures PathLength(dist, Concat(segs)) >= RouteTrackingScreen.SegmentsLength(dist, segs)
    decreases |segs|
  {
    if segs != [] {
      var init := segs[..|segs| - 1];
      var last := segs[|segs| - 1];
      DrawnPathCoversSavedDistance(dist, init);
      if Concat(init) == [] {
        assert Concat(segs) == last;
        RouteTrackingScreen.SegmentsLengthNonNegative(dist, init);
        PathLengthNonNegative(dist, Concat(init));
      } else if last == [] {
        assert Concat(segs) == Concat(init);
      } else {
        PathLengthConcat(dist, Concat(init), last);
      }
    }
  }

  /** A saved route as the profile lists it. */
  datatype RouteEntry = RouteEntry(id: string, name: string, distance: real, coordinates: seq<Entry>)

  datatype ProfileView = ProfileView(selectedRoute: Option<RouteEntry>, modalVisible: bool)

  /** openRouteModal: the route with its coordinates parsed, the rest copied. */
  function OpenRouteModal(v: ProfileView, route: RouteEntry): (v': ProfileView)
    ensures v'.modalVisible && v'.selectedRoute.Some?
    ensures v'.selectedRoute.value.coordinates == ParseCoordinates(route.coordinates)
    ensures v'.selectedRoute.value.(coordinates := route.coordinates) == route
  {
    ProfileView(Some(route.(coordinates := ParseCoordinates(route.coordinates))), true)
  }

  /** closeModal. */
  function CloseModal(v: ProfileView): (v': ProfileView)
    ensures v'.selectedRoute.None? && !v'.modalVisible
  {
    ProfileView(None, false)
  }

  /** Closing forgets whatever was opened. */
  lemma CloseAfterOpen(v: ProfileView, route: RouteEntry)
    ensures CloseModal(OpenRouteModal(v, route)) == CloseModal(v)
  {
  }
}
