/** The route builder (src/screens/RouteTrackingScreen.tsx): in edit mode
    every map press adds a marker, and from the second marker on the walking
    directions between the last two markers are fetched and their decoded
    polyline appended as a segment; the distance shown is the sum of the
    segments' haversine lengths in kilometres. */
module RouteTrackingScreen {
  import opened Wrappers
  import opened Geo
  import Polyline

  /** `lat / 1e5`, `lng / 1e5`: exact on reals. */
  function ToLatLng(p: Polyline.E5Point): (q: LatLng)
    ensures q.latitude * 100000.0 == p.lat as real
    ensures q.longitude * 100000.0 == p.lng as real
  {
    LatLng(p.lat as real / 100000.0, p.lng as real / 100000.0)
  }

  /** The decoder's points in degrees. */
  function ToLatLngs(pts: seq<Polyline.E5Point>): (qs: seq<LatLng>)
    ensures |qs| == |pts|
    ensures forall i :: 0 <= i < |qs| ==> qs[i] == ToLatLng(pts[i])
  {
    seq(|pts|, i requires 0 <= i < |pts| => ToLatLng(pts[i]))
  }

  /** The segment that one directions response contributes. */
  function SegmentOf(polyline: string): (seg: seq<LatLng>)
    ensures |seg| == |Polyline.Decode(polyline)|
    ensures forall i :: 0 <= i < |seg| ==> seg[i] == ToLatLng(Polyline.Decode(polyline)[i])
  {
    ToLatLngs(Polyline.Decode(polyline))
  }

  /** calculateDistance: every segment's path length, summed in order. */
  function SegmentsLength(dist: Metric, segs: seq<seq<LatLng>>): real
    decreases |segs|
  {
    if segs == [] then 0.0
    else SegmentsLength(dist, segs[..|segs| - 1]) + PathLength(dist, segs[|segs| - 1])
  }

  lemma {:induction false} SegmentsLengthNonNegative(dist: Metric, segs: seq<seq<LatLng>>)
    ensures SegmentsLength(dist, segs) >= 0.0
    decreases |segs|
  {
    if segs != [] {
      SegmentsLengthNonNegative(dist, segs[..|segs| - 1]);
      PathLengthNonNegative(dist, segs[|segs| - 1]);
    }
  }

  /** Adding a segment never shortens the route. */
  lemma SegmentsLengthAppend(dist: Metric, segs: seq<seq<LatLng>>, seg: seq<LatLng>)
    ensures SegmentsLength(dist, segs + [seg]) >= SegmentsLength(dist, segs)
  {
    assert (segs + [seg])[..|segs|] == segs;
    PathLengthNonNegative(dist, seg);
  }

  /** The screen's state. */
  datatype RouteState = RouteState(
    markers: seq<LatLng>,
    routeCoords: seq<seq<LatLng>>,
    editMode: bool,
    showSaveModal: bool,
    routeName: string,
    distance: real)

  /** Each segment joins two consecutive markers (a failed request leaves a
      pair without one), and the distance shown is that of the segments. */
  predicate Consistent(dist: Metric, s: RouteState) {
    (s.routeCoords == [] || |s.routeCoords| < |s.markers|) &&
    s.distance == SegmentsLength(dist, s.routeCoords)
  }

  function Initial(): RouteState {
    RouteState([], [], false, false, "", 0.0)
  }

  lemma InitialConsistent(dist: Metric)
    ensures Consistent(dist, Initial())
    ensures Initial().markers == [] && !Initial().editMode
  {
  }

  /** handleMapPress. `directions` is the overview polyline of the first
      route the directions request returned; None when the request failed
      or returned no route. */
  function Press(dist: Metric, s: RouteState, p: LatLng, directions: Option<string>): (s': RouteState)
    requires Consistent(dist, s)
    ensures Consistent(dist, s')
    ensures !s.editMode ==> s' == s
    ensures s.editMode ==> s'.markers == s.markers + [p]
    ensures s.editMode && |s'.markers| >= 2 && directions.Some? ==>
              s'.routeCoords == s.routeCoords + [SegmentOf(directions.value)]
    ensures !(s.editMode && |s'.markers| >= 2 && directions.Some?) ==>
              s'.routeCoords == s.routeCoords && s'.distance == s.distance
    ensures s'.distance >= s.distance
    ensures s'.editMode == s.editMode && s'.routeName == s.routeName && s'.showSaveModal == s.showSaveModal
  {
    if !s.editMode then s
    else
      var newMarkers := s.markers + [p];
      if |newMarkers| >= 2 && directions.Some? then
        var updated := s.routeCoords + [SegmentOf(directions.value)];
        SegmentsLengthAppend(dist, s.routeCoords, SegmentOf(directions.value));
        s.(markers := newMarkers, routeCoords := updated, distance := SegmentsLength(dist, updated))
      else s.(markers := newMarkers)
  }

  /** undoLastMarker: the last marker and the last segment go. */
  function Undo(dist: Metric, s: RouteState): (s': RouteState)
    requires Consistent(dist, s)
    ensures Consistent(dist, s')
    ensures |s.markers| > 1 ==> s'.markers == s.markers[..|s.markers| - 1]
    ensures |s.markers| > 1 && s.routeCoords != [] ==> s'.routeCoords == s.routeCoords[..|s.routeCoords| - 1]
    ensures |s.markers| == 1 ==> s'.markers == [] && s'.routeCoords == [] && s'.distance == 0.0
    ensures s.markers == [] ==> s' == s
    ensures s'.editMode == s.editMode && s'.routeName == s.routeName && s'.showSaveModal == s.showSaveModal
  {
    if |s.markers| > 1 then
      var segs := if s.routeCoords == [] then [] else s.routeCoords[..|s.routeCoords| - 1];
      s.(markers := s.markers[..|s.markers| - 1], routeCoords := segs, distance := SegmentsLength(dist, segs))
    else if |s.markers| == 1 then
      s.(markers := [], routeCoords := [], distance := 0.0)
    else s
  }

  /** resetRoute: markers, segments and distance cleared, edit mode left. */
  function Reset(s: RouteState): (s': RouteState)
    ensures s'.markers == [] && s'.routeCoords == [] && s'.distance == 0.0 && !s'.editMode
    ensures s'.routeName == s.routeName && s'.showSaveModal == s.showSaveModal
  {
    s.(markers := [], routeCoords := [], distance := 0.0, editMode := false)
  }

  lemma ResetConsistent(dist: Metric, s: RouteState)
    ensures Consistent(dist, Reset(s))
  {
  }

  /** Undo right after a press whose directions arrived restores the state
      before the press. */
  lemma {:induction false} UndoAfterPress(dist: Metric, s: RouteState, p: LatLng, polyline: string)
    requires Consistent(dist, s) && s.editMode
    ensures Undo(dist, Press(dist, s, p, Some(polyline))) == s
  {
    var s1 := Press(dist, s, p, Some(polyline));
    assert s1.markers[..|s1.markers| - 1] == s.markers;
    if s.markers != [] {
      assert s1.routeCoords[..|s1.routeCoords| - 1] == s.routeCoords;
    }
  }

  /** When the request for the last pair failed, undo still drops the last
      segment, which joins an earlier pair of markers. */
  lemma {:induction false} UndoAfterFailedPress(dist: Metric, s: RouteState, p: LatLng)
    requires Consistent(dist, s) && s.editMode && s.routeCoords != []
    ensures Undo(dist, Press(dist, s, p, None)).markers == s.markers
    ensures Undo(dist, Press(dist, s, p, None)).routeCoords == s.routeCoords[..|s.routeCoords| - 1]
  {
    var s1 := Press(dist, s, p, None);
    assert s1.markers[..|s1.markers| - 1] == s.markers;
  }

  /** What handleSave inserts into the routes table. */
  datatype RouteRecord = RouteRecord(userId: string, name: string, distance: real, coordinates: seq<seq<LatLng>>)

  /** The record handleSave sends: only with a signed-in user. */
  function SaveRecord(s: RouteState, userId: Option<string>): (r: Option<RouteRecord>)
    ensures r.Some? <==> userId.Some?
    ensures r.Some? ==> r.value.userId == userId.value && r.value.name == s.routeName &&
                        r.value.distance == s.distance && r.value.coordinates == s.routeCoords
  {
    if userId.None? then None else Some(RouteRecord(userId.value, s.routeName, s.distance, s.routeCoords))
  }

  /** The state after handleSave; `insertFailed` is the database's answer. */
  function AfterSave(s: RouteState, userId: Option<string>, insertFailed: bool): (s': RouteState)
    ensures userId.None? || insertFailed ==> s' == s
    ensures userId.Some? && !insertFailed ==>
              s'.markers == [] && s'.routeCoords == [] && s'.distance == 0.0 &&
              !s'.editMode && !s'.showSaveModal && s'.routeName == ""
  {
    if userId.None? || insertFailed then s
    else Reset(s).(showSaveModal := false, routeName := "")
  }

  // ---------------------------------------------------------------------------
  // The loops and the component

  /** calculateDistance's loops. */
  method CalculateDistance(dist: Metric, segments: seq<seq<LatLng>>) returns (total: real)
    ensures total == SegmentsLength(dist, segments)
  {
    total := 0.0;
    for j := 0 to |segments|
      invariant total == SegmentsLength(dist, segments[..j])
    {
      assert segments[..j + 1][..j] == segments[..j];
      var points := segments[j];
      ghost var before := total;
      var i := 1;
      while i < |points|
        invariant 1 <= i && (i <= |points| || points == [])
        invariant total == before + PathLength(dist, points[..if points == [] then 0 else i])
      {
        assert points[..i + 1][..i] == points[..i];
        total := total + dist(points[i - 1], points[i]);
        i := i + 1;
      }
      assert points[..if points == [] then 0 else i] == points;
    }
    assert segments[..|segments|] == segments;
  }

  class RouteBuilder {
    const dist: Metric
    var markers: seq<LatLng>
    var routeCoords: seq<seq<LatLng>>
    var editMode: bool
    var showSaveModal: bool
    var routeName: string
    var distance: real

    function Model(): RouteState
      reads this
    {
      RouteState(markers, routeCoords, editMode, showSaveModal, routeName, distance)
    }

    ghost predicate Valid()
      reads this
    {
      Consistent(dist, Model())
    }

    constructor(dist: Metric)
      ensures this.dist == dist && Model() == Initial() && Valid()
    {
      this.dist := dist;
      markers, routeCoords := [], [];
      editMode, showSaveModal := false, false;
      routeName, distance := "", 0.0;
    }

    /** The "Neue Route" button. */
    method StartEditing()
      modifies this
      ensures Model() == old(Model()).(editMode := true)
    {
      editMode := true;
    }

    method HandleMapPress(p: LatLng, directions: Option<string>)
      requires Valid()
      modifies this
      ensures Valid() && Model() == Press(dist, old(Model()), p, directions)
    {
      ghost var before := Model();
      ghost var after := Press(dist, before, p, directions);
      if !editMode {
        return;
      }
      var newMarkers := markers + [p];
      markers := newMarkers;
      if |newMarkers| >= 2 && directions.Some? {
        var decoded := Polyline.DecodePolyline(directions.value);
        var points := ToLatLngs(decoded);
        assert points == SegmentOf(directions.value);
        var updatedSegments := routeCoords + [points];
        routeCoords := updatedSegments;
        distance := CalculateDistance(dist, updatedSegments);
        assert after == before.(markers := newMarkers, routeCoords := updatedSegments,
                                distance := SegmentsLength(dist, updatedSegments));
      } else {
        assert after == before.(markers := newMarkers);
      }
    }

    method UndoLastMarker()
      requires Valid()
      modifies this
      ensures Valid() && Model() == Undo(dist, old(Model()))
    {
      if |markers| > 1 {
        var updatedMarkers := markers[..|markers| - 1];
        var updatedSegments := if routeCoords == [] then [] else routeCoords[..|routeCoords| - 1];
        markers := updatedMarkers;
        routeCoords := updatedSegments;
        distance := CalculateDistance(dist, updatedSegments);
      } else if |markers| == 1 {
        markers, routeCoords, distance := [], [], 0.0;
      }
    }

    method ResetRoute()
      modifies this
      ensures Valid() && Model() == Reset(old(Model()))
    {
      markers, routeCoords, distance, editMode := [], [], 0.0, false;
    }

    /** The "Speichern" button of the bottom bar. */
    method OpenSaveModal()
      modifies this
      ensures Model() == old(Model()).(showSaveModal := true)
    {
      showSaveModal := true;
    }

    /** The name field of the save dialog. */
    method SetRouteName(name: string)
      modifies this
      ensures Model() == old(Model()).(routeName := name)
    {
      routeName := name;
    }

    /** handleSave: the signed-in user (None when there is none) and whether
        the insert failed are parameters; the record sent is returned. */
    method HandleSave(userId: Option<string>, insertFailed: bool) returns (sent: Option<RouteRecord>)
      modifies this
      ensures sent == SaveRecord(old(Model()), userId)
      ensures Model() == AfterSave(old(Model()), userId, insertFailed)
    {
      if userId.None? {
        return None;
      }
      sent := Some(RouteRecord(userId.value, routeName, distance, routeCoords));
      if insertFailed {
        return;
      }
      ResetRoute();
      showSaveModal := false;
      routeName := "";
    }
  }
}
