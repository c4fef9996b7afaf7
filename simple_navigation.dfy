/** Route following along a list of waypoints (src/utils/simpleNavigation.ts):
    a windowed search for the waypoint closest to the runner, a forward scan
    for the next waypoint far enough away to navigate to, and the turn
    instruction derived from two bearings. Distances here are in metres. */
module SimpleNavigation {
  import opened Wrappers
  import opened Geo

  /** A waypoint closer than this many metres is not worth navigating to. */
  const MinSeparation: real := 15.0

  /** The result of findNextWaypoint. */
  datatype Waypoint = Waypoint(nextWaypoint: Option<LatLng>, nextIndex: int, distanceToNext: real)

  /** `Math.max(0, lastWaypointIndex - 2)`. */
  function SearchStart(last: int): int {
    if last - 2 > 0 then last - 2 else 0
  }

  /** `Math.min(route.length, lastWaypointIndex + 10)`. */
  function SearchEnd(len: nat, last: int): int {
    if len < last + 10 then len else last + 10
  }

  /** The source reads `route[i]` for the scan that starts after the closest
      index; with a start index of -10 or less on a non-empty route that index
      is negative and the source throws. */
  predicate CanSearch(route: seq<LatLng>, last: int) {
    |route| == 0 || last > -10
  }

  /** The index the windowed search settles on: the first closest point of the
      window, or the old index when the window is empty. */
  function ClosestIndex(meters: Metric, pos: LatLng, route: seq<LatLng>, last: int): (c: int)
    requires |route| > 0 && CanSearch(route, last)
    ensures SearchStart(last) < SearchEnd(|route|, last) ==>
              IsFirstMin(DistancesFrom(meters, pos, route), SearchStart(last), SearchEnd(|route|, last), c)
    ensures SearchStart(last) >= SearchEnd(|route|, last) ==> c == last && c >= |route|
    ensures c >= 0
  {
    var lo, hi := SearchStart(last), SearchEnd(|route|, last);
    if lo < hi then FirstMin(DistancesFrom(meters, pos, route), lo, hi) else last
  }

  /** The first index at or after `from` whose distance exceeds the separation. */
  function FirstFar(ds: seq<real>, from: nat): (r: Option<nat>)
    ensures r.Some? ==> from <= r.value < |ds| && ds[r.value] > MinSeparation &&
                        forall j :: from <= j < r.value ==> ds[j] <= MinSeparation
    ensures r.None? ==> forall j :: from <= j < |ds| ==> ds[j] <= MinSeparation
    decreases |ds| - from
  {
    if from >= |ds| then None
    else if ds[from] > MinSeparation then Some(from)
    else FirstFar(ds, from + 1)
  }

  /** findNextWaypoint, as a function of its inputs. */
  function NextWaypoint(meters: Metric, pos: LatLng, route: seq<LatLng>, last: int): (r: Waypoint)
    requires CanSearch(route, last)
    ensures |route| == 0 ==> r == Waypoint(None, -1, 0.0)
    ensures |route| > 0 ==>
      var c := ClosestIndex(meters, pos, route, last);
      (r.nextWaypoint.Some? ==>
         c < r.nextIndex < |route| && r.nextWaypoint.value == route[r.nextIndex] &&
         r.distanceToNext == meters(pos, route[r.nextIndex]) && r.distanceToNext > MinSeparation &&
         forall j :: c < j < r.nextIndex ==> meters(pos, route[j]) <= MinSeparation) &&
      (r.nextWaypoint.None? ==>
         r.nextIndex == c && r.distanceToNext == 0.0 &&
         forall j :: c < j < |route| ==> meters(pos, route[j]) <= MinSeparation)
  {
    if |route| == 0 then Waypoint(None, -1, 0.0)
    else
      var ds := DistancesFrom(meters, pos, route);
      var c := ClosestIndex(meters, pos, route, last);
      match FirstFar(ds, c + 1)
      case Some(i) => Waypoint(Some(route[i]), i, ds[i])
      case None => Waypoint(None, c, 0.0)
  }

  /** The first loop of findNextWaypoint: the closest point of the window
      [SearchStart, SearchEnd), the first one on a tie; `Infinity` as the
      starting minimum is None. */
  method SearchWindow(meters: Metric, currentPos: LatLng, route: seq<LatLng>, lastWaypointIndex: int)
    returns (closestIndex: int)
    requires |route| > 0 && CanSearch(route, lastWaypointIndex)
    ensures closestIndex == ClosestIndex(meters, currentPos, route, lastWaypointIndex)
  {
    ghost var ds := DistancesFrom(meters, currentPos, route);
    var searchStart := SearchStart(lastWaypointIndex);
    var searchEnd := SearchEnd(|route|, lastWaypointIndex);
    closestIndex := lastWaypointIndex;
    var minDistance: Option<real> := None;
    var i := searchStart;
    while i < searchEnd
      invariant 0 <= searchStart <= i && searchEnd <= |route|
      invariant searchStart < searchEnd ==> i <= searchEnd
      invariant i > searchStart ==> searchStart < searchEnd
      invariant i == searchStart ==> closestIndex == lastWaypointIndex && minDistance == None
      invariant i > searchStart ==>
        closestIndex == FirstMin(ds, searchStart, i) && minDistance == Some(ds[closestIndex])
    {
      var distance := meters(currentPos, route[i]);
      if minDistance.None? || distance < minDistance.value {
        minDistance := Some(distance);
        closestIndex := i;
      }
      i := i + 1;
    }
  }

  /** The second loop: the first waypoint after the closest one that is
      farther away than the separation. */
  method ScanForward(meters: Metric, currentPos: LatLng, route: seq<LatLng>, closestIndex: nat)
    returns (r: Waypoint)
    ensures match FirstFar(DistancesFrom(meters, currentPos, route), closestIndex + 1)
            case Some(i) => r == Waypoint(Some(route[i]), i, meters(currentPos, route[i]))
            case None => r == Waypoint(None, closestIndex, 0.0)
  {
    ghost var ds := DistancesFrom(meters, currentPos, route);
    var i := closestIndex + 1;
    while i < |route|
      invariant closestIndex + 1 <= i
      invariant FirstFar(ds, closestIndex + 1) == FirstFar(ds, i)
    {
      var distance := meters(currentPos, route[i]);
      if distance > MinSeparation {
        return Waypoint(Some(route[i]), i, distance);
      }
      i := i + 1;
    }
    r := Waypoint(None, closestIndex, 0.0);
  }

  /** findNextWaypoint. */
  method FindNextWaypoint(meters: Metric, currentPos: LatLng, route: seq<LatLng>, lastWaypointIndex: int)
    returns (r: Waypoint)
    requires CanSearch(route, lastWaypointIndex)
    ensures r == NextWaypoint(meters, currentPos, route, lastWaypointIndex)
  {
    if |route| == 0 {
      return Waypoint(None, -1, 0.0);
    }
    var closestIndex := SearchWindow(meters, currentPos, route, lastWaypointIndex);
    r := ScanForward(meters, currentPos, route, closestIndex);
  }

  /** The index found is never below the start of the search window, but it
      may lie below the index the search started from: the cursor is not
      monotone. */
  lemma NextIndexLowerBound(meters: Metric, pos: LatLng, route: seq<LatLng>, last: int)
    requires |route| > 0 && CanSearch(route, last)
    ensures NextWaypoint(meters, pos, route, last).nextIndex >= SearchStart(last)
  {
  }

  /** Three equal points, started from index 2: the search goes back to index 0. */
  lemma CursorCanMoveBack()
    ensures var p := LatLng(0.0, 0.0);
            NextWaypoint((a, b) => 0.0, p, [p, p, p], 2) == Waypoint(None, 0, 0.0)
  {
    var p := LatLng(0.0, 0.0);
    var ds := DistancesFrom((a, b) => 0.0, p, [p, p, p]);
    assert ds == [0.0, 0.0, 0.0];
    assert FirstMin(ds, 0, 3) == 0;
    assert FirstFar(ds, 1) == None;
  }

  // ---------------------------------------------------------------------------
  // Turn instructions

  /** `nextBearing - currentBearing` brought into [-180, 180] by one
      correction in each direction. */
  function NormalizeAngle(diff: real): real {
    var d := if diff > 180.0 then diff - 360.0 else diff;
    if d < -180.0 then d + 360.0 else d
  }

  /** For two bearings in [0, 360) the normalised difference lies in [-180, 180]
      and differs from the raw one by a multiple of 360. */
  lemma NormalizeAngleRange(current: Degrees, next: Degrees)
    ensures var d := NormalizeAngle(next - current);
            -180.0 <= d <= 180.0 &&
            (d == next - current || d == next - current - 360.0 || d == next - current + 360.0)
  {
  }

  datatype Turn = TurnAround | Right | Left | SlightRight | SlightLeft

  /** The spoken text of each instruction. */
  function Phrase(t: Turn): string {
    match t
    case TurnAround => "Wende dich um"
    case Right => "Rechts abbiegen"
    case Left => "Links abbiegen"
    case SlightRight => "Leicht rechts halten"
    case SlightLeft => "Leicht links halten"
  }

  /** The instruction for a normalised angle difference, or none when the
      runner keeps (nearly) straight on. */
  function Classify(d: real): (r: Option<Turn>)
    ensures r == None <==> -25.0 < d < 25.0
    ensures r == Some(TurnAround) <==> d > 120.0 || d < -120.0
    ensures r == Some(Right) <==> 45.0 < d <= 120.0
    ensures r == Some(Left) <==> -120.0 <= d < -45.0
    ensures r == Some(SlightRight) <==> 25.0 <= d <= 45.0
    ensures r == Some(SlightLeft) <==> -45.0 <= d <= -25.0
  {
    if -25.0 < d < 25.0 then None
    else if d > 120.0 then Some(TurnAround)
    else if d < -120.0 then Some(TurnAround)
    else if d > 45.0 then Some(Right)
    else if d < -45.0 then Some(Left)
    else if d > 0.0 then Some(SlightRight)
    else Some(SlightLeft)
  }

  /** Right and left swapped. */
  function Mirror(t: Turn): Turn {
    match t
    case TurnAround => TurnAround
    case Right => Left
    case Left => Right
    case SlightRight => SlightLeft
    case SlightLeft => SlightRight
  }

  /** Turning the other way by the same angle gives the mirrored instruction. */
  lemma ClassifyMirror(d: real)
    ensures Classify(-d) == if Classify(d).None? then None else Some(Mirror(Classify(d).value))
  {
  }

  /** getDirectionInstruction. */
  function DirectionInstruction(currentBearing: real, nextBearing: real): (r: Option<string>)
    ensures r.None? <==> -25.0 < NormalizeAngle(nextBearing - currentBearing) < 25.0
  {
    match Classify(NormalizeAngle(nextBearing - currentBearing))
    case None => None
    case Some(t) => Some(Phrase(t))
  }

  // ---------------------------------------------------------------------------
  // The combined instruction

  datatype NavInstruction = NavInstruction(instruction: Option<string>, distance: real, newWaypointIndex: int)

  /** getNavigationInstruction. */
  function NavigationInstruction(meters: Metric, bearing: BearingFn, currentPos: LatLng,
                                 route: seq<LatLng>, lastWaypointIndex: int,
                                 currentBearing: Option<real>): (r: NavInstruction)
    requires CanSearch(route, lastWaypointIndex)
    ensures var w := NextWaypoint(meters, currentPos, route, lastWaypointIndex);
      if w.nextWaypoint.None? || w.distanceToNext == 0.0 then
        r == NavInstruction(None, 0.0, lastWaypointIndex)
      else
        r.newWaypointIndex == w.nextIndex && r.distance == w.distanceToNext &&
        r.distance > MinSeparation &&
        r.instruction == (if currentBearing.None? then None
                          else DirectionInstruction(currentBearing.value, bearing(currentPos, w.nextWaypoint.value)))
  {
    var w := NextWaypoint(meters, currentPos, route, lastWaypointIndex);
    if w.nextWaypoint.None? || w.distanceToNext == 0.0 then
      NavInstruction(None, 0.0, lastWaypointIndex)
    else
      var bearingToNext := bearing(currentPos, w.nextWaypoint.value);
      var instruction := if currentBearing.Some? then DirectionInstruction(currentBearing.value, bearingToNext) else None;
      NavInstruction(instruction, w.distanceToNext, w.nextIndex)
  }

  /** Once a waypoint is found its distance exceeds the separation, so the
      source's `distanceToNext === 0` test never decides anything. */
  lemma ZeroDistanceTestRedundant(meters: Metric, pos: LatLng, route: seq<LatLng>, last: int)
    requires CanSearch(route, last)
    ensures var w := NextWaypoint(meters, pos, route, last);
            w.nextWaypoint.Some? ==> w.distanceToNext != 0.0
  {
  }

  /** Navigation can step the index back by one: the closest point is two
      behind and the one after it is far. */
  lemma NavigationIndexCanDecrease()
    ensures var a, b := LatLng(0.0, 0.0), LatLng(100.0, 0.0);
            NavigationInstruction(LatDiff, (x, y) => 0.0, a, [a, b, a], 2, None).newWaypointIndex == 1
  {
    var a, b := LatLng(0.0, 0.0), LatLng(100.0, 0.0);
    var ds := DistancesFrom(LatDiff, a, [a, b, a]);
    assert ds == [0.0, 100.0, 0.0];
    assert FirstMin(ds, 0, 3) == 0;
    assert FirstFar(ds, 1) == Some(1);
  }

  /** A stand-in metric for the example above: the latitude difference. */
  function LatDiff(a: LatLng, b: LatLng): Km {
    if a.latitude >= b.latitude then a.latitude - b.latitude else b.latitude - a.latitude
  }
}
