/** The running screen as a component: its state variables and refs as
    fields, and one method per callback. Each callback is followed by the
    effects React runs after the commit, and the pair is proved to be one
    step of the session reducer in Workout. */
module ActivityScreen {
  import opened Wrappers
  import opened Geo
  import opened Workout
  import WorkoutProperties
  import NavigationUtils

  /** calculateDistance: the sum of the legs, from the second point on. */
  method CalculateDistance(dist: Metric, points: seq<LatLng>) returns (total: real)
    ensures total == PathLength(dist, points)
  {
    total := 0.0;
    var i := 1;
    while i < |points|
      invariant 1 <= i && (i <= |points| || points == [])
      invariant total == PathLength(dist, points[..if points == [] then 0 else i])
    {
      assert points[..i + 1][..i] == points[..i];
      total := total + dist(points[i - 1], points[i]);
      i := i + 1;
    }
    assert points[..if points == [] then 0 else i] == points;
  }

  /** The polyline loop of the directions effect. */
  method ExtractPolyline(steps: seq<NavStep>) returns (polyline: seq<LatLng>)
    ensures polyline == StepsPolyline(steps)
  {
    polyline := [];
    for i := 0 to |steps|
      invariant |polyline| == i
      invariant forall k :: 0 <= k < i ==> polyline[k] == steps[k].startLocation
    {
      polyline := polyline + [steps[i].startLocation];
    }
    if |steps| > 0 {
      polyline := polyline + [steps[|steps| - 1].endLocation];
    }
  }

  /** The screen's state. Its state variables and refs are kept in the
      groups of Workout.Session: `rec` holds tracking, paused, path,
      distance and duration; `countdown` the countdown, countdownStarted
      and showCountdown; `metrics` averagePace, calories and userWeight;
      `goals` targetPace, targetDistance and whether a route was passed;
      `announced` lastAnnouncedKm, lastKmAnnounced and last100mAnnounced;
      `guidance` navSteps, currentStepIdx and polylineCoords; `speech` the
      speech queue, isSpeaking and what has been taken off the queue. */
  class Tracker {
    /** The haversine distance in kilometres. */
    const dist: Metric
    var rec: Recording
    var countdown: Countdown
    var metrics: Metrics
    var goals: Goals
    var announced: Announced
    var guidance: Guidance
    var speech: Speech

    function Model(): Session
      reads this
    {
      Session(rec, countdown, metrics, goals, announced, guidance, speech)
    }

    /** The distance shown is the length of the recorded path. */
    ghost predicate Valid()
      reads this
    {
      WorkoutProperties.DistanceIsPath(dist, Model())
    }

    /** The mount, with the route parameters and the training's target
        pace text, and the targetDistance and target pace effects. */
    constructor(dist: Metric, targetPaceText: Option<string>, hasRoute: bool, routeDistance: Option<real>)
      ensures this.dist == dist && Valid()
      ensures Model() == NewSession(targetPaceText, hasRoute, routeDistance)
    {
      this.dist := dist;
      rec := Recording(false, false, [], 0.0, 0);
      countdown := Countdown(None, false, false);
      metrics := Metrics(0.0, 0.0, 70.0);
      var targetDistance := if hasRoute && routeDistance.Some? && routeDistance.value != 0.0 then routeDistance else None;
      goals := Goals(InitialTargetPace(targetPaceText), targetDistance, hasRoute);
      announced := Announced(0, false, false);
      guidance := Guidance([], 0, []);
      speech := Speech([], false, []);
    }

    // -------------------------------------------------------------------------
    // The effects

    /** The pace and calorie effect. */
    method UpdateMetrics()
      modifies this
      ensures Model() == Recompute(old(Model()))
    {
      if rec.tracking && !rec.paused && rec.distance > 0.0 && rec.duration > 0 {
        var km := rec.distance;
        var min := rec.duration as real / 60.0;
        var pace := min / km;
        var met := Met(pace);
        var kcal := Calories(met, metrics.weight, rec.duration);
        metrics := metrics.(averagePace := pace, calories := Tenths(kcal));
      }
    }

    /** startTracking, without the location watch (the fixes arrive as
        calls of OnLocation). */
    method StartTracking()
      modifies this
      ensures Model() == Workout.StartTracking(old(Model()))
    {
      countdown := countdown.(shown := false);
      rec := rec.(tracking := true, paused := false);
    }

    /** The two countdown effects, when the countdown changed since
        `before`: at 0, unless already started, tracking starts; above 0 the
        started flag is cleared. */
    method CountdownEffect(before: Session)
      modifies this
      ensures Model() == CountdownEffects(before, old(Model()))
    {
      if countdown.value != before.countdown.value {
        match countdown.value
        case Some(c) =>
          if c == 0 && !countdown.started {
            countdown := countdown.(started := true);
            StartTracking();
            countdown := countdown.(value := None);
          } else if c > 0 {
            countdown := countdown.(started := false);
          }
        case None =>
      }
    }

    /** The reset of the announcement refs when `tracking` changed, and the
        pace and calorie effect when one of its inputs did. */
    method SettleEffects(before: Session)
      modifies this
      ensures Model() == Settle(before, old(Model()))
    {
      if rec.tracking != before.rec.tracking {
        announced := Announced(0, false, false);
      }
      if Deps(rec) != Deps(before.rec) {
        UpdateMetrics();
      }
    }

    /** The effects React runs after the commit of callback `e` on state
        `before`; they complete one step of the reducer and keep the
        distance equal to the path's length. */
    method Commit(before: Session, ghost e: Event)
      requires WorkoutProperties.DistanceIsPath(dist, before)
      requires Model() == Handle(dist, before, e)
      modifies this
      ensures Valid() && Model() == Step(dist, before, e)
    {
      CountdownEffect(before);
      SettleEffects(before);
      WorkoutProperties.StepKeepsDistanceIsPath(dist, before, e);
    }

    // -------------------------------------------------------------------------
    // The callbacks

    /** The location watch's callback; the watch exists only between
        startTracking and stop or cancel. */
    method OnLocation(p: LatLng)
      requires Valid()
      modifies this
      ensures Valid() && Model() == Step(dist, old(Model()), Fix(p))
    {
      var before := Model();
      if rec.tracking {
        var updated := rec.path + [p];
        var d := CalculateDistance(dist, updated);
        rec := rec.(path := updated, distance := d);
      }
      Commit(before, Fix(p));
    }

    /** The duration interval, which runs while tracking and not paused. */
    method OnTimer()
      requires Valid()
      modifies this
      ensures Valid() && Model() == Step(dist, old(Model()), Tick)
    {
      var before := Model();
      if rec.tracking && !rec.paused {
        rec := rec.(duration := rec.duration + 1);
      }
      Commit(before, Tick);
    }

    /** The announcement effect; `motivation` is the generator's answer for
        a new kilometre. */
    method AnnounceMilestones(motivation: Option<string>)
      requires Valid()
      modifies this
      ensures Valid() && Model() == Step(dist, old(Model()), Milestones(motivation))
    {
      var before := Model();
      if rec.tracking && !rec.paused && rec.distance >= 1.0 {
        var currentKm := rec.distance.Floor;
        var replyDue := false;
        if metrics.averagePace > 0.0 && currentKm > announced.km {
          announced := announced.(km := currentKm);
          replyDue := true;
        }
        if InWindow(before, 1.0) && !announced.lastKilometre {
          speech := speech.(queue := speech.queue + [LastKilometre]);
          announced := announced.(lastKilometre := true);
        }
        if InWindow(before, 0.1) && !announced.last100Metres {
          speech := speech.(queue := speech.queue + [Last100Metres]);
          announced := announced.(last100Metres := true);
        }
        // the reply's `.then` runs after the synchronous pushes above
        if replyDue {
          speech := speech.(queue := speech.queue + CoachReply(motivation));
        }
      }
      Commit(before, Milestones(motivation));
    }

    /** The pace coaching effect; `motivation` is the generator's answer to
        the "too slow" or "too fast" prompt. */
    method CheckPace(motivation: Option<string>)
      requires Valid()
      modifies this
      ensures Valid() && Model() == Step(dist, old(Model()), PaceCheck(motivation))
    {
      var before := Model();
      if rec.tracking && !rec.paused && goals.targetPace.Some? && goals.targetPace.value != 0.0 &&
         metrics.averagePace != 0.0 {
        var paceDifference := metrics.averagePace - goals.targetPace.value;
        if paceDifference > 0.3 && announced.km < rec.distance.Floor {
          speech := speech.(queue := speech.queue + CoachReply(motivation));
          announced := announced.(km := rec.distance.Floor);
        }
        if paceDifference < -0.3 && announced.km < rec.distance.Floor {
          speech := speech.(queue := speech.queue + CoachReply(motivation));
          announced := announced.(km := rec.distance.Floor);
        }
      }
      Commit(before, PaceCheck(motivation));
    }

    /** The navigation effect: within 40 m of the next step's start its
        instruction, without tags, is queued and the index advances. */
    method CheckNavigation()
      requires Valid()
      modifies this
      ensures Valid() && Model() == Step(dist, old(Model()), NavCheck)
    {
      var before := Model();
      if rec.tracking && guidance.steps != [] && rec.path != [] && goals.hasRoute &&
         guidance.index < |guidance.steps| {
        var currentPos := rec.path[|rec.path| - 1];
        var nextStep := guidance.steps[guidance.index];
        var d := CalculateDistance(dist, [currentPos, nextStep.startLocation]);
        assert [currentPos, nextStep.startLocation][..1] == [currentPos];
        if d < 0.04 {
          var instruction := NavigationUtils.StripTags(nextStep.htmlInstructions);
          speech := speech.(queue := speech.queue + [Direction(instruction)]);
          guidance := guidance.(index := guidance.index + 1);
        }
      }
      Commit(before, NavCheck);
    }

    /** One run of the 500 ms playQueue interval. */
    method PlayQueue()
      requires Valid()
      modifies this
      ensures Valid() && Model() == Step(dist, old(Model()), PollQueue)
    {
      var before := Model();
      if !speech.speaking && |speech.queue| > 0 {
        speech := speech.(speaking := true);
        var nextText := speech.queue[0];
        speech := speech.(queue := speech.queue[1..], played := speech.played + [nextText]);
        if Words(nextText) == "" {
          speech := speech.(speaking := false);
        }
      }
      Commit(before, PollQueue);
    }

    /** The end of speakWithElevenLabs. */
    method SpeechFinished()
      requires Valid()
      modifies this
      ensures Valid() && Model() == Step(dist, old(Model()), SpeechDone)
    {
      var before := Model();
      speech := speech.(speaking := false);
      Commit(before, SpeechDone);
    }

    /** beginCountdown (the start button, once the battery check passes). */
    method BeginCountdown()
      requires Valid()
      modifies this
      ensures Valid() && Model() == Step(dist, old(Model()), Event.BeginCountdown)
    {
      var before := Model();
      countdown := countdown.(value := Some(10), shown := true);
      Commit(before, Event.BeginCountdown);
    }

    /** The one-second countdown timeout. */
    method CountdownTimeout()
      requires Valid()
      modifies this
      ensures Valid() && Model() == Step(dist, old(Model()), CountdownTick)
    {
      var before := Model();
      if countdown.value.Some? && countdown.value.value > 0 {
        countdown := countdown.(value := Some(countdown.value.value - 1));
      }
      Commit(before, CountdownTick);
    }

    /** The "+10 Sek." button of the countdown overlay. */
    method AddTenSeconds()
      requires Valid()
      modifies this
      ensures Valid() && Model() == Step(dist, old(Model()), AddTen)
    {
      var before := Model();
      countdown := countdown.(value := Some(countdown.value.GetOr(0) + 10));
      Commit(before, AddTen);
    }

    /** The "Überspringen" button of the countdown overlay. */
    method Skip()
      requires Valid()
      modifies this
      ensures Valid() && Model() == Step(dist, old(Model()), SkipCountdown)
    {
      var before := Model();
      countdown := countdown.(value := Some(0));
      Commit(before, SkipCountdown);
    }

    method PauseTracking()
      requires Valid()
      modifies this
      ensures Valid() && Model() == Step(dist, old(Model()), Pause)
    {
      var before := Model();
      rec := rec.(paused := true);
      Commit(before, Pause);
    }

    method ResumeTracking()
      requires Valid()
      modifies this
      ensures Valid() && Model() == Step(dist, old(Model()), Resume)
    {
      var before := Model();
      rec := rec.(paused := false);
      Commit(before, Resume);
    }

    /** stopTracking; `auth` is the answer of getUser, and the record
        inserted is returned. */
    method StopTracking(auth: StopAuth) returns (inserted: Option<WorkoutRecord>)
      requires Valid()
      modifies this
      ensures inserted == StopRecord(old(Model()), auth)
      ensures Valid() && Model() == Step(dist, old(Model()), Stop(auth))
    {
      var before := Model();
      rec := rec.(tracking := false, paused := false);
      inserted := None;
      if !auth.NoUser? {
        if auth.User? {
          inserted := Some(WorkoutRecord(auth.id, rec.distance, rec.duration, metrics.calories,
                                         metrics.averagePace, rec.path));
        }
        rec := rec.(duration := 0, distance := 0.0, path := []);
        metrics := metrics.(calories := 0.0, averagePace := 0.0);
      }
      Commit(before, Stop(auth));
    }

    method CancelWorkout()
      requires Valid()
      modifies this
      ensures Valid() && Model() == Step(dist, old(Model()), Cancel)
    {
      var before := Model();
      rec := rec.(tracking := false, paused := false, duration := 0, distance := 0.0, path := []);
      metrics := metrics.(calories := 0.0, averagePace := 0.0);
      goals := goals.(targetPace := None);
      announced := announced.(km := 0);
      Commit(before, Cancel);
    }

    /** The answer of the directions request, which is only made when a
        route was passed. */
    method OnDirections(steps: seq<NavStep>)
      requires Valid()
      modifies this
      ensures Valid() && Model() == Step(dist, old(Model()), DirectionsLoaded(steps))
    {
      var before := Model();
      if goals.hasRoute {
        var polyline := ExtractPolyline(steps);
        guidance := guidance.(steps := steps, polyline := polyline);
      }
      Commit(before, DirectionsLoaded(steps));
    }

    /** fetchUserWeight's answer: the profile's weight, or None when there
        is no user, no profile or no weight. */
    method OnWeight(weight: Option<real>)
      requires Valid()
      modifies this
      ensures Valid() && Model() == Step(dist, old(Model()), WeightLoaded(weight))
    {
      var before := Model();
      if weight.Some? && weight.value != 0.0 {
        metrics := metrics.(weight := weight.value);
      } else {
        metrics := metrics.(weight := 70.0);
      }
      Commit(before, WeightLoaded(weight));
    }
  }
}
