/** The live workout of src/screens/ActivityScreen.tsx as a reducer: a
    session state and one transition per callback, with the screen's
    effects applied when the values they depend on change. Every callback
    (a location fix, a timer tick, a button, one run of an effect, one poll
    of the speech queue) is one atomic event. Distances are kilometres. */
module Workout {
  import opened Wrappers
  import opened Geo
  import opened Text
  import NavigationUtils

  // ---------------------------------------------------------------------------
  // Energy

  /** getDynamicMET: the metabolic equivalent for a pace in min/km. */
  function Met(pace: real): (met: int)
    ensures 6 <= met <= 12
    ensures pace <= 4.5 ==> met == 12
    ensures pace > 9.0 ==> met == 6
  {
    if pace > 9.0 then 6
    else if pace > 8.0 then 7
    else if pace > 7.0 then 8
    else if pace > 6.0 then 9
    else if pace > 5.0 then 10
    else if pace > 4.5 then 11
    else 12
  }

  /** A slower pace never burns more. */
  lemma MetNonIncreasing(p: real, q: real)
    requires p <= q
    ensures Met(q) <= Met(p)
  {
  }

  /** The bands are open at the fast end: exactly 5 min/km is still 11. */
  lemma MetBandEdges()
    ensures Met(5.0) == 11 && Met(6.0) == 10 && Met(9.0) == 7 && Met(4.5) == 12
  {
  }

  /** kcal = MET * weight * hours, with the duration in seconds. */
  function Calories(met: int, weight: real, durationSec: nat): (kcal: real)
    ensures met >= 0 && weight >= 0.0 ==> kcal >= 0.0
  {
    met as real * weight * (durationSec as real / 3600.0)
  }

  /** `parseFloat(x.toFixed(1))`: the nearest tenth, halves rounded up. */
  function Tenths(x: real): (r: real)
    ensures r - x <= 0.05 && x - r < 0.05
    ensures (r * 10.0).Floor as real == r * 10.0
    ensures x >= 0.0 ==> r >= 0.0
  {
    (x * 10.0 + 0.5).Floor as real / 10.0
  }

  /** A value already in tenths is kept, so rounding twice is rounding once. */
  lemma TenthsIdempotent(x: real)
    ensures Tenths(Tenths(x)) == Tenths(x)
  {
    var t := (x * 10.0 + 0.5).Floor;
    assert Tenths(x) * 10.0 == t as real;
    assert (Tenths(x) * 10.0 + 0.5).Floor == t;
  }

  // ---------------------------------------------------------------------------
  // Target pace "m:ss"

  /** `const [min, sec] = text.split(':').map(Number); min + sec / 60`; a
      NaN result (a missing or non-numeric part) is None, which the pace
      coaching treats as no target, as it does NaN. */
  function ParseTargetPace(text: string): (r: Option<real>)
    ensures r.Some? ==> ':' in text
  {
    if ':' !in text then
      SplitNoSep(text, ':');
      PaceOfPieces(Split(text, ':'))
    else PaceOfPieces(Split(text, ':'))
  }

  /** The value of the split pieces: the first two, as minutes and seconds. */
  function PaceOfPieces(pieces: seq<string>): (r: Option<real>)
    requires |pieces| >= 1
    ensures r.Some? <==> |pieces| >= 2 && JsNumber(pieces[0]).Some? && JsNumber(pieces[1]).Some?
    ensures r.Some? ==> r.value == JsNumber(pieces[0]).value + JsNumber(pieces[1]).value / 60.0
  {
    var min := JsNumber(pieces[0]);
    var sec := if |pieces| >= 2 then JsNumber(pieces[1]) else None;
    if min.None? || sec.None? then None else Some(min.value + sec.value / 60.0)
  }

  /** Splitting at the one colon gives the two sides. */
  lemma SplitAtColon(a: string, b: string)
    requires ':' !in a && ':' !in b
    ensures Split(a + ":" + b, ':') == [a, b]
  {
    assert a + ":" + b == a + [':'] + b;
    SplitTwo(a, b, ':');
  }

  /** Two sides of one colon are read as minutes and seconds. */
  lemma {:induction false} ParseAtColon(a: string, b: string)
    requires ':' !in a && ':' !in b
    ensures ParseTargetPace(a + ":" + b) == PaceOfPieces([a, b])
  {
    SplitAtColon(a, b);
  }

  /** Two numbers around a colon give minutes plus seconds over sixty. */
  lemma PaceOfNumbers(a: string, b: string, m: real, n: real)
    requires JsNumber(a) == Some(m) && JsNumber(b) == Some(n)
    ensures PaceOfPieces([a, b]) == Some(m + n / 60.0)
  {
    var r := PaceOfPieces([a, b]);
    assert r.Some? && r.value == m + n / 60.0;
  }

  /** Two numbers around a single colon are read as minutes and seconds. */
  lemma {:induction false} ParseNumbers(text: string, a: string, b: string, m: real, n: real)
    requires text == a + ":" + b && ':' !in a && ':' !in b
    requires JsNumber(a) == Some(m) && JsNumber(b) == Some(n)
    ensures ParseTargetPace(text) == Some(m + n / 60.0)
  {
    ParseAtColon(a, b);
    PaceOfNumbers(a, b, m, n);
  }

  /** Two digit strings around a colon read as minutes and seconds. */
  lemma {:induction false} ParseDigitsColonDigits(text: string, a: string, b: string, m: real, n: real)
    requires text == a + ":" + b && AllDigits(a) && AllDigits(b)
    requires m == DigitsValue(a) as real && n == DigitsValue(b) as real
    ensures ParseTargetPace(text) == Some(m + n / 60.0)
  {
    assert ':' !in a && ':' !in b by {
      DigitsExclude(a, ':');
      DigitsExclude(b, ':');
    }
    assert JsNumber(a) == Some(m) by { JsNumberOfDigitString(a); }
    assert JsNumber(b) == Some(n) by { JsNumberOfDigitString(b); }
    ParseNumbers(text, a, b, m, n);
  }

  /** "5:30" is five and a half minutes per kilometre. */
  lemma ParseFiveThirty()
    ensures ParseTargetPace("5:30") == Some(5.5)
  {
    assert "5:30" == "5" + ":" + "30";
    assert AllDigits("5") && AllDigits("30") && DigitsValue("5") == 5 && DigitsValue("30") == 30;
    ParseDigitsColonDigits("5:30", "5", "30", 5.0, 30.0);
  }

  /** `Number` ignores a blank after the seconds. */
  lemma ParseTrailingBlank()
    ensures ParseTargetPace("5:30 ") == Some(5.5)
  {
    assert "5:30 " == "5" + ":" + "30 ";
    assert "30 " == [] + "30" + " ";
    assert AllDigits("5") && AllDigits("30") && AllSpaces(" ") && AllSpaces([]);
    assert DigitsValue("5") == 5 && DigitsValue("30") == 30;
    JsNumberPadded("5", [], "5", [], 5.0);
    JsNumberPadded("30 ", [], "30", " ", 30.0);
    ParseNumbers("5:30 ", "5", "30 ", 5.0, 30.0);
  }

  /** `Number` ignores a blank before the minutes. */
  lemma ParseLeadingBlank()
    ensures ParseTargetPace(" 5:30") == Some(5.5)
  {
    assert " 5:30" == " 5" + ":" + "30";
    assert " 5" == " " + "5" + [] && "30" == [] + "30" + [];
    assert AllDigits("5") && AllDigits("30") && AllSpaces(" ") && AllSpaces([]);
    assert DigitsValue("5") == 5 && DigitsValue("30") == 30;
    JsNumberPadded(" 5", " ", "5", [], 5.0);
    JsNumberPadded("30", [], "30", [], 30.0);
    ParseNumbers(" 5:30", " 5", "30", 5.0, 30.0);
  }

  /** `Number` reads an explicit plus sign. */
  lemma ParsePlusSign()
    ensures ParseTargetPace("5:+30") == Some(5.5)
  {
    assert "5:+30" == "5" + ":" + "+30";
    assert "5" == [] + "5" + [] && "+30" == ['+'] + "30";
    assert AllDigits("5") && AllDigits("30") && AllSpaces([]);
    assert DigitsValue("5") == 5 && DigitsValue("30") == 30;
    JsNumberPadded("5", [], "5", [], 5.0);
    JsNumberSignedText("+30", '+', "30", 30.0);
    ParseNumbers("5:+30", "5", "+30", 5.0, 30.0);
  }

  /** `Number` reads a minus sign, and the seconds are still added: "-5:30" is -4.5. */
  lemma ParseMinusSign()
    ensures ParseTargetPace("-5:30") == Some(-4.5)
  {
    assert "-5:30" == "-5" + ":" + "30";
    assert "-5" == ['-'] + "5" && "30" == [] + "30" + [];
    assert AllDigits("5") && AllDigits("30") && AllSpaces([]);
    assert DigitsValue("5") == 5 && DigitsValue("30") == 30;
    JsNumberSignedText("-5", '-', "5", -5.0);
    JsNumberPadded("30", [], "30", [], 30.0);
    ParseNumbers("-5:30", "-5", "30", -5.0, 30.0);
  }

  /** `Number` reads decimal minutes: `a.b:c` is a.b minutes and c seconds
      (so "5.5:0" is 5.5). */
  lemma {:induction false} ParseDecimalMinutes(text: string, a: string, b: string, c: string, m: real, n: real)
    requires text == a + "." + b + ":" + c && AllDigits(a) && AllDigits(b) && AllDigits(c) && a != [] && b != []
    requires m == DigitsValue(a) as real + FractionValue(b) && n == DigitsValue(c) as real
    ensures ParseTargetPace(text) == Some(m + n / 60.0)
  {
    JsNumberFractionText(a + "." + b, a, b, m);
    assert c == [] + c + [] && AllSpaces([]);
    JsNumberPadded(c, [], c, [], n);
    ParseNumbers(text, a + "." + b, c, m, n);
  }

  /** The mount effect: a target pace only from a non-empty text. */
  function InitialTargetPace(text: Option<string>): (r: Option<real>)
    ensures text.None? || text == Some("") ==> r == None
  {
    if text.None? || text.value == "" then None else ParseTargetPace(text.value)
  }

  // ---------------------------------------------------------------------------
  // State

  /** An entry of the speech queue, kept with its origin; Words gives the
      string the screen pushes. */
  datatype Utterance = Coach(reply: string) | LastKilometre | Last100Metres | Direction(instruction: string)

  function Words(u: Utterance): string {
    match u
    case Coach(t) => t
    case LastKilometre => "Letzter Kilometer! Gib nochmal alles!"
    case Last100Metres => "Nur noch 100 Meter! Endspurt!"
    case Direction(t) => t
  }

  /** A step of the walking directions. */
  datatype NavStep = NavStep(startLocation: LatLng, endLocation: LatLng, htmlInstructions: string)

  /** The recording: `isTracking`, `isPaused`, the path, distance and duration. */
  datatype Recording = Recording(tracking: bool, paused: bool, path: seq<LatLng>, distance: real, duration: nat)

  /** `countdown`, `countdownStarted` and `showCountdown`. */
  datatype Countdown = Countdown(value: Option<nat>, started: bool, shown: bool)

  /** `averagePace`, `calories` and `userWeight`. */
  datatype Metrics = Metrics(averagePace: real, calories: real, weight: real)

  /** `targetPace`, `targetDistance`, and whether a route was passed in. */
  datatype Goals = Goals(targetPace: Option<real>, targetDistance: Option<real>, hasRoute: bool)

  /** The ref `lastAnnouncedKm` and the state flags `lastKmAnnounced` and
      `last100mAnnounced`. */
  datatype Announced = Announced(km: int, lastKilometre: bool, last100Metres: bool)

  /** `navigationSteps`, `currentStepIndex` and `polylineCoords`. */
  datatype Guidance = Guidance(steps: seq<NavStep>, index: nat, polyline: seq<LatLng>)

  /** The refs `speechQueue` and `isSpeaking`, and what playQueue has taken
      from the queue so far, in order. */
  datatype Speech = Speech(queue: seq<Utterance>, speaking: bool, played: seq<Utterance>)

  datatype Session = Session(
    rec: Recording,
    countdown: Countdown,
    metrics: Metrics,
    goals: Goals,
    announced: Announced,
    guidance: Guidance,
    speech: Speech)

  /** The state on mount, from the screen's parameters: the training's
      target pace text, and the route (whether one was passed, and its
      distance). The weight defaults to 70 kg. */
  function NewSession(targetPaceText: Option<string>, hasRoute: bool, routeDistance: Option<real>): (s: Session)
    ensures s.rec == Recording(false, false, [], 0.0, 0) && s.countdown.value.None?
    ensures s.goals.targetDistance.Some? <==> hasRoute && routeDistance.Some? && routeDistance.value != 0.0
    ensures s.goals.targetPace == InitialTargetPace(targetPaceText)
    ensures s.speech == Speech([], false, []) && s.metrics.weight == 70.0
  {
    Session(Recording(false, false, [], 0.0, 0),
            Countdown(None, false, false),
            Metrics(0.0, 0.0, 70.0),
            Goals(InitialTargetPace(targetPaceText),
                  if hasRoute && routeDistance.Some? && routeDistance.value != 0.0 then routeDistance else None,
                  hasRoute),
            Announced(0, false, false),
            Guidance([], 0, []),
            Speech([], false, []))
  }

  predicate Moving(s: Session) {
    s.rec.tracking && !s.rec.paused
  }

  /** What the recomputation effect depends on. */
  function Deps(r: Recording): (real, nat, bool, bool) {
    (r.distance, r.duration, r.tracking, r.paused)
  }

  // ---------------------------------------------------------------------------
  // Effects that follow a change of state

  /** The pace and calorie effect. */
  function Recompute(s: Session): (s': Session)
    ensures Moving(s) && s.rec.distance > 0.0 && s.rec.duration > 0 ==>
              s'.metrics.averagePace == (s.rec.duration as real / 60.0) / s.rec.distance &&
              s'.metrics.calories == Tenths(Calories(Met(s'.metrics.averagePace), s.metrics.weight, s.rec.duration))
    ensures !(Moving(s) && s.rec.distance > 0.0 && s.rec.duration > 0) ==> s' == s
    ensures s' == s.(metrics := s'.metrics) && s'.metrics.weight == s.metrics.weight
  {
    if Moving(s) && s.rec.distance > 0.0 && s.rec.duration > 0 then
      var pace := (s.rec.duration as real / 60.0) / s.rec.distance;
      s.(metrics := s.metrics.(averagePace := pace, calories := Tenths(Calories(Met(pace), s.metrics.weight, s.rec.duration))))
    else s
  }

  /** The effects after a transition from `before` to `after`: the reset
      of the announcement refs when `tracking` changed, and the
      recomputation when distance, duration, `tracking` or `paused` changed. */
  function Settle(before: Session, after: Session): (s': Session)
    ensures after.rec.tracking != before.rec.tracking ==> s'.announced == Announced(0, false, false)
    ensures after.rec.tracking == before.rec.tracking ==> s'.announced == after.announced
    ensures s' == after.(metrics := s'.metrics, announced := s'.announced)
  {
    var a := if after.rec.tracking != before.rec.tracking then after.(announced := Announced(0, false, false)) else after;
    if Deps(a.rec) != Deps(before.rec) then Recompute(a) else a
  }

  function StartTracking(s: Session): (s': Session)
    ensures Moving(s') && !s'.countdown.shown
  {
    s.(countdown := s.countdown.(shown := false), rec := s.rec.(tracking := true, paused := false))
  }

  /** The two countdown effects on a changed countdown: at 0, unless already
      started, tracking starts and the countdown is cleared; above 0 the
      started flag is cleared (and the next tick is scheduled). */
  function CountdownEffects(before: Session, after: Session): (s': Session)
    ensures after.countdown.value == before.countdown.value ==> s' == after
    ensures after.countdown.value != before.countdown.value && after.countdown.value == Some(0) && !after.countdown.started ==>
              s' == StartTracking(after.(countdown := after.countdown.(started := true, value := None)))
    ensures after.countdown.value != before.countdown.value && after.countdown.value.Some? && after.countdown.value.value > 0 ==>
              s' == after.(countdown := after.countdown.(started := false))
    ensures s' == after.(countdown := s'.countdown, rec := s'.rec)
    ensures s'.rec == after.rec.(tracking := s'.rec.tracking, paused := s'.rec.paused)
  {
    if after.countdown.value == before.countdown.value then after
    else match after.countdown.value
      case Some(c) =>
        if c == 0 && !after.countdown.started then StartTracking(after.(countdown := after.countdown.(started := true, value := None)))
        else if c > 0 then after.(countdown := after.countdown.(started := false))
        else after
      case None => after
  }

  // ---------------------------------------------------------------------------
  // The callbacks

  /** The location callback: one more point; the distance is the whole path's. */
  function OnFix(dist: Metric, s: Session, p: LatLng): (s': Session)
    ensures !s.rec.tracking ==> s' == s
    ensures s.rec.tracking ==> s' == s.(rec := s.rec.(path := s.rec.path + [p], distance := PathLength(dist, s.rec.path + [p])))
  {
    if !s.rec.tracking then s
    else
      var updated := s.rec.path + [p];
      s.(rec := s.rec.(path := updated, distance := PathLength(dist, updated)))
  }

  /** The one-second interval, which exists only while moving. */
  function OnTick(s: Session): (s': Session)
    ensures s'.rec.duration == if Moving(s) then s.rec.duration + 1 else s.rec.duration
    ensures s' == s.(rec := s.rec.(duration := s'.rec.duration))
  {
    if Moving(s) then s.(rec := s.rec.(duration := s.rec.duration + 1)) else s
  }

  /** A reply of the text generator is pushed only when it is non-empty. */
  function CoachReply(reply: Option<string>): (us: seq<Utterance>)
    ensures |us| <= 1
    ensures us != [] <==> reply.Some? && reply.value != ""
    ensures us != [] ==> us == [Coach(reply.value)]
  {
    if reply.Some? && reply.value != "" then [Coach(reply.value)] else []
  }

  /** `targetDistance &&`, and the distance inside [target - margin, target). */
  predicate InWindow(s: Session, margin: real) {
    s.goals.targetDistance.Some? && s.goals.targetDistance.value != 0.0 &&
    s.rec.distance >= s.goals.targetDistance.value - margin && s.rec.distance < s.goals.targetDistance.value
  }

  /** Whether the announcement effect gets past its early return. */
  predicate MilestonesActive(s: Session) {
    Moving(s) && s.rec.distance >= 1.0
  }

  /** Whether it announces a new kilometre. */
  predicate NewKilometre(s: Session) {
    MilestonesActive(s) && s.metrics.averagePace > 0.0 && s.rec.distance.Floor > s.announced.km
  }

  /** The announcement effect (distance milestones and the two final
      callouts). `reply` is what the generator answers for a new kilometre;
      it is pushed in a `.then`, so after the callouts the same run pushes
      synchronously. */
  function OnMilestones(s: Session, reply: Option<string>): (s': Session)
    ensures !MilestonesActive(s) ==> s' == s
    ensures s'.announced.km == if NewKilometre(s) then s.rec.distance.Floor else s.announced.km
    ensures s'.announced.lastKilometre == (s.announced.lastKilometre || (MilestonesActive(s) && InWindow(s, 1.0)))
    ensures s'.announced.last100Metres == (s.announced.last100Metres || (MilestonesActive(s) && InWindow(s, 0.1)))
    ensures s'.speech.queue ==
              s.speech.queue +
              (if MilestonesActive(s) && InWindow(s, 1.0) && !s.announced.lastKilometre then [LastKilometre] else []) +
              (if MilestonesActive(s) && InWindow(s, 0.1) && !s.announced.last100Metres then [Last100Metres] else []) +
              (if NewKilometre(s) then CoachReply(reply) else [])
    ensures s' == s.(announced := s'.announced, speech := s.speech.(queue := s'.speech.queue))
  {
    if !MilestonesActive(s) then s
    else
      var s1 := if InWindow(s, 1.0) && !s.announced.lastKilometre
                then s.(announced := s.announced.(lastKilometre := true),
                        speech := s.speech.(queue := s.speech.queue + [LastKilometre]))
                else s;
      var s2 := if InWindow(s, 0.1) && !s.announced.last100Metres
                then s1.(announced := s1.announced.(last100Metres := true),
                         speech := s1.speech.(queue := s1.speech.queue + [Last100Metres]))
                else s1;
      var km := s.rec.distance.Floor;
      if s.metrics.averagePace > 0.0 && km > s.announced.km
      then s2.(announced := s2.announced.(km := km), speech := s2.speech.(queue := s2.speech.queue + CoachReply(reply)))
      else s2
  }

  /** Whether the pace coaching effect speaks: off target by more than
      0.3 min/km either way, with a kilometre not yet announced. */
  predicate OffPace(s: Session) {
    Moving(s) && s.goals.targetPace.Some? && s.goals.targetPace.value != 0.0 && s.metrics.averagePace != 0.0 &&
    s.announced.km < s.rec.distance.Floor &&
    (s.metrics.averagePace - s.goals.targetPace.value > 0.3 || s.metrics.averagePace - s.goals.targetPace.value < -0.3)
  }

  /** The pace coaching effect; `reply` is the generator's answer to the
      "too slow" or "too fast" prompt. */
  function OnPaceCheck(s: Session, reply: Option<string>): (s': Session)
    ensures !OffPace(s) ==> s' == s
    ensures OffPace(s) ==> s' == s.(announced := s.announced.(km := s.rec.distance.Floor),
                                   speech := s.speech.(queue := s.speech.queue + CoachReply(reply)))
  {
    if !Moving(s) || s.goals.targetPace.None? || s.goals.targetPace.value == 0.0 || s.metrics.averagePace == 0.0 then s
    else
      var diff := s.metrics.averagePace - s.goals.targetPace.value;
      var km := s.rec.distance.Floor;
      var s1 := if diff > 0.3 && s.announced.km < km
                then s.(speech := s.speech.(queue := s.speech.queue + CoachReply(reply)), announced := s.announced.(km := km))
                else s;
      if diff < -0.3 && s1.announced.km < km
      then s1.(speech := s1.speech.(queue := s1.speech.queue + CoachReply(reply)), announced := s1.announced.(km := km))
      else s1
  }

  /** Whether the nav-step effect fires: the last fix within 40 m of the
      start of the next step. */
  predicate NearNextStep(dist: Metric, s: Session) {
    s.rec.tracking && s.goals.hasRoute && s.rec.path != [] && s.guidance.index < |s.guidance.steps| &&
    dist(s.rec.path[|s.rec.path| - 1], s.guidance.steps[s.guidance.index].startLocation) < 0.04
  }

  /** The pushed instruction: the step's HTML without tags. */
  function StepInstruction(s: Session): Utterance
    requires s.guidance.index < |s.guidance.steps|
  {
    Direction(NavigationUtils.StripTags(s.guidance.steps[s.guidance.index].htmlInstructions))
  }

  /** The nav-step effect: near the next step its instruction is queued and
      the step index advances. */
  function OnNavCheck(dist: Metric, s: Session): (s': Session)
    ensures !NearNextStep(dist, s) ==> s' == s
    ensures NearNextStep(dist, s) ==>
              s' == s.(speech := s.speech.(queue := s.speech.queue + [StepInstruction(s)]),
                       guidance := s.guidance.(index := s.guidance.index + 1))
  {
    if !s.rec.tracking || s.guidance.steps == [] || s.rec.path == [] || !s.goals.hasRoute ||
       s.guidance.index >= |s.guidance.steps| then s
    else
      var step := s.guidance.steps[s.guidance.index];
      var d := dist(s.rec.path[|s.rec.path| - 1], step.startLocation);
      if d < 0.04 then
        s.(speech := s.speech.(queue := s.speech.queue + [Direction(NavigationUtils.StripTags(step.htmlInstructions))]),
           guidance := s.guidance.(index := s.guidance.index + 1))
      else s
  }

  /** One poll of playQueue: when idle, the front entry is taken and, if
      its text is non-empty, spoken until SpeechDone. */
  function OnPollQueue(sp: Speech): (sp': Speech)
    ensures sp.speaking || sp.queue == [] ==> sp' == sp
    ensures !sp.speaking && sp.queue != [] ==>
              sp'.played == sp.played + [sp.queue[0]] && sp'.queue == sp.queue[1..] &&
              sp'.speaking == (Words(sp.queue[0]) != "")
    ensures sp'.played + sp'.queue == sp.played + sp.queue
  {
    if sp.speaking || sp.queue == [] then sp
    else
      var u := sp.queue[0];
      assert sp.played + sp.queue == sp.played + [u] + sp.queue[1..];
      Speech(sp.queue[1..], Words(u) != "", sp.played + [u])
  }

  datatype StopAuth = NoUser | User(id: string) | AuthError

  /** stopTracking: without a signed-in user it returns before the insert
      and keeps the figures; otherwise (also when the insert fails) they are
      cleared. */
  function OnStop(s: Session, auth: StopAuth): (s': Session)
    ensures !s'.rec.tracking && !s'.rec.paused
    ensures auth.NoUser? ==> s' == s.(rec := s.rec.(tracking := false, paused := false))
    ensures !auth.NoUser? ==>
              s' == s.(rec := Recording(false, false, [], 0.0, 0),
                       metrics := s.metrics.(averagePace := 0.0, calories := 0.0))
  {
    if auth.NoUser? then s.(rec := s.rec.(tracking := false, paused := false))
    else s.(rec := Recording(false, false, [], 0.0, 0), metrics := s.metrics.(averagePace := 0.0, calories := 0.0))
  }

  /** What stopTracking inserts: only for a signed-in user. */
  datatype WorkoutRecord = WorkoutRecord(userId: string, distance: real, duration: nat,
                                         calories: real, pace: real, path: seq<LatLng>)

  function StopRecord(s: Session, auth: StopAuth): (r: Option<WorkoutRecord>)
    ensures r.Some? <==> auth.User?
    ensures r.Some? ==> r.value.userId == auth.id && r.value.distance == s.rec.distance &&
                        r.value.duration == s.rec.duration && r.value.calories == s.metrics.calories &&
                        r.value.pace == s.metrics.averagePace && r.value.path == s.rec.path
  {
    if auth.User?
    then Some(WorkoutRecord(auth.id, s.rec.distance, s.rec.duration, s.metrics.calories, s.metrics.averagePace, s.rec.path))
    else None
  }

  /** cancelWorkout: everything cleared, the target pace and km memory too. */
  function OnCancel(s: Session): (s': Session)
    ensures s'.rec == Recording(false, false, [], 0.0, 0)
    ensures s'.metrics.calories == 0.0 && s'.metrics.averagePace == 0.0 && s'.metrics.weight == s.metrics.weight
    ensures s'.goals.targetPace.None? && s'.announced.km == 0
    ensures s'.speech == s.speech && s'.guidance == s.guidance && s'.countdown == s.countdown
  {
    s.(rec := Recording(false, false, [], 0.0, 0),
       metrics := s.metrics.(averagePace := 0.0, calories := 0.0),
       goals := s.goals.(targetPace := None),
       announced := s.announced.(km := 0))
  }

  /** The map polyline from the directions steps: every step's start and
      the last step's end. */
  function StepsPolyline(steps: seq<NavStep>): (line: seq<LatLng>)
    ensures steps == [] ==> line == []
    ensures steps != [] ==> |line| == |steps| + 1 && line[|steps|] == steps[|steps| - 1].endLocation
    ensures steps != [] ==> forall i :: 0 <= i < |steps| ==> line[i] == steps[i].startLocation
  {
    var starts := seq(|steps|, i requires 0 <= i < |steps| => steps[i].startLocation);
    if steps == [] then [] else starts + [steps[|steps| - 1].endLocation]
  }

  /** The directions response (only fetched when a route was passed). The
      step index is left where it was. */
  function OnDirections(s: Session, steps: seq<NavStep>): (s': Session)
    ensures !s.goals.hasRoute ==> s' == s
    ensures s.goals.hasRoute ==> s' == s.(guidance := s.guidance.(steps := steps, polyline := StepsPolyline(steps)))
  {
    if !s.goals.hasRoute then s else s.(guidance := s.guidance.(steps := steps, polyline := StepsPolyline(steps)))
  }

  /** The stored weight; a missing or zero weight falls back to 70 kg. */
  function WeightOrDefault(w: Option<real>): (kg: real)
    ensures w.Some? && w.value != 0.0 ==> kg == w.value
    ensures w.None? || w.value == 0.0 ==> kg == 70.0
  {
    if w.Some? && w.value != 0.0 then w.value else 70.0
  }

  datatype Event =
    | Fix(p: LatLng)
    | Tick
    | Milestones(milestoneReply: Option<string>)
    | PaceCheck(paceReply: Option<string>)
    | NavCheck
    | PollQueue
    | SpeechDone
    | BeginCountdown
    | CountdownTick
    | AddTen
    | SkipCountdown
    | Pause
    | Resume
    | Stop(auth: StopAuth)
    | Cancel
    | DirectionsLoaded(steps: seq<NavStep>)
    | WeightLoaded(w: Option<real>)

  /** The countdown callbacks on the countdown alone: the start button shows
      10, a tick takes one off a positive count, +10 adds ten to whatever is
      left (null counting as 0), skip sets 0. None of them touches the
      started flag, and every other callback leaves the countdown alone. */
  function CountdownAfter(c: Countdown, e: Event): (c': Countdown)
    ensures c'.started == c.started && c'.shown == (c.shown || e.BeginCountdown?)
    ensures e.BeginCountdown? ==> c'.value == Some(10)
    ensures e.CountdownTick? && c.value.Some? && c.value.value > 0 ==> c'.value == Some(c.value.value - 1)
    ensures e.CountdownTick? && (c.value.None? || c.value.value == 0) ==> c' == c
    ensures e.AddTen? ==> c'.value.Some? && c'.value.value >= 10 &&
                          (c.value.Some? ==> c'.value.value == c.value.value + 10)
    ensures e.SkipCountdown? ==> c'.value == Some(0)
    ensures !(e.BeginCountdown? || e.CountdownTick? || e.AddTen? || e.SkipCountdown?) ==> c' == c
  {
    match e
    case BeginCountdown => c.(value := Some(10), shown := true)
    case CountdownTick => if c.value.Some? && c.value.value > 0 then c.(value := Some(c.value.value - 1)) else c
    case AddTen => c.(value := Some(c.value.GetOr(0) + 10))
    case SkipCountdown => c.(value := Some(0))
    case _ => c
  }

  /** The callback itself, before the effects. The countdown moves only by
      the countdown callbacks, the step index never goes back, and only
      cancelling changes the goals (it drops the target pace). */
  function Handle(dist: Metric, s: Session, e: Event): (h: Session)
    ensures h.countdown == CountdownAfter(s.countdown, e)
    ensures h.guidance.index >= s.guidance.index
    ensures !e.Cancel? ==> h.goals == s.goals
    ensures e.Cancel? ==> h.goals == s.goals.(targetPace := None)
  {
    match e
    case Fix(p) => OnFix(dist, s, p)
    case Tick => OnTick(s)
    case Milestones(reply) => OnMilestones(s, reply)
    case PaceCheck(reply) => OnPaceCheck(s, reply)
    case NavCheck => OnNavCheck(dist, s)
    case PollQueue => s.(speech := OnPollQueue(s.speech))
    case SpeechDone => s.(speech := s.speech.(speaking := false))
    case BeginCountdown => s.(countdown := CountdownAfter(s.countdown, e))
    case CountdownTick => s.(countdown := CountdownAfter(s.countdown, e))
    case AddTen => s.(countdown := CountdownAfter(s.countdown, e))
    case SkipCountdown => s.(countdown := CountdownAfter(s.countdown, e))
    case Pause => s.(rec := s.rec.(paused := true))
    case Resume => s.(rec := s.rec.(paused := false))
    case Stop(auth) => OnStop(s, auth)
    case Cancel => OnCancel(s)
    case DirectionsLoaded(steps) => OnDirections(s, steps)
    case WeightLoaded(w) => s.(metrics := s.metrics.(weight := WeightOrDefault(w)))
  }

  /** One event and the effects it sets off. The effects own only the
      countdown, the tracking flags, the metrics and the announcement refs,
      so what the callback promises about the goals and the guidance holds
      for the whole step. */
  function Step(dist: Metric, s: Session, e: Event): (r: Session)
    ensures r.guidance.index >= s.guidance.index
    ensures !e.Cancel? ==> r.goals == s.goals
    ensures e.DirectionsLoaded? || r.guidance.steps == s.guidance.steps
  {
    Settle(s, CountdownEffects(s, Handle(dist, s, e)))
  }

  /** A sequence of events, one step after another: the step index never
      goes back, and without a cancel the goals stay those of the start. */
  function Run(dist: Metric, s: Session, es: seq<Event>): (r: Session)
    ensures r.guidance.index >= s.guidance.index
    ensures (forall i :: 0 <= i < |es| ==> !es[i].Cancel?) ==> r.goals == s.goals
    decreases |es|
  {
    if es == [] then s
    else
      assert forall i :: 0 <= i < |es[1..]| ==> es[1..][i] == es[i + 1];
      Run(dist, Step(dist, s, es[0]), es[1..])
  }
}
