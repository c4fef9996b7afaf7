/** What the workout reducer promises over one event and over a run of
    events: the distance of the recorded path, the metrics, the countdown,
    the one-shot callouts, and the order of the speech queue. */
module WorkoutProperties {
  import opened Wrappers
  import opened Geo
  import opened Workout
  import NavigationUtils

  // ---------------------------------------------------------------------------
  // Vocabulary

  /** Pace and calories agree with distance, duration and weight whenever
      the run is moving and both are positive. */
  predicate MetricsCurrent(s: Session) {
    Moving(s) && s.rec.distance > 0.0 && s.rec.duration > 0 ==>
      s.metrics.averagePace == (s.rec.duration as real / 60.0) / s.rec.distance &&
      s.metrics.calories == Tenths(Calories(Met(s.metrics.averagePace), s.metrics.weight, s.rec.duration))
  }

  /** The shown distance is the length of the recorded path. */
  predicate DistanceIsPath(dist: Metric, s: Session) {
    s.rec.distance == PathLength(dist, s.rec.path)
  }

  /** Everything ever queued, in queue order: what was played, then what waits. */
  function Pending(s: Session): seq<Utterance> {
    s.speech.played + s.speech.queue
  }

  function MilestonePushes(s: Session, reply: Option<string>): seq<Utterance> {
    (if MilestonesActive(s) && InWindow(s, 1.0) && !s.announced.lastKilometre then [LastKilometre] else []) +
    (if MilestonesActive(s) && InWindow(s, 0.1) && !s.announced.last100Metres then [Last100Metres] else []) +
    (if NewKilometre(s) then CoachReply(reply) else [])
  }

  function PacePushes(s: Session, reply: Option<string>): seq<Utterance> {
    if OffPace(s) then CoachReply(reply) else []
  }

  function NavPushes(dist: Metric, s: Session): seq<Utterance> {
    if NearNextStep(dist, s) then [StepInstruction(s)] else []
  }

  /** What one event adds to the queue. */
  function Pushed(dist: Metric, s: Session, e: Event): seq<Utterance> {
    match e
    case Milestones(r) => MilestonePushes(s, r)
    case PaceCheck(r) => PacePushes(s, r)
    case NavCheck => NavPushes(dist, s)
    case _ => []
  }

  function Count(f: Utterance -> bool, us: seq<Utterance>): nat {
    if us == [] then 0 else Count(f, us[..|us| - 1]) + (if f(us[|us| - 1]) then 1 else 0)
  }

  predicate IsLastKilometre(u: Utterance) { u == LastKilometre }
  predicate IsLast100Metres(u: Utterance) { u == Last100Metres }
  predicate IsCoach(u: Utterance) { u.Coach? }

  lemma {:induction false} CountAppend(f: Utterance -> bool, a: seq<Utterance>, b: seq<Utterance>)
    ensures Count(f, a + b) == Count(f, a) + Count(f, b)
    decreases |b|
  {
    if b == [] {
      assert a + b == a;
    } else {
      assert (a + b)[..|a + b| - 1] == a + b[..|b| - 1];
      CountAppend(f, a, b[..|b| - 1]);
    }
  }

  lemma CountOne(f: Utterance -> bool, u: Utterance)
    ensures Count(f, [u]) == if f(u) then 1 else 0
  {
    assert [u][..0] == [];
  }

  lemma CountReply(f: Utterance -> bool, reply: Option<string>)
    ensures Count(f, CoachReply(reply)) <= 1
    ensures Count(f, CoachReply(reply)) > 0 ==> f(Coach(reply.value))
  {
    if CoachReply(reply) != [] {
      CountOne(f, Coach(reply.value));
    }
  }

  // ---------------------------------------------------------------------------
  // The effects, for any result of a callback

  /** The countdown effects switch tracking only on, and only by starting. */
  lemma CountdownEffectsStart(before: Session, h: Session)
    ensures var c := CountdownEffects(before, h);
            c.rec.tracking != h.rec.tracking ==>
              c.rec.tracking && c.countdown.value.None? && c.countdown.started &&
              h.countdown.value == Some(0) && before.countdown.value != Some(0)
  {
  }

  /** Settling either recomputes, leaving the metrics current, or changes
      nothing. */
  lemma SettleShape(before: Session, after: Session)
    ensures Deps(after.rec) == Deps(before.rec) ==> Settle(before, after) == after
    ensures Deps(after.rec) != Deps(before.rec) ==> MetricsCurrent(Settle(before, after))
  {
  }

  /** A callback that leaves the countdown and every dependency alone sets
      off nothing. */
  lemma Unaffected(s: Session, h: Session)
    requires h.countdown.value == s.countdown.value && Deps(h.rec) == Deps(s.rec)
    ensures Settle(s, CountdownEffects(s, h)) == h
  {
    SettleShape(s, h);
  }

  /** Step agrees with the callback on every field the effects do not own,
      and within one tracking state also on the announcement refs. */
  lemma StepFrame(dist: Metric, s: Session, e: Event)
    ensures var h := Handle(dist, s, e);
            var r := Step(dist, s, e);
            r.rec.path == h.rec.path && r.rec.distance == h.rec.distance && r.rec.duration == h.rec.duration &&
            r.speech == h.speech && r.guidance == h.guidance && r.goals == h.goals &&
            r.metrics.weight == h.metrics.weight
    ensures var r := Step(dist, s, e);
            r.rec.tracking == s.rec.tracking ==> r.announced == Handle(dist, s, e).announced
  {
    var h := Handle(dist, s, e);
    var c := CountdownEffects(s, h);
    if c.rec.tracking != s.rec.tracking {
      assert Deps(c.rec) != Deps(s.rec);
    }
  }

  // ---------------------------------------------------------------------------
  // The callbacks, one at a time

  predicate Quiet(e: Event) {
    e.Milestones? || e.PaceCheck? || e.NavCheck? || e.PollQueue? || e.SpeechDone? ||
    e.DirectionsLoaded? || e.WeightLoaded?
  }

  /** These callbacks leave the countdown and the recording alone ... */
  lemma QuietHandleFrame(dist: Metric, s: Session, e: Event)
    requires Quiet(e)
    ensures Handle(dist, s, e).countdown == s.countdown && Handle(dist, s, e).rec == s.rec
  {
    match e
    case Milestones(r) =>
    case PaceCheck(r) =>
    case NavCheck =>
    case PollQueue =>
    case SpeechDone =>
    case DirectionsLoaded(steps) =>
    case WeightLoaded(w) =>
  }

  /** ... so for them a step is the callback alone. */
  lemma QuietStep(dist: Metric, s: Session, e: Event)
    requires Quiet(e)
    ensures Step(dist, s, e) == Handle(dist, s, e)
  {
    QuietHandleFrame(dist, s, e);
    Unaffected(s, Handle(dist, s, e));
  }

  /** Each callback appends its pushes to the history and plays at most
      the front entry. */
  lemma HandlePending(dist: Metric, s: Session, e: Event)
    ensures Pending(Handle(dist, s, e)) == Pending(s) + Pushed(dist, s, e)
    ensures Handle(dist, s, e).speech.played == s.speech.played ||
            (s.speech.queue != [] && Handle(dist, s, e).speech.played == s.speech.played + [s.speech.queue[0]])
  {
    match e
    case Milestones(r) => MilestonesPending(s, r);
    case PaceCheck(r) =>
    case NavCheck =>
    case PollQueue =>
    case _ =>
  }

  lemma MilestonesPending(s: Session, reply: Option<string>)
    ensures Pending(OnMilestones(s, reply)) == Pending(s) + MilestonePushes(s, reply)
    ensures OnMilestones(s, reply).speech.played == s.speech.played
  {
    var a: seq<Utterance> :=
      if MilestonesActive(s) && InWindow(s, 1.0) && !s.announced.lastKilometre then [LastKilometre] else [];
    var b: seq<Utterance> :=
      if MilestonesActive(s) && InWindow(s, 0.1) && !s.announced.last100Metres then [Last100Metres] else [];
    var c := if NewKilometre(s) then CoachReply(reply) else [];
    assert s.speech.played + (s.speech.queue + a + b + c) == s.speech.played + s.speech.queue + (a + b + c);
  }

  /** A new kilometre that enters the final kilometre: the callout is queued
      first and the generator's reply after it. */
  lemma ReplyFollowsCallout(s: Session, r: string)
    requires NewKilometre(s) && InWindow(s, 1.0) && !InWindow(s, 0.1)
    requires !s.announced.lastKilometre && r != ""
    ensures OnMilestones(s, Some(r)).speech.queue == s.speech.queue + [LastKilometre, Coach(r)]
  {
    assert CoachReply(Some(r)) == [Coach(r)];
    assert s.speech.queue + [LastKilometre] + [] + [Coach(r)] == s.speech.queue + [LastKilometre, Coach(r)];
  }

  /** Only a weight changes the weight, and only stopping or cancelling
      changes the metrics, to go with a zero duration. */
  lemma HandleMetrics(dist: Metric, s: Session, e: Event)
    requires !e.WeightLoaded?
    ensures Handle(dist, s, e).metrics == s.metrics || Handle(dist, s, e).rec.duration == 0
    ensures Handle(dist, s, e).metrics.weight == s.metrics.weight
  {
    match e
    case Milestones(r) =>
    case PaceCheck(r) =>
    case NavCheck =>
    case _ =>
  }

  /** No callback switches tracking on, and only two countdown ones make it 0. */
  lemma HandleTracking(dist: Metric, s: Session, e: Event)
    ensures Handle(dist, s, e).rec.tracking ==> s.rec.tracking
    ensures Handle(dist, s, e).countdown.value == Some(0) && s.countdown.value != Some(0) ==>
              e.CountdownTick? || e.SkipCountdown?
  {
    match e
    case Milestones(r) =>
    case PaceCheck(r) =>
    case NavCheck =>
    case _ =>
  }

  lemma HandleKeepsDistanceIsPath(dist: Metric, s: Session, e: Event)
    requires DistanceIsPath(dist, s)
    ensures DistanceIsPath(dist, Handle(dist, s, e))
  {
    match e
    case Milestones(r) =>
    case PaceCheck(r) =>
    case NavCheck =>
    case _ =>
  }

  lemma ThreeCounts(f: Utterance -> bool, a: seq<Utterance>, b: seq<Utterance>, c: seq<Utterance>)
    ensures Count(f, a + b + c) == Count(f, a) + Count(f, b) + Count(f, c)
  {
    CountAppend(f, a + b, c);
    CountAppend(f, a, b);
  }

  /** The three possible milestone pushes, counted by kind. */
  function Pushes(reply: Option<string>, coach: bool, lastKm: bool, last100: bool): seq<Utterance> {
    (if lastKm then [LastKilometre] else []) +
    (if last100 then [Last100Metres] else []) +
    (if coach then CoachReply(reply) else [])
  }

  lemma PushesCounts(reply: Option<string>, coach: bool, lastKm: bool, last100: bool)
    ensures Count(IsLastKilometre, Pushes(reply, coach, lastKm, last100)) == if lastKm then 1 else 0
    ensures Count(IsLast100Metres, Pushes(reply, coach, lastKm, last100)) == if last100 then 1 else 0
    ensures Count(IsCoach, Pushes(reply, coach, lastKm, last100)) <= if coach then 1 else 0
  {
    var a: seq<Utterance> := if lastKm then [LastKilometre] else [];
    var b: seq<Utterance> := if last100 then [Last100Metres] else [];
    var c := if coach then CoachReply(reply) else [];
    ThreeCounts(IsLastKilometre, a, b, c);
    ThreeCounts(IsLast100Metres, a, b, c);
    ThreeCounts(IsCoach, a, b, c);
    CountReply(IsLastKilometre, reply);
    CountReply(IsLast100Metres, reply);
    CountReply(IsCoach, reply);
    CountOne(IsLastKilometre, LastKilometre);
    CountOne(IsLast100Metres, LastKilometre);
    CountOne(IsCoach, LastKilometre);
    CountOne(IsLastKilometre, Last100Metres);
    CountOne(IsLast100Metres, Last100Metres);
    CountOne(IsCoach, Last100Metres);
  }

  lemma MilestoneCounts(s: Session, reply: Option<string>)
    ensures Count(IsLastKilometre, MilestonePushes(s, reply)) <= (if s.announced.lastKilometre then 0 else 1)
    ensures Count(IsLastKilometre, MilestonePushes(s, reply)) > 0 ==>
              MilestonesActive(s) && InWindow(s, 1.0) && !s.announced.lastKilometre
    ensures Count(IsLast100Metres, MilestonePushes(s, reply)) <= (if s.announced.last100Metres then 0 else 1)
    ensures Count(IsLast100Metres, MilestonePushes(s, reply)) > 0 ==>
              MilestonesActive(s) && InWindow(s, 0.1) && !s.announced.last100Metres
    ensures Count(IsCoach, MilestonePushes(s, reply)) <= (if NewKilometre(s) then 1 else 0)
  {
    var lastKm := MilestonesActive(s) && InWindow(s, 1.0) && !s.announced.lastKilometre;
    var last100 := MilestonesActive(s) && InWindow(s, 0.1) && !s.announced.last100Metres;
    assert MilestonePushes(s, reply) == Pushes(reply, NewKilometre(s), lastKm, last100);
    PushesCounts(reply, NewKilometre(s), lastKm, last100);
  }

  lemma PaceCounts(s: Session, reply: Option<string>)
    ensures Count(IsLastKilometre, PacePushes(s, reply)) == 0
    ensures Count(IsLast100Metres, PacePushes(s, reply)) == 0
    ensures Count(IsCoach, PacePushes(s, reply)) <= (if OffPace(s) then 1 else 0)
  {
    CountReply(IsLastKilometre, reply);
    CountReply(IsLast100Metres, reply);
    CountReply(IsCoach, reply);
  }

  /** The announcement effect runs again on every re-render that changes
      one of its inputs; a second run right after the first changes
      nothing, whatever the generator answers. */
  lemma MilestonesIdempotent(s: Session, reply: Option<string>, again: Option<string>)
    ensures OnMilestones(OnMilestones(s, reply), again) == OnMilestones(s, reply)
  {
    var s1 := OnMilestones(s, reply);
    if MilestonesActive(s) {
      assert MilestonesActive(s1) && !NewKilometre(s1);
      assert s1.announced.lastKilometre == (s.announced.lastKilometre || InWindow(s1, 1.0));
      assert s1.announced.last100Metres == (s.announced.last100Metres || InWindow(s1, 0.1));
    }
  }

  /** Likewise for the pace coaching effect: once it has spoken, the
      kilometre counts as announced. */
  lemma PaceCheckIdempotent(s: Session, reply: Option<string>, again: Option<string>)
    ensures OnPaceCheck(OnPaceCheck(s, reply), again) == OnPaceCheck(s, reply)
  {
    var s1 := OnPaceCheck(s, reply);
    if OffPace(s) {
      assert !OffPace(s1);
    }
  }

  lemma NavCounts(dist: Metric, s: Session)
    ensures Count(IsLastKilometre, NavPushes(dist, s)) == 0
    ensures Count(IsLast100Metres, NavPushes(dist, s)) == 0
    ensures Count(IsCoach, NavPushes(dist, s)) == 0
  {
    if NearNextStep(dist, s) {
      var u := StepInstruction(s);
      CountOne(IsLastKilometre, u);
      CountOne(IsLast100Metres, u);
      CountOne(IsCoach, u);
    }
  }

  /** Away from a cancel, no callback clears a flag or lowers the km memory,
      a final callout is queued only when its flag was unset and then sets
      it, and every coach reply comes with a higher km memory. */
  lemma HandleAnnouncements(dist: Metric, s: Session, e: Event)
    requires !e.Cancel?
    ensures s.announced.lastKilometre ==> Handle(dist, s, e).announced.lastKilometre
    ensures s.announced.last100Metres ==> Handle(dist, s, e).announced.last100Metres
    ensures Count(IsLastKilometre, Pushed(dist, s, e)) <= (if s.announced.lastKilometre then 0 else 1)
    ensures Count(IsLastKilometre, Pushed(dist, s, e)) > 0 ==> Handle(dist, s, e).announced.lastKilometre
    ensures Count(IsLast100Metres, Pushed(dist, s, e)) <= (if s.announced.last100Metres then 0 else 1)
    ensures Count(IsLast100Metres, Pushed(dist, s, e)) > 0 ==> Handle(dist, s, e).announced.last100Metres
    ensures Count(IsCoach, Pushed(dist, s, e)) <= Handle(dist, s, e).announced.km - s.announced.km
  {
    match e
    case Milestones(r) => MilestoneCounts(s, r);
    case PaceCheck(r) => PaceCounts(s, r);
    case NavCheck => NavCounts(dist, s);
    case _ =>
  }

  // ---------------------------------------------------------------------------
  // Distance and time

  lemma StepKeepsDistanceIsPath(dist: Metric, s: Session, e: Event)
    requires DistanceIsPath(dist, s)
    ensures DistanceIsPath(dist, Step(dist, s, e))
  {
    StepFrame(dist, s, e);
    HandleKeepsDistanceIsPath(dist, s, e);
  }

  /** A fix while tracking, paused or not, appends exactly that point and
      adds exactly the leg from the previous last point. */
  lemma FixAddsOneLeg(dist: Metric, s: Session, p: LatLng)
    requires s.rec.tracking && DistanceIsPath(dist, s) && s.rec.path != []
    ensures Step(dist, s, Fix(p)).rec.path == s.rec.path + [p]
    ensures Step(dist, s, Fix(p)).rec.distance == s.rec.distance + dist(s.rec.path[|s.rec.path| - 1], p)
  {
    StepFrame(dist, s, Fix(p));
    PathLengthAppend(dist, s.rec.path, p);
  }

  /** Outside tracking a fix is dropped. */
  lemma FixIgnoredWhenIdle(dist: Metric, s: Session, p: LatLng)
    requires !s.rec.tracking
    ensures Step(dist, s, Fix(p)) == s
  {
    Unaffected(s, Handle(dist, s, Fix(p)));
  }

  /** The timer counts only while moving, and a tick touches nothing but
      the duration and the metrics derived from it. */
  lemma TickCountsWhileMoving(dist: Metric, s: Session)
    ensures Step(dist, s, Tick).rec.duration == if Moving(s) then s.rec.duration + 1 else s.rec.duration
    ensures Step(dist, s, Tick).(rec := s.rec, metrics := s.metrics) == s
  {
    var h := Handle(dist, s, Tick);
    SettleShape(s, CountdownEffects(s, h));
  }

  // ---------------------------------------------------------------------------
  // Metrics

  /** Every event except a late weight keeps the metrics current: each one
      that changes what they depend on sets off the recomputation. */
  lemma StepKeepsMetricsCurrent(dist: Metric, s: Session, e: Event)
    requires MetricsCurrent(s) && !e.WeightLoaded?
    ensures MetricsCurrent(Step(dist, s, e))
  {
    var h := Handle(dist, s, e);
    var c := CountdownEffects(s, h);
    SettleShape(s, c);
    HandleMetrics(dist, s, e);
  }

  /** The weight arriving after the start leaves the calories stale until
      the next change of distance or duration. */
  lemma LateWeightIsNotApplied(dist: Metric, s: Session, w: real)
    requires w != 0.0
    ensures Step(dist, s, WeightLoaded(Some(w))).metrics == s.metrics.(weight := w)
  {
    QuietStep(dist, s, WeightLoaded(Some(w)));
  }

  /** Pausing only sets the flag; resuming from a current state restores
      it exactly. */
  lemma PauseThenResume(dist: Metric, s: Session)
    requires !s.rec.paused && MetricsCurrent(s)
    ensures Step(dist, s, Pause) == s.(rec := s.rec.(paused := true))
    ensures Step(dist, Step(dist, s, Pause), Resume) == s
  {
    var p := Step(dist, s, Pause);
    SettleShape(s, Handle(dist, s, Pause));
    assert p == s.(rec := s.rec.(paused := true));
    var r := Handle(dist, p, Resume);
    assert r == s;
    SettleShape(p, r);
  }

  // ---------------------------------------------------------------------------
  // Countdown

  function Ticks(n: nat): (es: seq<Event>)
    ensures |es| == n && forall i :: 0 <= i < n ==> es[i] == CountdownTick
  {
    seq(n, i => CountdownTick)
  }

  /** The countdown callbacks change only the countdown, so their step is
      the countdown effects alone. */
  lemma CountdownStep(dist: Metric, s: Session, e: Event)
    requires e.BeginCountdown? || e.CountdownTick? || e.AddTen? || e.SkipCountdown?
    ensures Handle(dist, s, e) == s.(countdown := CountdownAfter(s.countdown, e))
    ensures var c := CountdownEffects(s, Handle(dist, s, e));
            Step(dist, s, e) == if c.rec.tracking == s.rec.tracking && c.rec.paused == s.rec.paused then c
                                else Recompute(Settle(s, c).(metrics := c.metrics))
  {
    var h := Handle(dist, s, e);
    var c := CountdownEffects(s, h);
    SettleShape(s, c);
  }

  /** The start button shows a countdown of 10. */
  lemma BeginShowsTen(dist: Metric, s: Session)
    ensures Step(dist, s, BeginCountdown).countdown.value == Some(10)
    ensures Step(dist, s, BeginCountdown).countdown.shown
    ensures Step(dist, s, BeginCountdown).rec == s.rec
  {
    CountdownStep(dist, s, BeginCountdown);
  }

  /** A tick above 1 counts down and does not start. */
  lemma TickCountsDown(dist: Metric, s: Session, c: nat)
    requires s.countdown.value == Some(c) && c > 1
    ensures Step(dist, s, CountdownTick).countdown.value == Some(c - 1)
    ensures !Step(dist, s, CountdownTick).countdown.started
    ensures Step(dist, s, CountdownTick).rec == s.rec
  {
    CountdownStep(dist, s, CountdownTick);
  }

  /** The tick from 1 starts tracking and clears the countdown. */
  lemma LastTickStarts(dist: Metric, s: Session)
    requires s.countdown.value == Some(1) && !s.countdown.started
    ensures Moving(Step(dist, s, CountdownTick))
    ensures Step(dist, s, CountdownTick).countdown.value == None
    ensures !Step(dist, s, CountdownTick).countdown.shown
  {
    CountdownStep(dist, s, CountdownTick);
  }

  /** c ticks from a countdown of c start the run. */
  lemma {:induction false} CountdownRunsOut(dist: Metric, s: Session, c: nat)
    requires s.countdown.value == Some(c) && c >= 1 && !s.countdown.started
    ensures Moving(Run(dist, s, Ticks(c)))
    ensures Run(dist, s, Ticks(c)).countdown.value == None
    decreases c
  {
    var es := Ticks(c);
    assert es[1..] == Ticks(c - 1);
    var s1 := Step(dist, s, CountdownTick);
    if c == 1 {
      LastTickStarts(dist, s);
      assert Run(dist, s1, es[1..]) == s1;
    } else {
      TickCountsDown(dist, s, c);
      CountdownRunsOut(dist, s1, c - 1);
    }
  }

  /** Start, then ten ticks: the run is on. */
  lemma StartButtonThenTenTicks(dist: Metric, s: Session)
    requires s.countdown.value.None?
    ensures Moving(Run(dist, s, [BeginCountdown] + Ticks(10)))
  {
    var s1 := Step(dist, s, BeginCountdown);
    CountdownStep(dist, s, BeginCountdown);
    assert s1.countdown.value == Some(10) && !s1.countdown.started;
    assert ([BeginCountdown] + Ticks(10))[1..] == Ticks(10);
    CountdownRunsOut(dist, s1, 10);
  }

  /** "Überspringen" starts at once. */
  lemma SkipStarts(dist: Metric, s: Session)
    requires s.countdown.value != Some(0) && !s.countdown.started
    ensures Moving(Step(dist, s, SkipCountdown))
    ensures Step(dist, s, SkipCountdown).countdown.value == None
  {
    CountdownStep(dist, s, SkipCountdown);
  }

  /** "+10 Sekunden" never starts the run. */
  lemma AddTenDelays(dist: Metric, s: Session)
    ensures Step(dist, s, AddTen).countdown.value == Some(s.countdown.value.GetOr(0) + 10)
    ensures Step(dist, s, AddTen).rec == s.rec
  {
    CountdownStep(dist, s, AddTen);
  }

  /** Tracking is switched on only by the countdown reaching 0. */
  lemma TrackingStartsOnlyAtZero(dist: Metric, s: Session, e: Event)
    requires !s.rec.tracking && Step(dist, s, e).rec.tracking
    ensures e.CountdownTick? || e.SkipCountdown?
    ensures Step(dist, s, e).countdown.value.None? && Step(dist, s, e).countdown.started
  {
    var h := Handle(dist, s, e);
    CountdownEffectsStart(s, h);
    HandleTracking(dist, s, e);
  }

  // ---------------------------------------------------------------------------
  // The speech queue

  /** No entry is lost, reordered or duplicated: each event appends its
      pushes to everything queued so far, and plays at most the front one. */
  lemma StepPending(dist: Metric, s: Session, e: Event)
    ensures Pending(Step(dist, s, e)) == Pending(s) + Pushed(dist, s, e)
    ensures Step(dist, s, e).speech.played == s.speech.played ||
            (s.speech.queue != [] && Step(dist, s, e).speech.played == s.speech.played + [s.speech.queue[0]])
  {
    StepFrame(dist, s, e);
    HandlePending(dist, s, e);
  }

  /** While speaking nothing more is taken. */
  lemma SpeakingBlocksQueue(dist: Metric, s: Session)
    requires s.speech.speaking
    ensures Step(dist, s, PollQueue) == s
  {
    QuietStep(dist, s, PollQueue);
  }

  /** Over a run: the queue's history only grows, and what was played
      stays played, in the same order. */
  lemma {:induction false} RunPending(dist: Metric, s: Session, es: seq<Event>)
    ensures Pending(s) <= Pending(Run(dist, s, es))
    ensures s.speech.played <= Run(dist, s, es).speech.played
    ensures Run(dist, s, es).speech.played <= Pending(Run(dist, s, es))
    decreases |es|
  {
    if es != [] {
      var s1 := Step(dist, s, es[0]);
      StepPending(dist, s, es[0]);
      RunPending(dist, s1, es[1..]);
    }
  }

  // ---------------------------------------------------------------------------
  // Announcements within one tracking session

  /** An event that neither cancels nor switches tracking on or off. */
  predicate SteadyStep(dist: Metric, s: Session, e: Event) {
    !e.Cancel? && Step(dist, s, e).rec.tracking == s.rec.tracking
  }

  predicate Steady(dist: Metric, s: Session, es: seq<Event>)
    decreases |es|
  {
    es == [] || (SteadyStep(dist, s, es[0]) && Steady(dist, Step(dist, s, es[0]), es[1..]))
  }

  /** An unset flag is one callout still allowed. */
  function KmBudget(s: Session): nat {
    Count(IsLastKilometre, Pending(s)) + if s.announced.lastKilometre then 0 else 1
  }

  function HundredBudget(s: Session): nat {
    Count(IsLast100Metres, Pending(s)) + if s.announced.last100Metres then 0 else 1
  }

  /** Within a steady step neither flag is cleared and the km memory does
      not go back. */
  lemma SteadyStepKeeps(dist: Metric, s: Session, e: Event)
    requires SteadyStep(dist, s, e)
    ensures s.announced.lastKilometre ==> Step(dist, s, e).announced.lastKilometre
    ensures s.announced.last100Metres ==> Step(dist, s, e).announced.last100Metres
    ensures Step(dist, s, e).announced.km >= s.announced.km
  {
    StepFrame(dist, s, e);
    HandleAnnouncements(dist, s, e);
  }

  lemma SteadyStepBudgets(dist: Metric, s: Session, e: Event)
    requires SteadyStep(dist, s, e)
    ensures KmBudget(Step(dist, s, e)) <= KmBudget(s)
    ensures HundredBudget(Step(dist, s, e)) <= HundredBudget(s)
    ensures Count(IsCoach, Pending(Step(dist, s, e))) - Step(dist, s, e).announced.km <=
            Count(IsCoach, Pending(s)) - s.announced.km
  {
    StepPending(dist, s, e);
    StepFrame(dist, s, e);
    HandleAnnouncements(dist, s, e);
    CountAppend(IsLastKilometre, Pending(s), Pushed(dist, s, e));
    CountAppend(IsLast100Metres, Pending(s), Pushed(dist, s, e));
    CountAppend(IsCoach, Pending(s), Pushed(dist, s, e));
  }

  /** Within one tracking session "Letzter Kilometer" and "Nur noch 100
      Meter" are each queued at most once (never when already announced),
      and every coach reply is paid for by a newly announced kilometre. */
  lemma {:induction false} SteadyRunAnnouncesOnce(dist: Metric, s: Session, es: seq<Event>)
    requires Steady(dist, s, es)
    ensures Count(IsLastKilometre, Pending(Run(dist, s, es))) <=
            Count(IsLastKilometre, Pending(s)) + (if s.announced.lastKilometre then 0 else 1)
    ensures Count(IsLast100Metres, Pending(Run(dist, s, es))) <=
            Count(IsLast100Metres, Pending(s)) + (if s.announced.last100Metres then 0 else 1)
    ensures Count(IsCoach, Pending(Run(dist, s, es))) - Count(IsCoach, Pending(s)) <=
            Run(dist, s, es).announced.km - s.announced.km
    decreases |es|
  {
    if es != [] {
      var s1 := Step(dist, s, es[0]);
      SteadyStepBudgets(dist, s, es[0]);
      SteadyRunAnnouncesOnce(dist, s1, es[1..]);
    }
  }

  /** The km memory never goes back within one tracking session. */
  lemma {:induction false} SteadyRunKmGrows(dist: Metric, s: Session, es: seq<Event>)
    requires Steady(dist, s, es)
    ensures Run(dist, s, es).announced.km >= s.announced.km
    decreases |es|
  {
    if es != [] {
      SteadyStepKeeps(dist, s, es[0]);
      SteadyRunKmGrows(dist, Step(dist, s, es[0]), es[1..]);
    }
  }

  /** With a target of at most 1 km neither callout can fire: the
      announcement effect returns below 1 km. */
  lemma ShortTargetNoCallouts(dist: Metric, s: Session, e: Event)
    requires s.goals.targetDistance.Some? && s.goals.targetDistance.value <= 1.0
    ensures Count(IsLastKilometre, Pushed(dist, s, e)) == 0
    ensures Count(IsLast100Metres, Pushed(dist, s, e)) == 0
  {
    match e
    case Milestones(r) => MilestoneCounts(s, r);
    case PaceCheck(r) => PaceCounts(s, r);
    case NavCheck => NavCounts(dist, s);
    case _ =>
  }

  /** The final-kilometre callout is queued only inside its window. */
  lemma LastKilometreWindow(dist: Metric, s: Session, e: Event)
    ensures Count(IsLastKilometre, Pushed(dist, s, e)) > 0 ==>
              e.Milestones? && MilestonesActive(s) && InWindow(s, 1.0) && !s.announced.lastKilometre
  {
    match e
    case Milestones(r) => MilestoneCounts(s, r);
    case PaceCheck(r) => PaceCounts(s, r);
    case NavCheck => NavCounts(dist, s);
    case _ =>
  }

  // ---------------------------------------------------------------------------
  // Navigation

  /** The nav-step effect queues the instruction without tags and steps on,
      or changes nothing. */
  lemma NavCheckAdvances(dist: Metric, s: Session)
    ensures var s' := Step(dist, s, NavCheck);
            (s' == s && !NearNextStep(dist, s)) ||
            (NearNextStep(dist, s) && s'.guidance.index == s.guidance.index + 1 &&
             s'.speech.queue == s.speech.queue + [StepInstruction(s)] &&
             NavigationUtils.NoTag(StepInstruction(s).instruction))
  {
    QuietStep(dist, s, NavCheck);
    if NearNextStep(dist, s) {
      NavigationUtils.StripTagsLeavesNoTag(s.guidance.steps[s.guidance.index].htmlInstructions);
    }
  }

  // ---------------------------------------------------------------------------
  // Stop and cancel

  /** Without a user the figures survive a stop; with one they are cleared. */
  lemma StopOutcome(dist: Metric, s: Session, auth: StopAuth)
    ensures !Step(dist, s, Stop(auth)).rec.tracking
    ensures auth.NoUser? ==> Step(dist, s, Stop(auth)).rec == s.rec.(tracking := false, paused := false)
    ensures !auth.NoUser? ==> Step(dist, s, Stop(auth)).rec == Recording(false, false, [], 0.0, 0)
    ensures Step(dist, s, Stop(auth)).speech == s.speech
  {
    StepFrame(dist, s, Stop(auth));
  }

  /** Cancelling clears the figures, the target pace and the km memory,
      and leaves the speech queue as it is. */
  lemma CancelOutcome(dist: Metric, s: Session)
    ensures var s' := Step(dist, s, Cancel);
            s'.rec == Recording(false, false, [], 0.0, 0) && s'.goals.targetPace.None? &&
            s'.announced.km == 0 && s'.speech == s.speech
  {
    StepFrame(dist, s, Cancel);
  }
}
