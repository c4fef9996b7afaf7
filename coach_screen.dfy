/** The coach onboarding (src/screens/CoachScreen.tsx): a wizard of twelve
    questions, the branch taken when a profile or a plan already exists, the
    extraction of the JSON array from the generator's reply, and the
    defaults applied to each generated plan row. */
module CoachScreen {
  import opened Wrappers

  datatype Field =
    | Name | Experience | Goal | CustomGoal | TargetEventDate | TargetEventDistance
    | TargetEventTime | TimeBudget | HealthInfo | Height | Weight | Performance

  datatype InputKind = TextInput | Select

  /** One question of the wizard (its wording and options are not modelled). */
  datatype Step = Step(key: Field, required: bool, input: InputKind)

  /** The questions in the order they are asked. */
  const Steps: seq<Step> := [
    Step(Name, true, TextInput),
    Step(Experience, true, Select),
    Step(Goal, true, Select),
    Step(CustomGoal, false, TextInput),
    Step(TargetEventDistance, false, Select),
    Step(TargetEventDate, false, TextInput),
    Step(TargetEventTime, false, TextInput),
    Step(TimeBudget, true, TextInput),
    Step(HealthInfo, false, TextInput),
    Step(Height, false, TextInput),
    Step(Weight, false, TextInput),
    Step(Performance, false, TextInput)
  ]

  /** Exactly name, experience, goal and the weekly time budget must be answered. */
  lemma RequiredSteps()
    ensures |Steps| == 12
    ensures forall i :: 0 <= i < |Steps| ==>
              (Steps[i].required <==> Steps[i].key in {Name, Experience, Goal, TimeBudget})
    ensures !Steps[|Steps| - 1].required
  {
  }

  /** The answers. A key that is missing (as in a stored profile lacking a
      column) reads as empty, as `undefined` and `null` are falsy. */
  type FormData = map<Field, string>

  function Value(f: FormData, k: Field): string {
    if k in f then f[k] else ""
  }

  const AllFields: set<Field> := {Name, Experience, Goal, CustomGoal, TargetEventDate, TargetEventDistance,
                                  TargetEventTime, TimeBudget, HealthInfo, Height, Weight, Performance}

  /** `initialData`: every answer empty. */
  function InitialData(): (f: FormData)
    ensures forall k :: Value(f, k) == ""
  {
    map k | k in AllFields :: ""
  }

  datatype WizardState = WizardState(formData: FormData, stepIndex: nat, planGenerated: bool, userId: Option<string>)

  function Initial(): WizardState {
    WizardState(InitialData(), 0, false, None)
  }

  /** `steps[stepIndex]`; past the last question there is none, and the
      screen, which reads `currentStep.key`, cannot render. */
  function CurrentStep(i: nat): (st: Option<Step>)
    ensures st.Some? <==> i < |Steps|
    ensures st.Some? ==> st.value == Steps[i]
  {
    if i < |Steps| then Some(Steps[i]) else None
  }

  /** The state after handleChange: one answer replaced. */
  function AfterChange(w: WizardState, key: Field, value: string): (w': WizardState)
    ensures Value(w'.formData, key) == value
    ensures forall k :: k != key ==> Value(w'.formData, k) == Value(w.formData, k)
    ensures w'.stepIndex == w.stepIndex && w'.planGenerated == w.planGenerated && w'.userId == w.userId
  {
    w.(formData := w.formData[key := value])
  }

  /** Whether the current question keeps the wizard from moving on. */
  predicate Blocked(w: WizardState)
    requires w.stepIndex < |Steps|
  {
    Steps[w.stepIndex].required && Value(w.formData, Steps[w.stepIndex].key) == ""
  }

  /** The state after handleNext. */
  function AfterNext(w: WizardState): (w': WizardState)
    requires w.stepIndex < |Steps|
    ensures Blocked(w) ==> w' == w
    ensures !Blocked(w) ==> w' == w.(stepIndex := w.stepIndex + 1)
  {
    if Blocked(w) then w else w.(stepIndex := w.stepIndex + 1)
  }

  /** The state after handleSkip: always one step on. */
  function AfterSkip(w: WizardState): (w': WizardState)
    requires w.stepIndex < |Steps|
    ensures w'.stepIndex == w.stepIndex + 1
    ensures w'.formData == w.formData && w'.planGenerated == w.planGenerated && w'.userId == w.userId
  {
    w.(stepIndex := w.stepIndex + 1)
  }

  /** The buttons under a question. */
  datatype Buttons = Buttons(skip: bool, next: bool, generatePlan: bool)

  function ButtonsAt(i: nat): (b: Buttons)
    requires i < |Steps|
    ensures b.skip <==> !Steps[i].required
    ensures b.next <==> i < |Steps| - 1
    ensures b.generatePlan <==> !b.next
  {
    Buttons(!Steps[i].required, i < |Steps| - 1, !(i < |Steps| - 1))
  }

  /** "Weiter" never leads past the questions. */
  lemma NextStaysInside(w: WizardState)
    requires w.stepIndex < |Steps| && ButtonsAt(w.stepIndex).next
    ensures AfterNext(w).stepIndex < |Steps|
  {
  }

  /** A required question cannot be skipped, and an answer unblocks it. */
  lemma RequiredNeedsAnswer(w: WizardState, answer: string)
    requires w.stepIndex < |Steps| && Steps[w.stepIndex].required
    ensures !ButtonsAt(w.stepIndex).skip
    ensures Value(w.formData, Steps[w.stepIndex].key) == "" ==> AfterNext(w) == w
    ensures answer != "" ==>
              AfterNext(AfterChange(w, Steps[w.stepIndex].key, answer)).stepIndex == w.stepIndex + 1
  {
  }

  /** "Skip" is offered on the last question, and pressing it leaves the
      wizard without a current question; that is the only button that does. */
  lemma SkipPastLastStep(w: WizardState)
    requires w.stepIndex < |Steps|
    ensures w.stepIndex == |Steps| - 1 ==> ButtonsAt(w.stepIndex).skip
    ensures CurrentStep(AfterSkip(w).stepIndex).None? <==> w.stepIndex == |Steps| - 1
    ensures CurrentStep(AfterNext(w).stepIndex).None? ==> !ButtonsAt(w.stepIndex).next
  {
  }

  /** The state after checkExistingData, given the signed-in user, the stored profile and
      whether the plan has at least one row. */
  function AfterLoad(w: WizardState, uid: Option<string>, profile: Option<FormData>, hasPlanRow: bool): (w': WizardState)
    ensures uid.None? ==> w' == w
    ensures uid.Some? ==> w'.userId == uid
    ensures uid.Some? && profile.Some? && hasPlanRow ==>
              w'.planGenerated && w'.formData == w.formData && w'.stepIndex == w.stepIndex
    ensures uid.Some? && profile.Some? && !hasPlanRow ==>
              w'.formData == profile.value && w'.stepIndex == |Steps| - 1 && w'.planGenerated == w.planGenerated
    ensures uid.Some? && profile.None? ==> w' == w.(userId := uid)
  {
    if uid.None? then w
    else
      var w1 := w.(userId := uid);
      if profile.Some? && hasPlanRow then w1.(planGenerated := true)
      else if profile.Some? then w1.(formData := profile.value, stepIndex := |Steps| - 1)
      else w1
  }

  /** The screen shows the week view instead of the wizard. */
  predicate ShowsPlan(w: WizardState) {
    w.planGenerated && w.userId.Some?
  }

  /** A returning user with a plan sees the plan; one with a profile only
      lands on the last question, where the plan can be generated. */
  lemma LoadExistingOutcome(uid: string, profile: FormData, hasPlanRow: bool)
    ensures hasPlanRow ==> ShowsPlan(AfterLoad(Initial(), Some(uid), Some(profile), true))
    ensures ButtonsAt(AfterLoad(Initial(), Some(uid), Some(profile), false).stepIndex).generatePlan
    ensures !ShowsPlan(AfterLoad(Initial(), Some(uid), None, hasPlanRow))
  {
  }

  // ---------------------------------------------------------------------------
  // `raw.match(/\[[\s\S]*\]/)`

  function FirstIndex(s: string, c: char): (r: Option<nat>)
    ensures r.None? <==> c !in s
    ensures r.Some? ==> r.value < |s| && s[r.value] == c && c !in s[..r.value]
    decreases |s|
  {
    if s == [] then None
    else if s[0] == c then Some(0)
    else
      var r := FirstIndex(s[1..], c);
      if r.None? then None
      else
        assert s[..r.value + 1] == [s[0]] + s[1..][..r.value];
        Some(r.value + 1)
  }

  function LastIndex(s: string, c: char): (r: Option<nat>)
    ensures r.None? <==> c !in s
    ensures r.Some? ==> r.value < |s| && s[r.value] == c && c !in s[r.value + 1..]
    decreases |s|
  {
    if s == [] then None
    else if s[|s| - 1] == c then Some(|s| - 1)
    else
      var r := LastIndex(s[..|s| - 1], c);
      if r.None? then None
      else
        assert s[r.value + 1..] == s[..|s| - 1][r.value + 1..] + [s[|s| - 1]];
        Some(r.value)
  }

  /** A character absent from a slice is at none of its positions (a step
      of FirstIndexAtMost, LastIndexAtLeast and the wrapped-array lemmas). */
  lemma NotInSlice(s: string, c: char, lo: nat, hi: nat)
    requires lo <= hi <= |s| && c !in s[lo..hi]
    ensures forall m :: lo <= m < hi ==> s[m] != c
  {
    forall m | lo <= m < hi
      ensures s[m] != c
    {
      assert s[lo..hi][m - lo] == s[m];
    }
  }

  /** Any occurrence bounds the first one from above (a step of
      ArraySpanNone and FirstOfWrapped) ... */
  lemma FirstIndexAtMost(s: string, c: char, k: nat)
    ensures k < |s| && s[k] == c ==> FirstIndex(s, c).Some? && FirstIndex(s, c).value <= k
  {
    if k < |s| && s[k] == c {
      assert s[k] in s;
      var v := FirstIndex(s, c).value;
      assert s[0..v] == s[..v];
      NotInSlice(s, c, 0, v);
    }
  }

  /** ... and the last one from below (a step of ArraySpanNone and
      LastOfWrapped). */
  lemma LastIndexAtLeast(s: string, c: char, k: nat)
    ensures k < |s| && s[k] == c ==> LastIndex(s, c).Some? && LastIndex(s, c).value >= k
  {
    if k < |s| && s[k] == c {
      assert s[k] in s;
      var v := LastIndex(s, c).value;
      assert s[v + 1..|s|] == s[v + 1..];
      NotInSlice(s, c, v + 1, |s|);
    }
  }

  /** The matched span: the first '[' and the last ']', when the latter
      comes after the former (the greedy match starting leftmost). */
  function ArraySpan(raw: string): (r: Option<(nat, nat)>)
    ensures r.Some? ==>
              var (i, j) := r.value;
              i < j < |raw| && raw[i] == '[' && raw[j] == ']' &&
              '[' !in raw[..i] && ']' !in raw[j + 1..]
  {
    var i := FirstIndex(raw, '[');
    var j := LastIndex(raw, ']');
    if i.Some? && j.Some? && i.value < j.value then Some((i.value, j.value)) else None
  }

  /** There is no match exactly when no ']' follows a '['. */
  lemma ArraySpanNone(raw: string)
    ensures ArraySpan(raw).None? <==> forall i, j :: 0 <= i < j < |raw| && raw[i] == '[' ==> raw[j] != ']'
  {
    if ArraySpan(raw).None? {
      forall a: nat, b: nat | a < b < |raw| && raw[a] == '[' ensures raw[b] != ']' {
        FirstIndexAtMost(raw, '[', a);
        LastIndexAtLeast(raw, ']', b);
      }
    }
  }

  function ExtractJsonArray(raw: string): (r: Option<string>)
    ensures r.Some? ==> |r.value| >= 2 && r.value[0] == '[' && r.value[|r.value| - 1] == ']'
    ensures r.Some? <==> ArraySpan(raw).Some?
    ensures r.Some? ==> r.value == raw[ArraySpan(raw).value.0..ArraySpan(raw).value.1 + 1]
  {
    var span := ArraySpan(raw);
    if span.None? then None else Some(raw[span.value.0..span.value.1 + 1])
  }

  /** Text around an array that holds no '[' before it and no ']' after it
      is cut off exactly. */
  lemma ExtractWrapped(before: string, body: string, after: string)
    requires '[' !in before && ']' !in after
    ensures ExtractJsonArray(before + "[" + body + "]" + after) == Some("[" + body + "]")
  {
    var raw := before + "[" + body + "]" + after;
    var j := WrappedParts(raw, before, body, after);
    FirstOfWrapped(raw, before, |before|);
    LastOfWrapped(raw, after, j);
    SpanOf(raw, |before|, j);
    SliceOfWrapped(before, body, after);
  }

  /** The slice from the '[' to the ']' is the array (a step of ExtractWrapped). */
  lemma SliceOfWrapped(before: string, body: string, after: string)
    ensures (before + "[" + body + "]" + after)[|before|..|before| + 1 + |body| + 1] == "[" + body + "]"
  {
    var raw := before + "[" + body + "]" + after;
    assert raw == before + ("[" + body + "]") + after;
  }

  /** Where the pieces of a wrapped array sit; `j` is the index of its ']'. */
  lemma WrappedParts(raw: string, before: string, body: string, after: string) returns (j: nat)
    requires raw == before + "[" + body + "]" + after
    ensures j == |before| + 1 + |body| && |raw| == j + 1 + |after|
    ensures raw[..|before|] == before && raw[|before|] == '[' && raw[j] == ']' && raw[j + 1..] == after
  {
    j := |before| + 1 + |body|;
    assert raw == (before + "[" + body + "]") + after;
    assert raw[..|before|] == before;
    assert raw[j + 1..] == after;
  }

  /** The span is the first '[' and the last ']' (a step of ExtractWrapped). */
  lemma SpanOf(raw: string, i: nat, j: nat)
    requires FirstIndex(raw, '[') == Some(i) && LastIndex(raw, ']') == Some(j) && i < j
    ensures ArraySpan(raw) == Some((i, j))
  {
  }

  /** A '[' preceded by a text without one is the first (a step of
      ExtractWrapped). */
  lemma FirstOfWrapped(raw: string, before: string, i: nat)
    requires i < |raw| && raw[i] == '[' && raw[..i] == before && '[' !in before
    ensures FirstIndex(raw, '[') == Some(i)
  {
    FirstIndexAtMost(raw, '[', i);
    assert raw[0..i] == before;
    NotInSlice(raw, '[', 0, i);
  }

  /** A ']' followed by a text without one is the last. */
  lemma LastOfWrapped(raw: string, after: string, j: nat)
    requires j < |raw| && raw[j] == ']' && raw[j + 1..] == after && ']' !in after
    ensures LastIndex(raw, ']') == Some(j)
  {
    LastIndexAtLeast(raw, ']', j);
    assert raw[j + 1..|raw|] == after;
    NotInSlice(raw, ']', j + 1, |raw|);
  }

  // ---------------------------------------------------------------------------
  // Plan rows

  /** A row of the parsed reply. A string field is None when it is missing;
      distance and duration are the results of parseFloat and parseInt,
      None when the field is missing or does not parse. */
  datatype RawRow = RawRow(
    date: Option<string>, weekday: Option<string>, title: Option<string>,
    description: Option<string>, distanceKm: Option<real>, durationMinutes: Option<int>,
    rowType: Option<string>, targetPace: Option<string>, explanation: Option<string>)

  /** A row as it is inserted into the training plan. */
  datatype PlanRow = PlanRow(
    userId: string, date: Option<string>, weekday: Option<string>, title: string,
    description: string, distanceKm: Option<real>, durationMinutes: Option<int>,
    rowType: string, targetPace: Option<string>, explanation: Option<string>)

  /** Whether a string field is truthy: present and not empty. */
  predicate Truthy(o: Option<string>) {
    o.Some? && o.value != ""
  }

  /** `o || d`. */
  function OrElse(o: Option<string>, d: string): (r: string)
    ensures Truthy(o) ==> r == o.value
    ensures !Truthy(o) ==> r == d
  {
    if Truthy(o) then o.value else d
  }

  /** `o || null`. */
  function OrNull(o: Option<string>): (r: Option<string>)
    ensures r.Some? <==> Truthy(o)
    ensures r.Some? ==> r == o
  {
    if Truthy(o) then o else None
  }

  function NormaliseRow(uid: string, t: RawRow): (r: PlanRow)
    ensures r.userId == uid
    ensures r.title != "" && r.rowType != ""
    ensures !Truthy(t.title) ==> r.title == "Unbenannt"
    ensures !Truthy(t.rowType) ==> r.rowType == "unspecified"
    ensures Truthy(t.title) ==> r.title == t.title.value
    ensures Truthy(t.rowType) ==> r.rowType == t.rowType.value
    ensures Truthy(t.description) ==> r.description == t.description.value
    ensures !Truthy(t.description) ==> r.description == ""
    // A missing or empty date, weekday, pace or explanation becomes null;
    // a present one is kept as it is.
    ensures r.date.Some? <==> Truthy(t.date)
    ensures !Truthy(t.date) ==> r.date.None?
    ensures Truthy(t.date) ==> r.date == t.date
    ensures !Truthy(t.weekday) ==> r.weekday.None?
    ensures Truthy(t.weekday) ==> r.weekday == t.weekday
    ensures !Truthy(t.targetPace) ==> r.targetPace.None?
    ensures Truthy(t.targetPace) ==> r.targetPace == t.targetPace
    ensures !Truthy(t.explanation) ==> r.explanation.None?
    ensures Truthy(t.explanation) ==> r.explanation == t.explanation
    ensures r.distanceKm == t.distanceKm && r.durationMinutes == t.durationMinutes
  {
    PlanRow(uid, OrNull(t.date), OrNull(t.weekday), OrElse(t.title, "Unbenannt"),
            OrElse(t.description, ""), t.distanceKm, t.durationMinutes,
            OrElse(t.rowType, "unspecified"), OrNull(t.targetPace), OrNull(t.explanation))
  }

  /** `parsed.map(...)`: one inserted row per parsed row, in order. */
  function NormaliseRows(uid: string, rows: seq<RawRow>): (r: seq<PlanRow>)
    ensures |r| == |rows|
    ensures forall i :: 0 <= i < |rows| ==> r[i] == NormaliseRow(uid, rows[i])
  {
    seq(|rows|, i requires 0 <= i < |rows| => NormaliseRow(uid, rows[i]))
  }

  /** An inserted row read back as a parsed row. */
  function AsRaw(r: PlanRow): RawRow {
    RawRow(r.date, r.weekday, Some(r.title), Some(r.description), r.distanceKm, r.durationMinutes,
           Some(r.rowType), r.targetPace, r.explanation)
  }

  /** Normalising is idempotent: the defaults are fixed points. */
  lemma NormaliseRowIdempotent(uid: string, t: RawRow)
    ensures NormaliseRow(uid, AsRaw(NormaliseRow(uid, t))) == NormaliseRow(uid, t)
  {
  }

  /** A present, non-empty field is kept as it is. */
  lemma NormaliseRowKeepsAnswers(uid: string, t: RawRow)
    requires Truthy(t.title) && Truthy(t.rowType) && Truthy(t.explanation)
    ensures NormaliseRow(uid, t).title == t.title.value
    ensures NormaliseRow(uid, t).rowType == t.rowType.value
    ensures NormaliseRow(uid, t).explanation == t.explanation
  {
  }

  // ---------------------------------------------------------------------------
  // The component

  class CoachWizard {
    var formData: FormData
    var stepIndex: nat
    var planGenerated: bool
    var userId: Option<string>

    function Model(): WizardState
      reads this
    {
      WizardState(formData, stepIndex, planGenerated, userId)
    }

    constructor()
      ensures Model() == Initial()
    {
      formData := InitialData();
      stepIndex := 0;
      planGenerated := false;
      userId := None;
    }

    method LoadExisting(uid: Option<string>, profile: Option<FormData>, hasPlanRow: bool)
      modifies this
      ensures Model() == AfterLoad(old(Model()), uid, profile, hasPlanRow)
    {
      if uid.None? {
        return;
      }
      userId := uid;
      if profile.Some? && hasPlanRow {
        planGenerated := true;
      } else if profile.Some? {
        formData := profile.value;
        stepIndex := |Steps| - 1;
      }
    }

    method HandleChange(key: Field, value: string)
      modifies this
      ensures Model() == AfterChange(old(Model()), key, value)
    {
      formData := formData[key := value];
    }

    method HandleNext()
      requires stepIndex < |Steps|
      modifies this
      ensures Model() == AfterNext(old(Model()))
    {
      var currentStep := Steps[stepIndex];
      if currentStep.required && Value(formData, currentStep.key) == "" {
        return;
      }
      stepIndex := stepIndex + 1;
    }

    method HandleSkip()
      requires stepIndex < |Steps|
      modifies this
      ensures Model() == AfterSkip(old(Model()))
    {
      stepIndex := stepIndex + 1;
    }
  }
}
