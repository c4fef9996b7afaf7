/** The training-plan week view (src/components/WeeklyTrainingView.tsx): the
    duration and pace texts on a training card, the card colour per training
    type, and which trainings a day block lists. */
module WeeklyTrainingView {
  import opened Wrappers
  import opened Text

  // ---------------------------------------------------------------------------
  // formatTime

  /** JavaScript's `%`: the remainder takes the sign of the dividend. */
  function JsRem(a: int, b: int): (r: int)
    requires b > 0
    ensures a >= 0 ==> 0 <= r < b
    ensures a < 0 ==> -b < r <= 0
  {
    if a >= 0 then a % b else -((-a) % b)
  }

  /** `${Math.floor(minutes / 60)}h ${minutes % 60}min`; on integers a
      division by 60 followed by floor is Dafny's `/`. */
  function FormatTime(minutes: int): (t: string)
    ensures |t| >= 7 && t[|t| - 3..] == "min"
  {
    IntToString(minutes / 60) + "h " + IntToString(JsRem(minutes, 60)) + "min"
  }

  /** Reads "<h>h <m>min" back as a number of minutes. */
  function ReadFormattedTime(s: string): Option<int> {
    var parts := Split(s, 'h');
    if |parts| != 2 || |parts[1]| < 5 || parts[1][0] != ' ' || parts[1][|parts[1]| - 3..] != "min" then None
    else
      var hours := parts[0];
      var mins := parts[1][1..|parts[1]| - 3];
      if hours == [] || mins == [] || !AllDigits(hours) || !AllDigits(mins) then None
      else Some(60 * DigitsValue(hours) + DigitsValue(mins))
  }

  /** The part after the 'h': a blank, the minutes' digits and "min". */
  lemma MinutesPart(m: string)
    requires AllDigits(m) && m != []
    ensures var b := " " + m + "min";
            'h' !in b && |b| >= 5 && b[0] == ' ' && b[1..|b| - 3] == m && b[|b| - 3..] == "min"
  {
    var b := " " + m + "min";
    DigitsExclude(m, 'h');
    assert b[1..|b| - 3] == m;
  }

  /** For a non-negative duration the text names whole hours and fewer than
      60 minutes, which add up to the duration. */
  lemma FormatTimeReadsBack(minutes: int)
    requires minutes >= 0
    ensures ReadFormattedTime(FormatTime(minutes)) == Some(minutes)
    ensures 0 <= JsRem(minutes, 60) < 60 && 60 * (minutes / 60) + JsRem(minutes, 60) == minutes
  {
    var h := NatToString(minutes / 60);
    var m := NatToString(minutes % 60);
    var b := " " + m + "min";
    DigitsExclude(h, 'h');
    MinutesPart(m);
    assert FormatTime(minutes) == h + ['h'] + b;
    SplitTwo(h, b, 'h');
    DigitsValueOfNatToString(minutes / 60);
    DigitsValueOfNatToString(minutes % 60);
  }

  /** A negative duration that is not a whole number of hours is shown one
      hour short: floor rounds the hours down while `%` keeps the sign. */
  lemma FormatTimeNegative(minutes: int)
    requires minutes < 0 && minutes % 60 != 0
    ensures 60 * (minutes / 60) + JsRem(minutes, 60) == minutes - 60
  {
  }

  // ---------------------------------------------------------------------------
  // calculatePace

  /** `Math.round`: halves round up. */
  function Round(x: real): (n: int)
    ensures x - 0.5 < n as real <= x + 0.5
  {
    (x + 0.5).Floor
  }

  datatype PaceParts = PaceParts(minutes: int, seconds: int)

  /** The numbers calculatePace prints: no pace without a (non-zero)
      distance and duration; otherwise whole minutes and rounded seconds
      per kilometre. The seconds can reach 60: they are not carried. */
  function PaceOf(distanceKm: Option<real>, durationMinutes: Option<real>): (p: Option<PaceParts>)
    ensures p.None? <==> distanceKm.None? || durationMinutes.None? ||
                         distanceKm.value == 0.0 || durationMinutes.value == 0.0
    ensures p.Some? ==>
              var pace := durationMinutes.value / distanceKm.value;
              p.value.minutes as real <= pace < p.value.minutes as real + 1.0 &&
              0 <= p.value.seconds <= 60 &&
              -1.0 / 120.0 <= p.value.minutes as real + p.value.seconds as real / 60.0 - pace <= 1.0 / 120.0
  {
    if distanceKm.None? || durationMinutes.None? || distanceKm.value == 0.0 || durationMinutes.value == 0.0 then None
    else
      var pace := durationMinutes.value / distanceKm.value;
      var min := pace.Floor;
      var sec := Round((pace - min as real) * 60.0);
      Some(PaceParts(min, sec))
  }

  /** `${min}:${sec.toString().padStart(2, '0')} min/km`. */
  function RenderPace(p: PaceParts): string
    requires p.seconds >= 0
  {
    IntToString(p.minutes) + ":" + PadStart2(NatToString(p.seconds)) + " min/km"
  }

  function CalculatePace(distanceKm: Option<real>, durationMinutes: Option<real>): (r: Option<string>)
    ensures r.Some? <==> PaceOf(distanceKm, durationMinutes).Some?
    ensures r.Some? ==> |r.value| >= 7 && r.value[|r.value| - 7..] == " min/km"
  {
    var p := PaceOf(distanceKm, durationMinutes);
    if p.None? then None else Some(RenderPace(p.value))
  }

  /** Reads "<min>:<ss> min/km" back. */
  function ReadPace(s: string): Option<PaceParts> {
    var parts := Split(s, ':');
    if |parts| != 2 || |parts[1]| != 9 || parts[1][2..] != " min/km" || !AllDigits(parts[1][..2]) then None
    else
      var m := ReadInt(parts[0]);
      if m.None? then None else Some(PaceParts(m.value, DigitsValue(parts[1][..2])))
  }

  /** The seconds field: two digits that read back as the seconds. */
  lemma SecondsField(seconds: nat)
    requires seconds <= 60
    ensures var ss := PadStart2(NatToString(seconds));
            |ss| == 2 && AllDigits(ss) && DigitsValue(ss) == seconds
  {
    var digits := NatToString(seconds);
    var ss := PadStart2(digits);
    if seconds >= 10 {
      assert NatToString(seconds) == NatToString(seconds / 10) + [DigitChar(seconds % 10)];
    }
    DigitsValueOfNatToString(seconds);
    if |digits| == 1 {
      assert ss == "0" + digits;
      DigitsValueLeadingZero(digits);
    }
  }

  /** The part after the colon: the seconds field and " min/km". */
  lemma PaceTail(ss: string)
    requires |ss| == 2 && AllDigits(ss)
    ensures var b := ss + " min/km";
            ':' !in b && |b| == 9 && b[..2] == ss && b[2..] == " min/km"
  {
    var b := ss + " min/km";
    DigitsExclude(ss, ':');
    assert b[..2] == ss && b[2..] == " min/km";
  }

  /** The text shows exactly the minutes and the seconds, the latter always
      as two digits. */
  lemma RenderPaceReadsBack(p: PaceParts)
    requires 0 <= p.seconds <= 60
    ensures ReadPace(RenderPace(p)) == Some(p)
  {
    var a := IntToString(p.minutes);
    var ss := PadStart2(NatToString(p.seconds));
    var b := ss + " min/km";
    SecondsField(p.seconds);
    PaceTail(ss);
    IntToStringExcludes(p.minutes, ':');
    assert RenderPace(p) == a + [':'] + b;
    SplitTwo(a, b, ':');
    ReadIntOfIntToString(p.minutes);
  }

  lemma CalculatePaceReadsBack(distanceKm: Option<real>, durationMinutes: Option<real>)
    requires CalculatePace(distanceKm, durationMinutes).Some?
    ensures ReadPace(CalculatePace(distanceKm, durationMinutes).value) == PaceOf(distanceKm, durationMinutes)
  {
    RenderPaceReadsBack(PaceOf(distanceKm, durationMinutes).value);
  }

  /** A pace just under six minutes is shown as "5:60 min/km". */
  lemma SecondsNotCarried()
    ensures PaceOf(Some(1.0), Some(5.995)) == Some(PaceParts(5, 60))
  {
    assert (5.995).Floor == 5;
    assert ((5.995 - 5.0) * 60.0 + 0.5).Floor == 60;
  }

  // ---------------------------------------------------------------------------
  // getCardStyle

  datatype CardStyle = Plain | Tinted(backgroundColor: string)

  /** The five training types that have a colour of their own. */
  predicate TintedType(t: string) {
    t == "longrun" || t == "interval" || t == "tempo" || t == "easy" || t == "recovery"
  }

  function GetCardStyle(t: string): (st: CardStyle)
    ensures st.Tinted? <==> TintedType(t)
  {
    match t
    case "longrun" => Tinted("#cce5ff")
    case "interval" => Tinted("#f8d7da")
    case "tempo" => Tinted("#d4edda")
    case "easy" => Tinted("#fff3cd")
    case "recovery" => Tinted("#e2e3e5")
    case _ => Plain
  }

  /** Each of the five types has its own colour. */
  lemma CardColoursDistinct(a: string, b: string)
    requires TintedType(a) && TintedType(b) && a != b
    ensures GetCardStyle(a) != GetCardStyle(b)
  {
  }

  /** The plan generator is asked for the types "intervall" and "base",
      which get the plain card. */
  lemma GeneratedTypesUntinted()
    ensures GetCardStyle("intervall") == Plain && GetCardStyle("base") == Plain
  {
  }

  // ---------------------------------------------------------------------------
  // The per-day filter

  /** A row of the training plan; the date is kept as stored. */
  datatype Training = Training(id: string, date: string, trainingType: string)

  /** Whether a training shows under a day; `onDay` stands for
      `isSameDay(new Date(date), day)`. */
  predicate Listed(onDay: string -> bool, t: Training) {
    onDay(t.date) && t.trainingType != "ruhetag"
  }

  function DayTrainings(ts: seq<Training>, onDay: string -> bool): (r: seq<Training>)
    ensures |r| <= |ts|
    decreases |ts|
  {
    if ts == [] then []
    else (if Listed(onDay, ts[0]) then [ts[0]] else []) + DayTrainings(ts[1..], onDay)
  }

  /** A day lists exactly the plan's trainings that are on it and not rest days. */
  lemma {:induction false} DayTrainingsMembers(ts: seq<Training>, onDay: string -> bool)
    ensures forall t :: t in DayTrainings(ts, onDay) <==> t in ts && Listed(onDay, t)
    decreases |ts|
  {
    if ts != [] {
      DayTrainingsMembers(ts[1..], onDay);
      assert forall t :: t in ts <==> t == ts[0] || t in ts[1..];
    }
  }

  /** The filter keeps the plan's order. */
  lemma {:induction false} DayTrainingsConcat(a: seq<Training>, b: seq<Training>, onDay: string -> bool)
    ensures DayTrainings(a + b, onDay) == DayTrainings(a, onDay) + DayTrainings(b, onDay)
    decreases |a|
  {
    if a != [] {
      var head := if Listed(onDay, a[0]) then [a[0]] else [];
      assert (a + b)[0] == a[0] && (a + b)[1..] == a[1..] + b;
      DayTrainingsConcat(a[1..], b, onDay);
      assert DayTrainings(a + b, onDay) == head + DayTrainings(a[1..] + b, onDay);
      assert DayTrainings(a, onDay) == head + DayTrainings(a[1..], onDay);
    } else {
      assert a + b == b;
    }
  }

  /** The block a day renders: none when it lists no training. */
  function DayBlock(ts: seq<Training>, onDay: string -> bool): (block: Option<seq<Training>>)
    ensures block.None? <==> forall t :: t in ts ==> !Listed(onDay, t)
    ensures block.Some? ==> block.value == DayTrainings(ts, onDay) && block.value != []
  {
    var listed := DayTrainings(ts, onDay);
    DayTrainingsMembers(ts, onDay);
    if |listed| > 0 then
      assert listed[0] in listed;
      Some(listed)
    else None
  }
}
