# Laufcoach, modelled in Dafny

Laufcoach is a React Native running app. A runner builds routes on a map, gets
a four-week training plan from an onboarding wizard, and runs workouts. During
a run the phone records the GPS path, counts time, computes pace and calories,
speaks milestone and pacing callouts, and reads out turn instructions. This
project models the app's logic and proves properties about it. Screens, the
backend and the device SDKs are not modelled.

Files and modules:

- `workout.dfy` (`Workout`) models the live workout on the activity screen as a
  reducer `Step(dist, session, event)`. It covers the location fix, the
  one-second tick, the three announcement effects, the queue poll, the
  countdown buttons, pause/resume, stop, cancel, the directions answer and the
  weight answer. Each callback is followed by the effects React runs after it:
  - the countdown effect;
  - the reset of the announcement memory when `tracking` changes;
  - the pace/calorie recomputation when its dependencies change.

  The MET table, calories and target-pace parsing are pure functions in the
  same module.
- `workout_properties.dfy` (`WorkoutProperties`) holds the lemmas about
  `Step` and `Run`, the step applied to a sequence of events. They cover:
  - the path/distance invariant and the tick rule;
  - the countdown sequence and the metrics invariant;
  - the FIFO speech queue;
  - the at-most-once callouts;
  - the shared kilometre memory of the milestone and pace callouts;
  - navigation steps, stop and cancel.
- `activity_screen.dfy` (`ActivityScreen`) is the same screen as a class
  `Tracker`, with the state variables and refs as fields and one method per
  callback. Each method is proved to be one `Workout.Step` and to keep the distance equal to the length of the recorded path. The two loops of the
  screen, `calculateDistance` and the polyline extraction, are methods too.
- `simple_navigation.dfy` (`SimpleNavigation`) models `findNextWaypoint`,
  `getDirectionInstruction` and `getNavigationInstruction`.
- `navigation_utils.dfy` (`NavigationUtils`) models `findClosestStepIndex`,
  `snapToRoute`, HTML-tag stripping, first-occurrence `replace` and
  `getGermanInstruction`.
- `polyline.dfy` (`Polyline`) models Google's encoded-polyline decoder from the
  route builder, on integers in units of 1e-5 degrees. It includes a reference
  encoder and the round trip.
- `route_tracking_screen.dfy` (`RouteTrackingScreen`) covers the route
  builder: markers, segments, undo, reset and save. It is written as functions
  plus a class `RouteBuilder`.
- `weekly_training_view.dfy` (`WeeklyTrainingView`) covers the training
  cards: `formatTime`, `calculatePace`, `getCardStyle` and the per-day filter.
- `coach_screen.dfy` (`CoachScreen`) covers the onboarding wizard (with a class
  `CoachWizard`), the extraction of the JSON array from the generator's reply,
  and the defaulting of plan rows.
- `profile_screen.dfy` (`ProfileScreen`) covers the flattening of stored route
  coordinates and the route modal.
- `auth_screen.dfy` (`AuthScreen`) covers the login/registration validator and
  the form (class `AuthForm`).
- `geo.dfy` (`Geo`) provides the abstract geometry. `Metric` is any function
  pair → non-negative real; it stands for the haversine distance. `BearingFn`
  gives degrees in [0, 360). `PathLength` is the sum of the legs, and
  `FirstMin` is the first minimum of a sequence.
- `text.dfy` (`Text`) provides decimal rendering and reading, `padStart(2, '0')`,
  `split`, and JavaScript's `Number` on decimal texts (blanks, a sign, a point).
- `wrappers.dfy` (`Wrappers`) provides `Option`.

Distances are in kilometres on the activity screen and the route builder, and
in metres in `simpleNavigation`. Each distance is an uninterpreted `Metric`
passed in by the caller.

## Model

| member | source | states |
|---|---|---|
| Geo.PathLengthNonNegative | src/screens/ActivityScreen.tsx:445-459 | The accumulated path length is never negative. |
| Geo.PathLengthAppend | src/screens/ActivityScreen.tsx:445-459 | Appending a point adds exactly the leg from the previous last point. A path of fewer than two points has length 0. |
| Geo.PathLengthConcat | src/screens/ActivityScreen.tsx:445-459 | The length of two non-empty paths joined is their two lengths plus the leg that joins them. |
| Geo.FirstMin | src/utils/navigationUtils.ts:51-62 | The returned index lies in [lo, hi) and holds the minimum. Every earlier index in the range is strictly larger (first minimum, strict `<`). |
| Geo.FirstMinUnique | src/utils/navigationUtils.ts:51-62 | Two indices that are both the first minimum of a range are equal, so the ordering rule fixes one index. |
| Text.NatToString | src/components/WeeklyTrainingView.tsx:47 | Decimal rendering is non-empty, all digits, and one character long exactly when the number is below 10. |
| Text.IntToString | src/components/WeeklyTrainingView.tsx:47 | A signed rendering is non-empty. It is all digits for non-negative numbers and starts with `-` for negative ones. |
| Text.DigitsValueOfNatToString | src/components/WeeklyTrainingView.tsx:47 | Reading the rendered digits back gives the number. |
| Text.ReadIntOfIntToString | src/components/WeeklyTrainingView.tsx:47 | Reading a rendered integer back gives the integer, for either sign. |
| Text.PadStart2 | src/components/WeeklyTrainingView.tsx:66 | `padStart(2, '0')` leaves strings of length two or more unchanged. Shorter strings are padded to length two, with `'0'` in front of the original. |
| Text.Split | src/screens/ActivityScreen.tsx:282 | `split` yields at least one piece, and no piece contains the separator. |
| Text.SplitJoin | src/screens/ActivityScreen.tsx:282 | Joining the pieces with the separator gives back the original string. |
| Text.SplitTwo | src/screens/ActivityScreen.tsx:282 | Two separator-free parts joined by one separator split into exactly those two parts. |
| Text.SplitNoSep | src/screens/ActivityScreen.tsx:282 | A string without the separator splits into itself alone. |
| Text.TrimStart | src/screens/ActivityScreen.tsx:282 | Dropping the leading JavaScript white space never lengthens the text, and the result is empty or starts with a non-blank. |
| Text.TrimEnd | src/screens/ActivityScreen.tsx:282 | Dropping the trailing white space never lengthens the text, and the result is empty or ends with a non-blank. |
| Text.TrimStartIsSuffix | src/screens/ActivityScreen.tsx:282 | Trimming the front leaves a suffix of the text. |
| Text.TrimEndIsPrefix | src/screens/ActivityScreen.tsx:282 | Trimming the back leaves a prefix of the text. |
| Text.TrimPadded | src/screens/ActivityScreen.tsx:282 | Trimming a text padded with blanks on both sides gives back the unpadded text. |
| Text.UnsignedDecimal | src/screens/ActivityScreen.tsx:282 | An unsigned decimal (digits with at most one point, and at least one digit) reads as a non-negative value. Any text it reads is non-empty and made only of digits and points. |
| Text.JsNumber | src/screens/ActivityScreen.tsx:282 | `Number(text)`: a blank or empty text is 0, and a text that reads as a number contains, once trimmed, only digits, points and signs. NaN is None. |
| Text.JsNumberOfDigits | src/screens/ActivityScreen.tsx:282 | A digit string with blanks on either side reads as its value. An empty or blank text reads as 0. |
| Text.JsNumberOfDigitString | src/screens/ActivityScreen.tsx:282 | An unpadded digit string reads as its value. |
| Text.JsNumberSigned | src/screens/ActivityScreen.tsx:282 | `+d` reads as d and `-d` as -d. |
| Text.FractionValue | src/screens/ActivityScreen.tsx:282 | The digits after a decimal point weigh tenths, hundredths and so on, and add up to less than one. |
| Text.JsNumberFraction | src/screens/ActivityScreen.tsx:282 | `a.b` reads as a plus the fraction that the digits b spell. |
| Text.JsNumberOfNatToString | src/screens/ActivityScreen.tsx:282 | `Number` reads back a rendered natural number. |
| Polyline.Low5 | src/screens/RouteTrackingScreen.tsx:114 | `b & 0x1f` is below 32. |
| Polyline.ReadValue | src/screens/RouteTrackingScreen.tsx:111-116 | Reading one value always moves the index forward. It ends at most one position past the end of the text. |
| Polyline.UnzigzagZigZag | src/screens/RouteTrackingScreen.tsx:117 | The sign decoding `(r & 1) ? ~(r >> 1) : r >> 1` undoes zig-zag encoding for every integer, so it is onto. |
| Polyline.ZigZagUnzigzag | src/screens/RouteTrackingScreen.tsx:117 | Zig-zag encoding undoes the sign decoding for every natural number, so the decoding is a bijection. |
| Polyline.EncodeNat | src/screens/RouteTrackingScreen.tsx:111-116 | The reference encoder of one value writes at least one chunk. |
| Polyline.ReadEncoded | src/screens/RouteTrackingScreen.tsx:111-116 | The chunk loop, run on an encoded value, returns that value and stops right after its last chunk. |
| Polyline.DecodeEncoded | src/screens/RouteTrackingScreen.tsx:109-131 | Decoding from any offset where an encoding of points begins, carrying the running lat/lng, gives exactly those points. |
| Polyline.RoundTrip | src/screens/RouteTrackingScreen.tsx:107-133 | `decode(encode(points)) == points`. |
| Polyline.DecodeEmpty | src/screens/RouteTrackingScreen.tsx:110 | The empty string decodes to no points. |
| Polyline.Sums | src/screens/RouteTrackingScreen.tsx:117-130 | The running sums that line 130 accumulates have one point per (lat, lng) delta pair. |
| Polyline.EncodeDeltasOfSums | src/screens/RouteTrackingScreen.tsx:117-130 | Encoding the running sums of some deltas writes exactly the encoded deltas. |
| Polyline.DecodeIsRunningSum | src/screens/RouteTrackingScreen.tsx:117-130 | Decoding the back-to-back encodings of a sequence of deltas gives their running sums from (0, 0). |
| Polyline.ReadChunks | src/screens/RouteTrackingScreen.tsx:111-116 | The do-while loop over `charCode - 63` chunks computes `ReadValue`: 5 low bits per chunk, least significant first, continuing while the chunk is at least 0x20. |
| Polyline.DecodePolyline | src/screens/RouteTrackingScreen.tsx:107-133 | The decoder's outer while loop returns `Decode(t)`. So, by the lemmas above, it returns the running sums and inverts the encoder. |
| RouteTrackingScreen.ToLatLng | src/screens/RouteTrackingScreen.tsx:130 | Dividing by 1e5 is exact: the degrees times 1e5 give back the integer units. |
| RouteTrackingScreen.ToLatLngs | src/screens/RouteTrackingScreen.tsx:130 | Conversion is point by point and order-preserving. |
| RouteTrackingScreen.SegmentOf | src/screens/RouteTrackingScreen.tsx:96 | A directions answer becomes a segment with one point per decoded point, in order. |
| RouteTrackingScreen.SegmentsLengthNonNegative | src/screens/RouteTrackingScreen.tsx:52-71 | The route distance is never negative. |
| RouteTrackingScreen.SegmentsLengthAppend | src/screens/RouteTrackingScreen.tsx:97-99 | Adding a segment never lowers the route distance. |
| RouteTrackingScreen.CalculateDistance | src/screens/RouteTrackingScreen.tsx:52-71 | The nested loop computes the sum of per-segment path lengths. No leg joins one segment to the next. |
| RouteTrackingScreen.InitialConsistent | src/screens/RouteTrackingScreen.tsx:30-35 | The initial state has no markers, edit mode off, and satisfies the invariant: segments fewer than markers, and distance equal to the segments' length. |
| RouteTrackingScreen.Press | src/screens/RouteTrackingScreen.tsx:73-105 | Outside edit mode nothing changes. In edit mode the press adds exactly one marker. It adds the decoded segment only when there are now at least two markers and directions returned a route; otherwise segments and distance stay. The invariant is kept. |
| RouteTrackingScreen.Undo | src/screens/RouteTrackingScreen.tsx:142-154 | With more than one marker, the last marker and the last segment are dropped. With one marker, everything is cleared and the distance is 0. With none, nothing changes. The invariant is kept. |
| RouteTrackingScreen.Reset | src/screens/RouteTrackingScreen.tsx:135-140 | Markers and segments are emptied, the distance is 0 and edit mode is off. The name and the modal are untouched. |
| RouteTrackingScreen.ResetConsistent | src/screens/RouteTrackingScreen.tsx:135-140 | Reset establishes the invariant. |
| RouteTrackingScreen.UndoAfterPress | src/screens/RouteTrackingScreen.tsx:142-154 | In edit mode, undo after a press that got directions restores the previous state exactly. |
| RouteTrackingScreen.UndoAfterFailedPress | src/screens/RouteTrackingScreen.tsx:142-154 | Undo after a press whose request failed restores the markers but drops an older segment that the press did not add. |
| RouteTrackingScreen.SaveRecord | src/screens/RouteTrackingScreen.tsx:156-170 | A row is inserted exactly when there is a user. It carries the user id, the name, the distance and the segments. |
| RouteTrackingScreen.AfterSave | src/screens/RouteTrackingScreen.tsx:156-182 | Without a user, or when the insert fails, nothing changes. After a successful insert the route is reset, the modal is closed and the name is cleared. |
| RouteTrackingScreen.RouteBuilder.constructor | src/screens/RouteTrackingScreen.tsx:30-35 | The builder starts in the initial state with its invariant. |
| RouteTrackingScreen.RouteBuilder.StartEditing | src/screens/RouteTrackingScreen.tsx:214 | Only edit mode is switched on. |
| RouteTrackingScreen.RouteBuilder.HandleMapPress | src/screens/RouteTrackingScreen.tsx:73-105 | The fields become `Press` of the old state, and the invariant is kept. |
| RouteTrackingScreen.RouteBuilder.UndoLastMarker | src/screens/RouteTrackingScreen.tsx:142-154 | The fields become `Undo` of the old state, and the invariant is kept. |
| RouteTrackingScreen.RouteBuilder.ResetRoute | src/screens/RouteTrackingScreen.tsx:135-140 | The fields become `Reset` of the old state, and the invariant holds afterwards. |
| RouteTrackingScreen.RouteBuilder.OpenSaveModal | src/screens/RouteTrackingScreen.tsx:225 | Only the save modal is shown. |
| RouteTrackingScreen.RouteBuilder.SetRouteName | src/screens/RouteTrackingScreen.tsx:248 | Only the name changes. |
| RouteTrackingScreen.RouteBuilder.HandleSave | src/screens/RouteTrackingScreen.tsx:156-182 | The row sent is `SaveRecord`, and the new state is `AfterSave`. |
| SimpleNavigation.ClosestIndex | src/utils/simpleNavigation.ts:47-60 | For a non-empty window [max(0, last-2), min(len, last+10)), the result is the first closest point of the window. For an empty window it stays `lastWaypointIndex`, which then lies past the end. The result is never negative. |
| SimpleNavigation.FirstFar | src/utils/simpleNavigation.ts:63-72 | A result is the first index from the start with distance above 15; every index between is at most 15. No result means every remaining distance is at most 15. |
| SimpleNavigation.NextWaypoint | src/utils/simpleNavigation.ts:37-75 | An empty route gives (null, -1, 0). A found waypoint lies strictly after the closest index and is the first farther than 15 m. Its distance is returned, and all points before it are within 15 m. Otherwise the result is (null, closest index, 0). |
| SimpleNavigation.SearchWindow | src/utils/simpleNavigation.ts:47-60 | The first loop computes `ClosestIndex`. |
| SimpleNavigation.ScanForward | src/utils/simpleNavigation.ts:63-74 | The second loop returns the first far point after the closest index, with its distance. If there is none it returns (null, closest index, 0). |
| SimpleNavigation.FindNextWaypoint | src/utils/simpleNavigation.ts:37-75 | The function returns `NextWaypoint`. |
| SimpleNavigation.NextIndexLowerBound | src/utils/simpleNavigation.ts:47 | The returned index is never below max(0, last-2). |
| SimpleNavigation.CursorCanMoveBack | src/utils/simpleNavigation.ts:47-74 | On a concrete input with last index 2, the returned index is 0, so the waypoint cursor is not monotone. |
| SimpleNavigation.NormalizeAngleRange | src/utils/simpleNavigation.ts:79-83 | For bearings in [0, 360), the normalised difference lies in [-180, 180]. It differs from the raw difference by 0 or ±360. |
| SimpleNavigation.Classify | src/utils/simpleNavigation.ts:86-95 | The six bands, each as an if-and-only-if: none below 25 in magnitude; turn around above 120; right for (45, 120]; left for [-120, -45); slight right for [25, 45]; slight left for [-45, -25]. |
| SimpleNavigation.ClassifyMirror | src/utils/simpleNavigation.ts:90-95 | Negating the difference mirrors the instruction (right↔left, slight right↔slight left, turn around stays). |
| SimpleNavigation.DirectionInstruction | src/utils/simpleNavigation.ts:78-96 | The instruction is null exactly when the normalised difference is below 25 degrees in magnitude. |
| SimpleNavigation.NavigationInstruction | src/utils/simpleNavigation.ts:99-128 | With no waypoint or zero distance, the result is (null, 0, unchanged index). Otherwise it carries the waypoint's index and distance. The instruction is present only when a current bearing is given, and is then the direction to the waypoint. |
| SimpleNavigation.ZeroDistanceTestRedundant | src/utils/simpleNavigation.ts:111 | A found waypoint is farther than 15 m, so the `distanceToNext === 0` test never applies to it. |
| SimpleNavigation.NavigationIndexCanDecrease | src/utils/simpleNavigation.ts:109-128 | On a concrete input with last index 2, the new waypoint index is 1. |
| NavigationUtils.StepCoords | src/utils/navigationUtils.ts:27-37 | A complete `start_location` is used as it is. A step has no coordinates exactly when neither `start_location` nor the top-level latitude/longitude pair is complete. |
| NavigationUtils.StepDistances | src/utils/navigationUtils.ts:22-41 | Each step's distance is computed from its coordinates, or is absent when it has none. |
| NavigationUtils.FindClosestStepIndex | src/utils/navigationUtils.ts:18-48 | Missing or empty steps give 0, and so does having no valid step. Otherwise the result is the lowest index of minimal distance among valid steps (strict `<`). |
| NavigationUtils.SnapToRoute | src/utils/navigationUtils.ts:51-62 | An empty route gives nothing. Otherwise the result is the route point at the first minimum of the distances. |
| NavigationUtils.SnapIsClosest | src/utils/navigationUtils.ts:51-62 | The snapped point is no farther than any point of the route. |
| NavigationUtils.TagEnd | src/utils/navigationUtils.ts:93 | After a `<`, a tag of `<[^>]+>` ends at the first `>`, which may not follow the `<` directly. When the `>` follows directly, or there is none, there is no tag. |
| NavigationUtils.StripTags | src/utils/navigationUtils.ts:93 | Removing `<[^>]+>` keeps only characters of the input and never lengthens it. A text without `<` is unchanged. |
| NavigationUtils.StripTagsLeavesNoTag | src/utils/navigationUtils.ts:93 | The result contains no tag. |
| NavigationUtils.StripTagsFixpoint | src/utils/navigationUtils.ts:93 | A text without tags is left unchanged. |
| NavigationUtils.StripTagsIdempotent | src/utils/navigationUtils.ts:93 | Stripping twice is stripping once. |
| NavigationUtils.FindFrom | src/utils/navigationUtils.ts:95-101 | The search returns the first occurrence of the pattern at or after a position, or reports that there is none. |
| NavigationUtils.ReplaceFirst | src/utils/navigationUtils.ts:95-101 | Replacing by a string pattern changes only its first occurrence. Without an occurrence the text is unchanged. |
| NavigationUtils.GermanInstruction | src/utils/navigationUtils.ts:87-104 | A known maneuver gives exactly its table entry. Otherwise the tag-stripped and replaced HTML is used, or `Weiterlaufen` when that is empty. The result is never empty. |
| NavigationUtils.ManeuverIgnoresHtml | src/utils/navigationUtils.ts:89-91 | For a known maneuver, `html_instructions` does not matter. |
| WeeklyTrainingView.JsRem | src/components/WeeklyTrainingView.tsx:47 | JavaScript's `%` takes the sign of the dividend and stays below the divisor in magnitude. |
| WeeklyTrainingView.FormatTime | src/components/WeeklyTrainingView.tsx:47 | The text ends in `min` and has at least seven characters. What it means is stated by `FormatTimeReadsBack` and `FormatTimeNegative`. |
| WeeklyTrainingView.FormatTimeReadsBack | src/components/WeeklyTrainingView.tsx:47 | For m ≥ 0, the text `${h}h ${min}min` reads back as m, with 60·h + min = m and min < 60. |
| WeeklyTrainingView.FormatTimeNegative | src/components/WeeklyTrainingView.tsx:47 | For a negative m that is not a multiple of 60, the shown hours and minutes add up to m - 60, because the floor and the remainder round differently. |
| WeeklyTrainingView.Round | src/components/WeeklyTrainingView.tsx:65 | `Math.round` lands within half a unit, and halves go up. |
| WeeklyTrainingView.PaceOf | src/components/WeeklyTrainingView.tsx:61-65 | There is no pace exactly when the distance or duration is missing or 0. Otherwise the minutes are floor(duration/distance), the seconds lie in 0..60, and together they are within half a second of the pace. |
| WeeklyTrainingView.CalculatePace | src/components/WeeklyTrainingView.tsx:61-67 | The text exists exactly when the pace does, and it ends in ` min/km`. |
| WeeklyTrainingView.RenderPaceReadsBack | src/components/WeeklyTrainingView.tsx:66 | `${min}:${sec padded to 2} min/km` reads back as the same minutes and seconds, for seconds 0..60. |
| WeeklyTrainingView.CalculatePaceReadsBack | src/components/WeeklyTrainingView.tsx:61-67 | The shown pace text reads back as `PaceOf`, so it determines the minutes and the rounded seconds. |
| WeeklyTrainingView.SecondsNotCarried | src/components/WeeklyTrainingView.tsx:65 | 5.995 min over 1 km is shown as 5 minutes and 60 seconds; 60 seconds are not carried into the minutes. |
| WeeklyTrainingView.GetCardStyle | src/components/WeeklyTrainingView.tsx:49-58 | A card is tinted exactly for longrun, interval, tempo, easy and recovery. |
| WeeklyTrainingView.CardColoursDistinct | src/components/WeeklyTrainingView.tsx:49-58 | Different tinted types get different colours. |
| WeeklyTrainingView.GeneratedTypesUntinted | src/components/WeeklyTrainingView.tsx:49-58 | The types `intervall` and `base`, which the plan generator is asked to use, get the default style. |
| WeeklyTrainingView.DayTrainings | src/components/WeeklyTrainingView.tsx:85-87 | The filter never lengthens the list. |
| WeeklyTrainingView.DayTrainingsMembers | src/components/WeeklyTrainingView.tsx:85-87 | A training is listed for a day exactly when it is in the list, falls on that day and is not a `ruhetag`. |
| WeeklyTrainingView.DayTrainingsConcat | src/components/WeeklyTrainingView.tsx:85-87 | The filter distributes over concatenation, so the order of trainings is kept. |
| WeeklyTrainingView.DayBlock | src/components/WeeklyTrainingView.tsx:84-90 | A day renders no block exactly when none of its trainings is listed. Otherwise the block holds the non-empty filtered list. |
| CoachScreen.RequiredSteps | src/screens/CoachScreen.tsx:62-97 | There are 12 steps, and exactly name, experience, goal and time budget are required. The last step is optional. |
| CoachScreen.InitialData | src/screens/CoachScreen.tsx:47-60 | Every answer starts empty. |
| CoachScreen.CurrentStep | src/screens/CoachScreen.tsx:141 | `steps[stepIndex]` exists exactly when the index is below 12. |
| CoachScreen.AfterChange | src/screens/CoachScreen.tsx:144-146 | Only the named answer changes, to the new value. Index, plan flag and user are kept. |
| CoachScreen.AfterNext | src/screens/CoachScreen.tsx:148-151 | A required step with an empty answer blocks. Otherwise the index rises by exactly 1 and nothing else changes. |
| CoachScreen.AfterSkip | src/screens/CoachScreen.tsx:153 | The index always rises by 1, and the answers are kept. |
| CoachScreen.ButtonsAt | src/screens/CoachScreen.tsx:386-400 | Skip is shown exactly on optional steps. Next is shown exactly before the last step, and "generate plan" exactly where Next is not. |
| CoachScreen.NextStaysInside | src/screens/CoachScreen.tsx:392-395 | Where Next is shown, pressing it keeps the index inside the steps. |
| CoachScreen.RequiredNeedsAnswer | src/screens/CoachScreen.tsx:148-151 | A required step offers no skip and does not advance while its answer is empty. After any non-empty answer, Next advances by one. |
| CoachScreen.SkipPastLastStep | src/screens/CoachScreen.tsx:141-153 | The last step offers Skip, and skipping there leaves no current step. Next can never reach that state. |
| CoachScreen.AfterLoad | src/screens/CoachScreen.tsx:107-136 | Without a user nothing changes. A profile with a plan row sets `planGenerated`. A profile alone copies the answers and jumps to the last step. No profile only records the user. |
| CoachScreen.LoadExistingOutcome | src/screens/CoachScreen.tsx:130-135 | From the start state: a profile with a plan shows the plan. A profile alone lands on the "generate plan" step. No profile shows no plan. |
| CoachScreen.FirstIndex | src/screens/CoachScreen.tsx:234 | The first position of a character, or none exactly when it does not occur. |
| CoachScreen.LastIndex | src/screens/CoachScreen.tsx:234 | The last position of a character, or none exactly when it does not occur. |
| CoachScreen.ArraySpan | src/screens/CoachScreen.tsx:234 | A match of `/\[[\s\S]*\]/` runs from the first `[` to the last `]`, which comes after it. |
| CoachScreen.ArraySpanNone | src/screens/CoachScreen.tsx:234-235 | There is no match exactly when no `]` comes after some `[`. |
| CoachScreen.ExtractJsonArray | src/screens/CoachScreen.tsx:234-236 | The match exists exactly when the span does. It is the text from the first `[` to the last `]`, bracketed at both ends. |
| CoachScreen.ExtractWrapped | src/screens/CoachScreen.tsx:320-322 | Text without `[` in front and without `]` behind an array yields exactly that array, whatever the array contains. |
| CoachScreen.OrElse | src/screens/CoachScreen.tsx:248 | `x \|\| d` gives x when it is a non-empty string, else d. |
| CoachScreen.OrNull | src/screens/CoachScreen.tsx:246 | `x \|\| null` keeps only non-empty strings. |
| CoachScreen.NormaliseRow | src/screens/CoachScreen.tsx:244-261 | The row always gets the user id. A missing or empty title becomes `Unbenannt`, type becomes `unspecified` and description becomes empty; a present one is kept. A missing or empty date, weekday, target pace or explanation becomes null; a present one is kept as it is. Distance and duration are copied from their parse. |
| CoachScreen.NormaliseRows | src/screens/CoachScreen.tsx:243-262 | There is one row out per row in, in order. |
| CoachScreen.NormaliseRowIdempotent | src/screens/CoachScreen.tsx:330-347 | Normalising an already normalised row changes nothing. |
| CoachScreen.NormaliseRowKeepsAnswers | src/screens/CoachScreen.tsx:244-261 | A row with title, type and explanation keeps them as given. |
| CoachScreen.CoachWizard.constructor | src/screens/CoachScreen.tsx:100-104 | The wizard starts with empty answers at step 0, no plan and no user. |
| CoachScreen.CoachWizard.LoadExisting | src/screens/CoachScreen.tsx:107-136 | The fields become `AfterLoad` of the old state. |
| CoachScreen.CoachWizard.HandleChange | src/screens/CoachScreen.tsx:144-146 | The fields become `AfterChange` of the old state. |
| CoachScreen.CoachWizard.HandleNext | src/screens/CoachScreen.tsx:148-151 | The fields become `AfterNext` of the old state. |
| CoachScreen.CoachWizard.HandleSkip | src/screens/CoachScreen.tsx:153 | The fields become `AfterSkip` of the old state. |
| ProfileScreen.ParseCoordinates | src/screens/ProfileScreen.tsx:29-31 | If the first entry is a segment, the entries are flattened one level in order. Otherwise, including for an empty list, they are kept. |
| ProfileScreen.FlatPointsSize | src/screens/ProfileScreen.tsx:29-31 | The flattened length is the sum of the entry sizes. |
| ProfileScreen.ParseCoordinatesIdempotent | src/screens/ProfileScreen.tsx:29-31 | Flattening an already flat list changes nothing. |
| ProfileScreen.Stored | src/screens/RouteTrackingScreen.tsx:169 | A saved route holds one nested entry per segment. |
| ProfileScreen.FlatPointsOfStored | src/screens/ProfileScreen.tsx:29-30 | Flattening the saved shape gives the concatenation of the segments. |
| ProfileScreen.OpenStoredRoute | src/screens/ProfileScreen.tsx:28-35 | Opening a route saved by the route builder shows all its points in order, which undoes the nested shape. |
| ProfileScreen.DrawnPathCoversSavedDistance | src/screens/ProfileScreen.tsx:28-35 | The drawn flat path is at least as long as the saved distance, since flattening adds the legs between segments. |
| ProfileScreen.OpenRouteModal | src/screens/ProfileScreen.tsx:28-35 | The modal is visible and the route is selected with flattened coordinates. Every other field is copied. |
| ProfileScreen.CloseModal | src/screens/ProfileScreen.tsx:37-40 | Closing clears the selection and hides the modal. |
| ProfileScreen.CloseAfterOpen | src/screens/ProfileScreen.tsx:28-40 | Opening then closing is the same as closing. |
| AuthScreen.ChooseCall | src/screens/AuthScreen.tsx:13-30 | The input is rejected exactly when email or password is empty, or when registering with an unmatched confirmation. Otherwise there is exactly one call: sign-in when logging in, sign-up carrying the name when registering. Both carry the email and password. |
| AuthScreen.EmptyRejected | src/screens/AuthScreen.tsx:14-17 | An empty email or password is rejected in both modes. |
| AuthScreen.LoginIgnoresConfirm | src/screens/AuthScreen.tsx:14-21 | In login mode, name and confirmation do not affect the outcome. |
| AuthScreen.RegisterNeedsConfirm | src/screens/AuthScreen.tsx:14 | Registering with a confirmation different from the password is rejected. |
| AuthScreen.AuthForm.constructor | src/screens/AuthScreen.tsx:7-11 | The form starts in login mode with empty fields. |
| AuthScreen.AuthForm.SetEmail | src/screens/AuthScreen.tsx:40 | Only the email changes. |
| AuthScreen.AuthForm.SetPassword | src/screens/AuthScreen.tsx:44 | Only the password changes. |
| AuthScreen.AuthForm.SetName | src/screens/AuthScreen.tsx:37 | Only the name changes. |
| AuthScreen.AuthForm.SetConfirm | src/screens/AuthScreen.tsx:53 | Only the confirmation changes. |
| AuthScreen.AuthForm.Toggle | src/screens/AuthScreen.tsx:63 | `isLogin` flips, and nothing else changes. |
| AuthScreen.AuthForm.HandleAuth | src/screens/AuthScreen.tsx:13-30 | The call made is `ChooseCall` of the current fields. |
| Workout.Met | src/screens/ActivityScreen.tsx:123-131 | The MET lies between 6 and 12. It is 12 for a pace of at most 4.5 and 6 for a pace above 9. |
| Workout.MetNonIncreasing | src/screens/ActivityScreen.tsx:123-131 | A slower pace never has a higher MET. |
| Workout.MetBandEdges | src/screens/ActivityScreen.tsx:123-131 | The band edges belong to the faster band: MET(5.0) = 11, MET(6.0) = 10, MET(9.0) = 7, MET(4.5) = 12. |
| Workout.Calories | src/screens/ActivityScreen.tsx:352 | The calories are non-negative for a non-negative MET and weight. |
| Workout.Tenths | src/screens/ActivityScreen.tsx:353 | `parseFloat(x.toFixed(1))` is within 0.05 of x, a whole number of tenths, and non-negative for non-negative x. |
| Workout.TenthsIdempotent | src/screens/ActivityScreen.tsx:353 | Rounding a rounded value again changes nothing. |
| Workout.ParseTargetPace | src/screens/ActivityScreen.tsx:280-285 | A target pace is read only from a text that contains `:`. Without one, `sec` is undefined and the sum is NaN. |
| Workout.PaceOfPieces | src/screens/ActivityScreen.tsx:282-283 | The pieces give a pace exactly when there are at least two and `Number` reads both of the first two. The pace is then min + sec/60. Further pieces are ignored, as the destructuring ignores them. |
| Workout.ParseNumbers | src/screens/ActivityScreen.tsx:282-283 | A text `a:b` with one colon parses to Number(a) + Number(b)/60 whenever both sides read as numbers. |
| Workout.ParseDigitsColonDigits | src/screens/ActivityScreen.tsx:280-285 | `m:s` with digit strings parses to m + s/60. |
| Workout.ParseFiveThirty | src/screens/ActivityScreen.tsx:280-285 | `5:30` parses to 5.5. |
| Workout.ParseTrailingBlank | src/screens/ActivityScreen.tsx:282-283 | `5:30 ` parses to 5.5, since `Number` ignores surrounding blanks. |
| Workout.ParseLeadingBlank | src/screens/ActivityScreen.tsx:282-283 | ` 5:30` parses to 5.5. |
| Workout.ParsePlusSign | src/screens/ActivityScreen.tsx:282-283 | `5:+30` parses to 5.5, since `Number` reads a sign. |
| Workout.ParseMinusSign | src/screens/ActivityScreen.tsx:282-283 | `-5:30` parses to -4.5: the minus applies to the minutes only and the seconds are still added. |
| Workout.ParseDecimalMinutes | src/screens/ActivityScreen.tsx:282-283 | `a.b:c` with digit strings parses to a.b + c/60 (so `5.5:0` is 5.5), since `Number` reads a decimal fraction. |
| Workout.InitialTargetPace | src/screens/ActivityScreen.tsx:280-286 | A missing or empty target pace text gives no target pace. |
| Workout.NewSession | src/screens/ActivityScreen.tsx:109-150 | The screen mounts idle: empty path, zero distance and duration, no countdown, an empty speech queue and a weight of 70 kg. A target distance is set exactly when a route with a non-zero distance was passed. The target pace is parsed from the training. |
| Workout.Recompute | src/screens/ActivityScreen.tsx:344-355 | When moving with positive distance and duration, the pace becomes (duration/60)/distance. The calories become MET(pace)·weight·duration/3600, rounded to tenths. Otherwise nothing changes. Only pace and calories are ever touched. |
| Workout.Settle | src/screens/ActivityScreen.tsx:399-403 | Exactly when `tracking` changed, the kilometre memory and both callout flags are reset. Apart from that, only the metrics may change. |
| Workout.StartTracking | src/screens/ActivityScreen.tsx:461-465 | Tracking is on, not paused, and the countdown modal is hidden. |
| Workout.CountdownEffects | src/screens/ActivityScreen.tsx:521-558 | Nothing happens unless the countdown value changed. On reaching 0, unless already started, tracking starts, the started flag is set and the countdown becomes null. On a positive value the started flag is cleared. Only the countdown and the tracking/paused flags can change. |
| Workout.OnFix | src/screens/ActivityScreen.tsx:472-484 | While tracking, a fix appends one point and sets the distance to the whole path's length. Before tracking starts there is no watch, so nothing changes. |
| Workout.OnTick | src/screens/ActivityScreen.tsx:331-342 | The duration rises by 1 exactly while tracking and not paused, and nothing else changes. |
| Workout.CoachReply | src/screens/ActivityScreen.tsx:373-375 | A generator reply enqueues one message exactly when it is non-empty. |
| Workout.OnMilestones | src/screens/ActivityScreen.tsx:360-397 | Inactive when idle, paused or under 1 km. A new kilometre, with pace > 0, moves the memory to floor(distance). The last-km and last-100-m callouts are enqueued once each, inside [target-1, target) and [target-0.1, target), and set their flags. The queue grows by the last-km callout, then the last-100-m callout, then the generator's reply for a new kilometre, which its `.then` pushes after the synchronous pushes of the same run. Only the memory and the queue change. |
| Workout.OnPaceCheck | src/screens/ActivityScreen.tsx:405-425 | When more than 0.3 min/km off target and a kilometre is not yet announced, the reply is enqueued and the memory moves to floor(distance). Otherwise nothing changes. |
| Workout.OnNavCheck | src/screens/ActivityScreen.tsx:617-639 | Within 0.04 km of the next step's start, the tag-stripped instruction is enqueued and the step index rises by 1. Otherwise, including past the last step, nothing changes. |
| Workout.OnPollQueue | src/screens/ActivityScreen.tsx:427-437 | While speaking, or with an empty queue, nothing happens. Otherwise the front item is taken and played, and `isSpeaking` is set exactly when its text is non-empty. Played followed by queued is unchanged. |
| Workout.OnStop | src/screens/ActivityScreen.tsx:167-208 | Tracking and pause end. Without a user id nothing else changes. Otherwise, also when the user lookup or the insert throws, path, distance, duration, pace and calories are zeroed. |
| Workout.StopRecord | src/screens/ActivityScreen.tsx:176-197 | A workout is inserted exactly when there is a user. It carries the user id and the distance, duration, calories, pace and path before the reset. |
| Workout.OnCancel | src/screens/ActivityScreen.tsx:561-574 | The recording and metrics are zeroed, the target pace is cleared and the kilometre memory is 0. The speech queue, the navigation and the countdown are untouched. |
| Workout.StepsPolyline | src/screens/ActivityScreen.tsx:228-242 | No steps give no points. Otherwise the points are every step's start followed by the last step's end, `steps.length + 1` in all. |
| Workout.OnDirections | src/screens/ActivityScreen.tsx:213-245 | The answer, when it comes, is stored with its extracted polyline only when a route was passed; without a route the state is unchanged. |
| Workout.CountdownAfter | src/screens/ActivityScreen.tsx:488-743 | The start button (488-491) shows 10, a tick (540-542) takes one off a positive count, +10 (737) adds ten (from 0 when null), skip (743) sets 0. No button touches `countdownStarted`, and other callbacks leave the countdown alone. |
| Workout.Handle | src/screens/ActivityScreen.tsx:331-637 | The countdown changes only through `CountdownAfter` (buttons at 737 and 743, the start at 488-491, the timeout at 540-542). The step index never goes back, since only 637 sets it, by +1. Only cancelling changes the goals: line 572 drops the target pace. Pause and resume (576-577) flip `paused` and `SpeechDone` (434-436) clears `isSpeaking`, as `WorkoutProperties.PauseThenResume` and `ActivityScreen.Tracker.SpeechFinished` state. |
| Workout.Step | src/screens/ActivityScreen.tsx:344-558 | A callback followed by its effects (344-355, 399-403, 521-558) keeps the step index from going back. It keeps the goals unless it is a cancel, and the directions unless they are the directions answer, since the effects do not touch them. `WorkoutProperties.StepFrame` gives the full frame. |
| Workout.Run | src/screens/ActivityScreen.tsx:280-637 | Over any sequence of events the step index never decreases (only 637 sets it). Without a cancel (572), the target pace, target distance and route flag stay those the screen was mounted with. |
| Workout.WeightOrDefault | src/screens/ActivityScreen.tsx:303-326 | The profile's weight is used when present and non-zero, otherwise 70 kg. |
| WorkoutProperties.CountdownEffectsStart | src/screens/ActivityScreen.tsx:529-536 | The countdown effect changes `tracking` only by starting it. That happens when the countdown has just become 0, and the countdown is then null and marked started. |
| WorkoutProperties.SettleShape | src/screens/ActivityScreen.tsx:344-355 | The effects do nothing when distance, duration, tracking and paused are unchanged. Otherwise the metrics are current afterwards. |
| WorkoutProperties.HandlePending | src/screens/ActivityScreen.tsx:248 | Every callback appends exactly what it pushes to the played-then-queued sequence. It plays at most the front item. |
| WorkoutProperties.MilestoneCounts | src/screens/ActivityScreen.tsx:378-396 | One run of the effect enqueues at most one last-km and one last-100-m callout, none once the flag is set, and each only inside its window. It enqueues at most one coach reply, and only for a new kilometre. |
| WorkoutProperties.PaceCounts | src/screens/ActivityScreen.tsx:405-425 | The pace effect enqueues no distance callout, and at most one coach reply, only when off pace. |
| WorkoutProperties.ReplyFollowsCallout | src/screens/ActivityScreen.tsx:369-386 | For a new kilometre that enters the final kilometre, the queue grows by the last-km callout followed by the coach reply. |
| WorkoutProperties.MilestonesIdempotent | src/screens/ActivityScreen.tsx:360-397 | Re-running the announcement effect right after itself changes nothing, whatever the new reply. |
| WorkoutProperties.PaceCheckIdempotent | src/screens/ActivityScreen.tsx:405-425 | Re-running the pace effect right after itself changes nothing, whatever the new reply. |
| WorkoutProperties.NavCounts | src/screens/ActivityScreen.tsx:617-639 | The nav effect enqueues no callout and no coach reply. |
| WorkoutProperties.HandleAnnouncements | src/screens/ActivityScreen.tsx:360-425 | With no cancel, the callout flags stay set. Each callout is enqueued at most once per unset flag, and sets that flag. Coach replies never outnumber the kilometres the shared memory advances. |
| WorkoutProperties.StepKeepsDistanceIsPath | src/screens/ActivityScreen.tsx:478-481 | After every event the distance is the length of the recorded path. |
| WorkoutProperties.FixAddsOneLeg | src/screens/ActivityScreen.tsx:472-483 | While tracking, with a non-empty path, a fix adds one point and exactly one leg, paused or not. |
| WorkoutProperties.FixIgnoredWhenIdle | src/screens/ActivityScreen.tsx:461-486 | Before tracking, a fix changes nothing. |
| WorkoutProperties.TickCountsWhileMoving | src/screens/ActivityScreen.tsx:331-342 | A tick adds one second exactly while moving, and changes nothing besides the recording and the metrics. |
| WorkoutProperties.StepKeepsMetricsCurrent | src/screens/ActivityScreen.tsx:344-355 | Pace and calories stay current with distance, duration and weight across every event other than the weight answer. |
| WorkoutProperties.LateWeightIsNotApplied | src/screens/ActivityScreen.tsx:355 | A weight that arrives changes only the stored weight. The calories wait for the next change of distance or duration, because the weight is not a dependency of the effect. |
| WorkoutProperties.PauseThenResume | src/screens/ActivityScreen.tsx:576-577 | From an unpaused state with current metrics, pause only sets `paused`, and pause then resume returns to the same state. |
| WorkoutProperties.BeginShowsTen | src/screens/ActivityScreen.tsx:488-491 | The start button shows the countdown at 10 and records nothing. |
| WorkoutProperties.TickCountsDown | src/screens/ActivityScreen.tsx:538-543 | A countdown tick above 1 lowers the value by 1, keeps `countdownStarted` clear and records nothing. |
| WorkoutProperties.LastTickStarts | src/screens/ActivityScreen.tsx:529-535 | The tick from 1 starts tracking, clears the countdown and hides the modal. |
| WorkoutProperties.CountdownRunsOut | src/screens/ActivityScreen.tsx:521-558 | From any value c ≥ 1, c ticks start tracking and clear the countdown. |
| WorkoutProperties.StartButtonThenTenTicks | src/screens/ActivityScreen.tsx:488-558 | The start button followed by ten ticks leaves the runner tracking. |
| WorkoutProperties.SkipStarts | src/screens/ActivityScreen.tsx:743 | Skip starts tracking at once and clears the countdown. |
| WorkoutProperties.AddTenDelays | src/screens/ActivityScreen.tsx:737 | +10 adds ten seconds (from 0 when null) and records nothing. |
| WorkoutProperties.TrackingStartsOnlyAtZero | src/screens/ActivityScreen.tsx:529-536 | Tracking switches on only through a countdown tick or skip. The countdown is then null and marked started. |
| WorkoutProperties.StepPending | src/screens/ActivityScreen.tsx:427-441 | One event appends exactly its pushes to the played-then-queued sequence. It plays at most the queue's front. |
| WorkoutProperties.SpeakingBlocksQueue | src/screens/ActivityScreen.tsx:429 | While speaking, a poll changes nothing. |
| WorkoutProperties.RunPending | src/screens/ActivityScreen.tsx:427-441 | Over any run, the pending sequence (played followed by queued) only grows at its end, and so does the played log. So utterances are played in the order they were queued, each at most once. |
| WorkoutProperties.SteadyRunAnnouncesOnce | src/screens/ActivityScreen.tsx:360-425 | Within one tracking session without cancel, each final callout is enqueued at most once. The milestone and pace replies together never outnumber the kilometres the shared memory advances. |
| WorkoutProperties.SteadyRunKmGrows | src/screens/ActivityScreen.tsx:369-371 | Within one tracking session without cancel, the kilometre memory never decreases. |
| WorkoutProperties.ShortTargetNoCallouts | src/screens/ActivityScreen.tsx:378-396 | A target of at most 1 km produces neither final callout, since the effect only runs from 1 km on. |
| WorkoutProperties.LastKilometreWindow | src/screens/ActivityScreen.tsx:378-386 | A last-km callout comes only from the announcement effect, inside [target-1, target), with its flag unset. |
| WorkoutProperties.NavCheckAdvances | src/screens/ActivityScreen.tsx:617-639 | A nav check either changes nothing (not near) or, near the next step, advances the index by 1 and enqueues that step's instruction. The instruction contains no tag. |
| WorkoutProperties.StopOutcome | src/screens/ActivityScreen.tsx:167-208 | After stop, tracking is off. Without a user the recording is kept; otherwise it is zeroed. The speech queue is untouched. |
| WorkoutProperties.CancelOutcome | src/screens/ActivityScreen.tsx:561-574 | After cancel, the recording is zeroed, the target pace and kilometre memory are cleared, and the speech queue is untouched. |
| ActivityScreen.CalculateDistance | src/screens/ActivityScreen.tsx:445-459 | The loop computes the path length. |
| ActivityScreen.ExtractPolyline | src/screens/ActivityScreen.tsx:228-242 | The loop computes `StepsPolyline`. |
| ActivityScreen.Tracker.constructor | src/screens/ActivityScreen.tsx:109-150 | The screen starts in `NewSession`, with distance equal to path length. |
| ActivityScreen.Tracker.UpdateMetrics | src/screens/ActivityScreen.tsx:344-355 | The fields become `Recompute` of the old state. |
| ActivityScreen.Tracker.StartTracking | src/screens/ActivityScreen.tsx:461-465 | The fields become `StartTracking` of the old state. |
| ActivityScreen.Tracker.CountdownEffect | src/screens/ActivityScreen.tsx:521-558 | The fields become `CountdownEffects` of the old state. |
| ActivityScreen.Tracker.Commit | src/screens/ActivityScreen.tsx:344-558 | After a callback's own update, the effects React runs (the countdown effects, the reset when tracking changes, the metrics) complete one `Step`, and the distance stays the path's length. |
| ActivityScreen.Tracker.SettleEffects | src/screens/ActivityScreen.tsx:399-403 | The fields become `Settle` of the old state. |
| ActivityScreen.Tracker.OnLocation | src/screens/ActivityScreen.tsx:472-484 | The location callback, with its effects, is one `Step` on `Fix`. The distance stays equal to the path length. |
| ActivityScreen.Tracker.OnTimer | src/screens/ActivityScreen.tsx:333-335 | One `Step` on `Tick`. |
| ActivityScreen.Tracker.AnnounceMilestones | src/screens/ActivityScreen.tsx:360-397 | One `Step` on `Milestones`. The kilometre memory moves first, the final callouts are pushed next, and the reply is pushed last, as its `.then` does. |
| ActivityScreen.Tracker.CheckPace | src/screens/ActivityScreen.tsx:405-425 | One `Step` on `PaceCheck`. |
| ActivityScreen.Tracker.CheckNavigation | src/screens/ActivityScreen.tsx:617-639 | One `Step` on `NavCheck`. |
| ActivityScreen.Tracker.PlayQueue | src/screens/ActivityScreen.tsx:428-433 | One `Step` on `PollQueue`. |
| ActivityScreen.Tracker.SpeechFinished | src/screens/ActivityScreen.tsx:434-436 | One `Step` on `SpeechDone`, which clears `isSpeaking`. |
| ActivityScreen.Tracker.BeginCountdown | src/screens/ActivityScreen.tsx:488-491 | One `Step` on `BeginCountdown`. |
| ActivityScreen.Tracker.CountdownTimeout | src/screens/ActivityScreen.tsx:540-542 | One `Step` on `CountdownTick`. |
| ActivityScreen.Tracker.AddTenSeconds | src/screens/ActivityScreen.tsx:737 | One `Step` on `AddTen`. |
| ActivityScreen.Tracker.Skip | src/screens/ActivityScreen.tsx:743 | One `Step` on `SkipCountdown`. |
| ActivityScreen.Tracker.PauseTracking | src/screens/ActivityScreen.tsx:576 | One `Step` on `Pause`. |
| ActivityScreen.Tracker.ResumeTracking | src/screens/ActivityScreen.tsx:577 | One `Step` on `Resume`. |
| ActivityScreen.Tracker.StopTracking | src/screens/ActivityScreen.tsx:167-208 | The workout inserted is `StopRecord` of the old state, and the fields become one `Step` on `Stop`. |
| ActivityScreen.Tracker.CancelWorkout | src/screens/ActivityScreen.tsx:561-574 | One `Step` on `Cancel`. |
| ActivityScreen.Tracker.OnDirections | src/screens/ActivityScreen.tsx:223-243 | One `Step` on `DirectionsLoaded`. |
| ActivityScreen.Tracker.OnWeight | src/screens/ActivityScreen.tsx:304-326 | One `Step` on `WeightLoaded`. |

## Left out

- Trigonometry: the haversine distance, the bearing and `toRad`/`toDeg` are abstract parameters (`Metric`, `BearingFn`). Properties hold for every such function.
- Floating point: reals are exact. `toFixed(1)` is modelled as the nearest tenth, with halves up (`Workout.Tenths`); binary rounding is not modelled. The `/1e5` degree conversion is exact division.
- Network and backend: Supabase auth, selects and inserts, Google Directions, the OpenAI and ElevenLabs calls. Their answers are parameters: `Option<string>` replies, `StopAuth`, the user id, "insert failed", the decoded polyline answer and the stored profile. The prompt texts and the spoken audio are not modelled.
- `JSON.parse` of the extracted array, and `parseFloat`/`parseInt` of row values: a plan row arrives with its numbers already parsed or absent.
- Device SDKs: Expo Location (permission, current position, the watch subscription), Speech, Audio, Battery and its low-power alert, and the voice-name search. The watch is modelled by `OnFix` doing nothing before tracking starts.
- React scheduling: each callback and each effect run is one atomic event. The announcement, pace and nav effects and the queue poll are separate events sent between callbacks. The countdown effect and the two effects that depend on `tracking`/distance are folded into every step. Time between timer ticks is not modelled.
- Effect order in the commit that switches tracking on: React runs the announcement effect (line 360) before the reset of the kilometre memory and flags (line 399), and the pace effect (line 405) after it. The model applies the reset within the step that changes `tracking`, so the announcement run on the old memory is missing. After a stop without a signed-in user, the distance and pace are kept. A restart can then announce "Letzter Kilometer" and a kilometre reply from the old figures, and repeat them on the next fix. No run of the model shows this.
- OnMilestones: the generator's reply is pushed within the same effect run, after the synchronous callouts. A reply that arrives later (after other pushes, or after stop or cancel) is not modelled, and neither is a failed request.
- Text.JsNumber: exponents (`1e3`), `Infinity`, and `0x`/`0o`/`0b` literals read as NaN (None), where JavaScript's `Number` gives a number. Blanks, one sign, and decimal digits with at most one point are read as `Number` reads them.
- The two automatic-start effects (a route or a training starts the countdown once) and `hasStartedAutomatically`/`autoStarted`: `BeginCountdown` is an event the environment may send, rather than a rule of its own.
- The reset of the announcement memory when `trainingData` changes: the training is fixed for the life of the screen, so only the reset on a change of `tracking` is modelled.
- The screen's `region` and the route builder's map region and current location: these only steer the map display.
- `getDynamicMET(5.0)` is 11 in the code, whereas a band "above 5" would suggest 10 (`Workout.MetBandEdges` states the code's value).
- The speech queue is plain FIFO in the code: no priority lane, no turn detection, no two-per-kilometre limit. Stop and cancel do not clear it, and new directions do not reset the step index. The model follows the code.
- ActivityScreen.Tracker: the state variables and refs are grouped into the records of `Workout.Session`, not held as one field each. Queue items are tagged by origin (`Utterance`); `Words` gives the string the screen pushes.
- SimpleNavigation.FindNextWaypoint, SimpleNavigation.NextWaypoint and SimpleNavigation.NavigationInstruction: on a non-empty route with `lastWaypointIndex` of -10 or less, the source reads `route[i]` at a negative index and throws. The model requires `CanSearch` instead of modelling the exception.
- NavigationUtils.StepCoords: a missing (`null`) step, on which the source throws at `step.latitude`, is not modelled; steps are records with optional coordinates. Non-number coordinate types are modelled as absent.
- WeeklyTrainingView: `NaN` and fractional minutes in `formatTime` are not modelled; minutes are integers. The week computation (`startOfWeek`, the seven day dates) and `isSameDay` are left to the caller as the day predicate `onDay`.
- Polyline: the decoder on unbounded integers agrees with JavaScript's 32-bit `|`, `<<` and `~` only while a value fits in 31 bits, since `>>` reads bit 31 as the sign. Reading past the end of malformed input models `charCodeAt` as chunk 0 and stops.
- CoachScreen: the question texts and select options, rendering past the last step (where `steps[stepIndex]` is undefined; `SkipPastLastStep` states that reachable state), `handleGeneratePlan`'s upsert of the profile, and `handleExtendPlan`'s loading of the last ten rows. The row defaulting of both handlers is modelled once, since the code is the same.
- ProfileScreen: loading the routes, the user header, and `formatDateTime`.
- AuthScreen: the `alert` messages and the error of the auth call.
- The workout name (the training's title, or "Workout vom " with the date) is not part of `WorkoutRecord`, because the fallback depends on the clock and the locale.
