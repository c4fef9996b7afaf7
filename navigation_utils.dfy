/** Helpers for following a Google Directions step list
    (src/utils/navigationUtils.ts): the closest step, snapping a position to a
    route, and the German text of a step. Distances here are in kilometres. */
module NavigationUtils {
  import opened Wrappers
  import opened Geo

  // ---------------------------------------------------------------------------
  // Closest step

  /** A loosely typed step: either a Directions step whose `start_location`
      may carry numeric `lat`/`lng`, or a plain point with numeric
      `latitude`/`longitude`. None stands for a missing or non-numeric field. */
  datatype StepLike = StepLike(startLat: Option<real>, startLng: Option<real>,
                               latitude: Option<real>, longitude: Option<real>)

  /** The coordinates the search uses for a step: `start_location` first,
      then the top-level fields; None when neither pair is numeric. */
  function StepCoords(step: StepLike): (r: Option<LatLng>)
    ensures step.startLat.Some? && step.startLng.Some? ==>
              r == Some(LatLng(step.startLat.value, step.startLng.value))
    ensures r.None? <==> (step.startLat.None? || step.startLng.None?) &&
                         (step.latitude.None? || step.longitude.None?)
  {
    if step.startLat.Some? && step.startLng.Some? then Some(LatLng(step.startLat.value, step.startLng.value))
    else if step.latitude.Some? && step.longitude.Some? then Some(LatLng(step.latitude.value, step.longitude.value))
    else None
  }

  /** The distance from `current` to each step, None for a step that is skipped. */
  function StepDistances(dist: Metric, current: LatLng, steps: seq<StepLike>): (ds: seq<Option<real>>)
    ensures |ds| == |steps|
    ensures forall i :: 0 <= i < |steps| ==>
              ds[i] == if StepCoords(steps[i]).None? then None else Some(dist(current, StepCoords(steps[i]).value))
  {
    seq(|steps|, i requires 0 <= i < |steps| =>
      if StepCoords(steps[i]).None? then None else Some(dist(current, StepCoords(steps[i]).value)))
  }

  /** k is the first of the valid entries with the least value. */
  predicate IsFirstValidMin(ds: seq<Option<real>>, k: int) {
    0 <= k < |ds| && ds[k].Some? &&
    (forall j :: 0 <= j < |ds| && ds[j].Some? ==> ds[k].value <= ds[j].value) &&
    (forall j :: 0 <= j < k && ds[j].Some? ==> ds[k].value < ds[j].value)
  }

  predicate NoValid(ds: seq<Option<real>>) {
    forall j :: 0 <= j < |ds| ==> ds[j].None?
  }

  /** findClosestStepIndex. A missing or empty list, or one without a usable
      step, gives 0. */
  method FindClosestStepIndex(dist: Metric, current: LatLng, steps: Option<seq<StepLike>>)
    returns (idx: nat)
    ensures steps.None? || steps.value == [] ==> idx == 0
    ensures steps.Some? && NoValid(StepDistances(dist, current, steps.value)) ==> idx == 0
    ensures steps.Some? && !NoValid(StepDistances(dist, current, steps.value)) ==>
              IsFirstValidMin(StepDistances(dist, current, steps.value), idx)
  {
    if steps.None? || |steps.value| == 0 {
      return 0;
    }
    var ss := steps.value;
    ghost var ds := StepDistances(dist, current, ss);
    var minDist: Option<real> := None;  // Infinity
    idx := 0;
    for i := 0 to |ss|
      invariant minDist.None? ==> idx == 0 && NoValid(ds[..i])
      invariant minDist.Some? ==> IsFirstValidMin(ds[..i], idx) && minDist == ds[idx]
    {
      var c := StepCoords(ss[i]);
      if c.None? {
        continue;  // skip invalid
      }
      var d := dist(current, c.value);
      if minDist.None? || d < minDist.value {
        minDist := Some(d);
        idx := i;
      }
    }
    assert ds[..|ss|] == ds;
  }

  /** snapToRoute: the first route point closest to `current`. On an empty
      route the source returns `route[0]`, that is `undefined`. */
  method SnapToRoute(dist: Metric, current: LatLng, route: seq<LatLng>) returns (closest: Option<LatLng>)
    ensures route == [] ==> closest == None
    ensures route != [] ==> closest == Some(route[FirstMin(DistancesFrom(dist, current, route), 0, |route|)])
  {
    if route == [] {
      return None;
    }
    ghost var ds := DistancesFrom(dist, current, route);
    var minDist: Option<real> := None;  // Infinity
    var k := 0;
    for i := 0 to |route|
      invariant i == 0 ==> minDist.None? && k == 0
      invariant i > 0 ==> k == FirstMin(ds, 0, i) && minDist == Some(ds[k])
    {
      var d := dist(current, route[i]);
      if minDist.None? || d < minDist.value {
        minDist := Some(d);
        k := i;
      }
    }
    closest := Some(route[k]);
  }

  /** The snapped point is at least as close as every route point. */
  lemma SnapIsClosest(dist: Metric, current: LatLng, route: seq<LatLng>, j: int)
    requires 0 <= j < |route|
    ensures var k := FirstMin(DistancesFrom(dist, current, route), 0, |route|);
            dist(current, route[k]) <= dist(current, route[j])
  {
    var ds := DistancesFrom(dist, current, route);
    var k := FirstMin(ds, 0, |route|);
    assert ds[k] <= ds[j];
  }

  // ---------------------------------------------------------------------------
  // Removing HTML tags: `s.replace(/<[^>]+>/g, '')`

  /** The first index at or after `from` holding c. */
  function IndexOf(s: string, c: char, from: nat): (r: Option<nat>)
    ensures r.Some? ==> from <= r.value < |s| && s[r.value] == c && c !in s[from..r.value]
    ensures r.None? ==> from >= |s| || c !in s[from..]
    decreases |s| - from
  {
    if from >= |s| then None
    else if s[from] == c then Some(from)
    else
      var r := IndexOf(s, c, from + 1);
      assert r.Some? ==> s[from..r.value] == [s[from]] + s[from + 1..r.value];
      assert from + 1 <= |s| ==> s[from..] == [s[from]] + s[from + 1..];
      r
  }

  /** Where the tag that opens at s[0] closes: the first '>' after it, when at
      least one character lies between. */
  function TagEnd(s: string): (r: Option<nat>)
    requires s != [] && s[0] == '<'
    ensures r.Some? ==> 2 <= r.value < |s| && s[r.value] == '>' && '>' !in s[1..r.value]
    ensures r.None? ==> (|s| >= 2 && s[1] == '>') || '>' !in s[1..]
  {
    match IndexOf(s, '>', 1)
    case Some(j) => if j >= 2 then Some(j) else None
    case None => None
  }

  /** No tag is left: after every '<' the first '>', if any, comes right away. */
  predicate NoTag(r: string) {
    forall i, j :: 0 <= i && i + 1 < j < |r| && r[i] == '<' && r[j] == '>' ==> '>' in r[i + 1..j]
  }

  /** The regular-expression replace, scanning left to right and resuming
      after each removed tag. */
  function StripTags(s: string): (r: string)
    ensures forall i :: 0 <= i < |r| ==> r[i] in s
    ensures |r| <= |s|
    ensures '<' !in s ==> r == s
    decreases |s|
  {
    if s == [] then []
    else if s[0] == '<' && TagEnd(s).Some? then
      var r := StripTags(s[TagEnd(s).value + 1..]);
      assert forall i :: 0 <= i < |r| ==> r[i] in s[TagEnd(s).value + 1..];
      r
    else
      var rest := StripTags(s[1..]);
      assert forall i :: 0 <= i < |rest| ==> rest[i] in s[1..];
      [s[0]] + rest
  }

  /** What stripping leaves contains no tag. */
  lemma {:induction false} StripTagsLeavesNoTag(s: string)
    ensures NoTag(StripTags(s))
    decreases |s|
  {
    if s == [] {
    } else if s[0] == '<' && TagEnd(s).Some? {
      StripTagsLeavesNoTag(s[TagEnd(s).value + 1..]);
    } else {
      var rest := StripTags(s[1..]);
      StripTagsLeavesNoTag(s[1..]);
      if s[0] == '<' {
        if |s| >= 2 && s[1] == '>' {
          assert rest[0] == '>';
        } else {
          assert '>' !in s[1..];
          assert '>' !in rest;
        }
      }
      NoTagCons(s[0], rest);
    }
  }

  /** Putting a character in front keeps a string tag-free, unless it opens a
      tag that a later '>' closes. */
  lemma NoTagCons(c: char, rest: string)
    requires NoTag(rest)
    requires c == '<' ==> (rest != [] && rest[0] == '>') || '>' !in rest
    ensures NoTag([c] + rest)
  {
    var r := [c] + rest;
    forall i, j | 0 <= i && i + 1 < j < |r| && r[i] == '<' && r[j] == '>'
      ensures '>' in r[i + 1..j]
    {
      NoTagConsPair(c, rest, i, j);
    }
  }

  lemma NoTagConsPair(c: char, rest: string, i: int, j: int)
    requires NoTag(rest)
    requires c == '<' ==> (rest != [] && rest[0] == '>') || '>' !in rest
    requires 0 <= i && i + 1 < j < |rest| + 1 && ([c] + rest)[i] == '<' && ([c] + rest)[j] == '>'
    ensures '>' in ([c] + rest)[i + 1..j]
  {
    assert ([c] + rest)[j] == rest[j - 1];
    if i == 0 {
      NoTagConsFront(c, rest, j);
    } else {
      assert ([c] + rest)[i] == rest[i - 1];
      NoTagConsLater(c, rest, i, j);
    }
  }

  lemma NoTagConsFront(c: char, rest: string, j: int)
    requires c == '<' ==> (rest != [] && rest[0] == '>') || '>' !in rest
    requires c == '<' && 1 < j <= |rest| && rest[j - 1] == '>'
    ensures '>' in ([c] + rest)[1..j]
  {
    assert rest[j - 1] in rest;
    assert ([c] + rest)[1..j][0] == rest[0];
  }

  lemma NoTagConsLater(c: char, rest: string, i: int, j: int)
    requires NoTag(rest)
    requires 0 < i && i + 1 < j <= |rest| && rest[i - 1] == '<' && rest[j - 1] == '>'
    ensures '>' in ([c] + rest)[i + 1..j]
  {
    assert '>' in rest[i..j - 1];
    assert ([c] + rest)[i + 1..j] == rest[i..j - 1];
  }

  lemma NoTagSuffix(s: string)
    requires s != [] && NoTag(s)
    ensures NoTag(s[1..])
  {
    forall i, j | 0 <= i && i + 1 < j < |s| - 1 && s[1..][i] == '<' && s[1..][j] == '>'
      ensures '>' in s[1..][i + 1..j]
    {
      assert s[1..][i + 1..j] == s[i + 2..j + 1];
    }
  }

  /** A string without tags is left as it is; so stripping twice is stripping once. */
  lemma {:induction false} StripTagsFixpoint(s: string)
    requires NoTag(s)
    ensures StripTags(s) == s
    decreases |s|
  {
    if s != [] {
      if s[0] == '<' && TagEnd(s).Some? {
        assert false;
      } else {
        NoTagSuffix(s);
        StripTagsFixpoint(s[1..]);
      }
    }
  }

  lemma StripTagsIdempotent(s: string)
    ensures StripTags(StripTags(s)) == StripTags(s)
  {
    StripTagsLeavesNoTag(s);
    StripTagsFixpoint(StripTags(s));
  }

  // ---------------------------------------------------------------------------
  // Replacing the first occurrence: `s.replace(pattern, replacement)`

  /** `pat` occurs in s at index j. */
  predicate OccursAt(s: string, pat: string, j: int) {
    0 <= j && j + |pat| <= |s| && s[j..j + |pat|] == pat
  }

  /** The first index at or after `from` where `pat` occurs. */
  function FindFrom(s: string, pat: string, from: nat): (r: Option<nat>)
    requires |pat| > 0
    ensures r.Some? ==> from <= r.value && OccursAt(s, pat, r.value)
    ensures r.Some? ==> forall j :: from <= j < r.value ==> !OccursAt(s, pat, j)
    ensures r.None? ==> forall j :: from <= j ==> !OccursAt(s, pat, j)
    decreases |s| - from
  {
    if from + |pat| > |s| then None
    else if s[from..from + |pat|] == pat then Some(from)
    else FindFrom(s, pat, from + 1)
  }

  /** `s.replace(pat, rep)` with a string pattern: only the first occurrence
      is replaced, a string without one is returned unchanged. */
  function ReplaceFirst(s: string, pat: string, rep: string): (r: string)
    requires |pat| > 0
    ensures (forall j :: !OccursAt(s, pat, j)) ==> r == s
    ensures forall i :: OccursAt(s, pat, i) && (forall j :: 0 <= j < i ==> !OccursAt(s, pat, j)) ==>
              r == s[..i] + rep + s[i + |pat|..]
  {
    match FindFrom(s, pat, 0)
    case None => s
    case Some(i) =>
      assert forall i' :: OccursAt(s, pat, i') && (forall j :: 0 <= j < i' ==> !OccursAt(s, pat, j)) ==> i' == i;
      s[..i] + rep + s[i + |pat|..]
  }

  // ---------------------------------------------------------------------------
  // German instructions

  /** The table `maneuverToGerman`. */
  const ManeuverToGerman: map<string, string> := map[
    "turn-right" := "Rechts abbiegen",
    "turn-left" := "Links abbiegen",
    "straight" := "Geradeaus weiter",
    "turn-slight-right" := "Leicht rechts abbiegen",
    "turn-slight-left" := "Leicht links abbiegen",
    "keep-right" := "Rechts halten",
    "keep-left" := "Links halten",
    "ramp-right" := "Rechts auf die Rampe",
    "ramp-left" := "Links auf die Rampe",
    "fork-right" := "An der Gabelung rechts halten",
    "fork-left" := "An der Gabelung links halten",
    "merge" := "Einfädeln",
    "roundabout-left" := "Im Kreisverkehr links abbiegen",
    "roundabout-right" := "Im Kreisverkehr rechts abbiegen",
    "uturn-left" := "Wenden nach links",
    "uturn-right" := "Wenden nach rechts",
    "depart" := "Starte",
    "arrive" := "Ziel erreicht"
  ]

  /** The English phrases replaced, in the order they are tried. */
  const Replacements: seq<(string, string)> := [
    ("Turn right", "Rechts abbiegen"),
    ("Turn left", "Links abbiegen"),
    ("Continue", "Geradeaus weiter"),
    ("Head", "Starte in Richtung"),
    ("Destination will be on the right", "Das Ziel befindet sich rechts"),
    ("Destination will be on the left", "Das Ziel befindet sich links")
  ]

  /** What getGermanInstruction reads of a step; None is a missing field. */
  datatype InstructionStep = InstructionStep(maneuver: Option<string>, htmlInstructions: Option<string>)

  /** Applies the replacements from index k on, left to right. */
  function ReplaceFrom(s: string, k: nat): string
    requires k <= |Replacements|
    decreases |Replacements| - k
  {
    if k == |Replacements| then s
    else ReplaceFrom(ReplaceFirst(s, Replacements[k].0, Replacements[k].1), k + 1)
  }

  /** The tag-free, translated text of the html instructions ('' when absent). */
  function TranslatedHtml(step: Option<InstructionStep>): string {
    var html := if step.Some? && step.value.htmlInstructions.Some? then StripTags(step.value.htmlInstructions.value) else "";
    ReplaceFrom(html, 0)
  }

  /** getGermanInstruction: a step whose maneuver is in the table gets exactly
      the table's text; any other step the cleaned-up html text; the result
      is never empty. */
  function GermanInstruction(step: Option<InstructionStep>): (r: string)
    ensures step.Some? && step.value.maneuver.Some? && step.value.maneuver.value in ManeuverToGerman ==>
              r == ManeuverToGerman[step.value.maneuver.value]
    ensures !(step.Some? && step.value.maneuver.Some? && step.value.maneuver.value in ManeuverToGerman) ==>
              r == if TranslatedHtml(step) == "" then "Weiterlaufen" else TranslatedHtml(step)
    ensures r != []
  {
    if step.Some? && step.value.maneuver.Some? && step.value.maneuver.value in ManeuverToGerman then
      ManeuverToGerman[step.value.maneuver.value]
    else
      var instruction := TranslatedHtml(step);
      if instruction == "" then "Weiterlaufen" else instruction
  }

  /** A known maneuver wins whatever the html says. */
  lemma ManeuverIgnoresHtml(m: string, h1: Option<string>, h2: Option<string>)
    requires m in ManeuverToGerman
    ensures GermanInstruction(Some(InstructionStep(Some(m), h1))) ==
            GermanInstruction(Some(InstructionStep(Some(m), h2)))
  {
  }
}
