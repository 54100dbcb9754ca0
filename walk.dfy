/** The fallback view's walk heuristic: when a route carries only a flat list
    of pass-station codes, the walking minutes are put before the first
    station, after the last, or both, by comparing the searched origin and
    destination labels with the resolved names of the end stations. The
    labels then replace the end stations' names on the sides without a walk. */
module WalkBoundary {
  import opened Text
  import opened RouteTypes

  /** `names[code]?.name ?? ""` */
  function NameOf(names: StationNames, code: string): string {
    if code in names then names[code].name else ""
  }

  /** `route.passStation ?? []` */
  function Passes(route: Route): seq<string> {
    route.passStation.GetOr([])
  }

  function FirstStationName(passes: seq<string>, names: StationNames): string {
    if |passes| > 0 then NameOf(names, passes[0]) else ""
  }

  function LastStationName(passes: seq<string>, names: StationNames): string {
    if |passes| > 0 then NameOf(names, passes[|passes| - 1]) else ""
  }

  datatype WalkPlan = WalkPlan(hasEntryWalk: bool, hasExitWalk: bool, entryMinutes: int, exitMinutes: int)

  /** A walk is placed on one side when the searched label is present, the
      station's resolved name is not empty, and the two differ once trimmed. */
  predicate LabelDiffers(given: Option<string>, stationName: string) {
    given.Some? && stationName != "" && Trim(given.value) != Trim(stationName)
  }

  /** The entry/exit classification and the split of the walking minutes,
      both taken over the names as resolved (before any override). */
  function ClassifyWalks(route: Route, fromName: Option<string>, toName: Option<string>, names: StationNames): (p: WalkPlan)
    ensures p.hasEntryWalk && p.hasExitWalk ==>
              p.entryMinutes + p.exitMinutes == route.timeWalk.GetOr(0)
              && p.exitMinutes <= p.entryMinutes <= p.exitMinutes + 1
    ensures p.hasEntryWalk != p.hasExitWalk ==>
              p.entryMinutes + p.exitMinutes == route.timeWalk.GetOr(0)
    ensures !p.hasEntryWalk ==> p.entryMinutes == 0
    ensures !p.hasExitWalk ==> p.exitMinutes == 0
  {
    var timeWalk := route.timeWalk.GetOr(0);
    var passes := Passes(route);
    var entry := timeWalk > 0 && LabelDiffers(fromName, FirstStationName(passes, names));
    var exit := timeWalk > 0 && LabelDiffers(toName, LastStationName(passes, names));
    WalkPlan(entry, exit,
      if entry && exit then (timeWalk + 1) / 2 else if entry then timeWalk else 0,
      if entry && exit then timeWalk / 2 else if exit then timeWalk else 0)
  }

  /** The "total walking time" note is shown when there are walking minutes
      but neither side got a walk. */
  predicate ShowsWalkSummary(route: Route, p: WalkPlan) {
    route.timeWalk.GetOr(0) > 0 && !p.hasEntryWalk && !p.hasExitWalk
  }

  /** Every walking minute is shown exactly once: in the entry walk, the exit
      walk or the summary note; with no walking minutes nothing is shown. */
  lemma WalkMinutesAccounted(route: Route, fromName: Option<string>, toName: Option<string>, names: StationNames)
    ensures var p := ClassifyWalks(route, fromName, toName, names);
            var shown := p.entryMinutes + p.exitMinutes
                         + (if ShowsWalkSummary(route, p) then route.timeWalk.GetOr(0) else 0);
            shown == if route.timeWalk.GetOr(0) > 0 then route.timeWalk.GetOr(0) else 0
  {
  }

  /** Both sides walk: the entry gets ceil(t/2) and the exit floor(t/2). */
  lemma WalkSplitIsCeilFloor(route: Route, fromName: Option<string>, toName: Option<string>, names: StationNames)
    requires var p := ClassifyWalks(route, fromName, toName, names); p.hasEntryWalk && p.hasExitWalk
    ensures var p := ClassifyWalks(route, fromName, toName, names);
            var t := route.timeWalk.GetOr(0);
            2 * p.entryMinutes - 1 <= t <= 2 * p.entryMinutes && 2 * p.exitMinutes <= t <= 2 * p.exitMinutes + 1
  {
  }

  /** An entry walk exists exactly when there are walking minutes, an origin
      label, a non-empty first-station name, and the trimmed two differ; the
      exit walk likewise with the destination and the last station. */
  lemma WalkSides(route: Route, fromName: Option<string>, toName: Option<string>, names: StationNames)
    ensures var p := ClassifyWalks(route, fromName, toName, names);
            var passes := Passes(route);
            && (p.hasEntryWalk <==>
                 route.timeWalk.GetOr(0) > 0 && fromName.Some? && |passes| > 0
                 && NameOf(names, passes[0]) != "" && Trim(fromName.value) != Trim(NameOf(names, passes[0])))
            && (p.hasExitWalk <==>
                 route.timeWalk.GetOr(0) > 0 && toName.Some? && |passes| > 0
                 && NameOf(names, passes[|passes| - 1]) != ""
                 && Trim(toName.value) != Trim(NameOf(names, passes[|passes| - 1])))
  {
  }

  /** Labels that differ from the station names only in surrounding blanks
      (ASCII or ideographic spaces) never make a walk. */
  lemma {:induction false} NoWalkWhenNamesMatch(route: Route, fromName: Option<string>, toName: Option<string>, names: StationNames)
    requires |Passes(route)| > 0
    requires fromName.Some? && Trim(fromName.value) == Trim(FirstStationName(Passes(route), names))
    requires toName.Some? && Trim(toName.value) == Trim(LastStationName(Passes(route), names))
    ensures var p := ClassifyWalks(route, fromName, toName, names);
            !p.hasEntryWalk && !p.hasExitWalk && p.entryMinutes == 0 && p.exitMinutes == 0
  {
  }

  // -----------------------------------------------------------------------
  // endpoint-name override

  /** `{ ...names[code], name }`: a missing entry becomes a bare name. */
  function Renamed(names: StationNames, code: string, name: string): StationNameInfo {
    if code in names then names[code].(name := name) else StationNameInfo(name, None, None, None, None)
  }

  predicate OverridesFirst(passes: seq<string>, fromName: Option<string>, p: WalkPlan) {
    |passes| > 0 && Truthy(fromName) && !p.hasEntryWalk
  }

  predicate OverridesLast(passes: seq<string>, toName: Option<string>, p: WalkPlan) {
    |passes| > 0 && Truthy(toName) && !p.hasExitWalk
  }

  /** `resolvedNames`: the origin label replaces the first station's name
      unless there is an entry walk, then the destination label replaces the
      last station's name unless there is an exit walk. */
  function ResolvedNames(passes: seq<string>, names: StationNames, fromName: Option<string>, toName: Option<string>, p: WalkPlan): StationNames
  {
    var afterFirst := if OverridesFirst(passes, fromName, p) then names[passes[0] := Renamed(names, passes[0], fromName.value)] else names;
    if OverridesLast(passes, toName, p) then afterFirst[passes[|passes| - 1] := Renamed(afterFirst, passes[|passes| - 1], toName.value)] else afterFirst
  }

  /** Everything but the name is as the lookup returned it (all absent when
      the lookup returned nothing for that code). */
  predicate SameButName(info: StationNameInfo, names: StationNames, code: string) {
    if code in names then info.(name := "") == names[code].(name := "")
    else info.(name := "") == StationNameInfo("", None, None, None, None)
  }

  /** What the override changes: only the entries of the first and last
      codes, only on a side without a walk, only their names; the destination
      label wins when the first and last codes coincide. */
  lemma {:induction false} NameOverride(passes: seq<string>, names: StationNames, fromName: Option<string>, toName: Option<string>, p: WalkPlan)
    ensures var r := ResolvedNames(passes, names, fromName, toName, p);
            && (forall c :: c in r && c !in names ==> |passes| > 0 && (c == passes[0] || c == passes[|passes| - 1]))
            && (forall c :: c in names ==> c in r)
            && (forall c :: c in names && (|passes| == 0 || (c != passes[0] && c != passes[|passes| - 1])) ==> r[c] == names[c])
            && (OverridesLast(passes, toName, p) ==>
                  r[passes[|passes| - 1]].name == toName.value && SameButName(r[passes[|passes| - 1]], names, passes[|passes| - 1]))
            && (OverridesFirst(passes, fromName, p) && !(OverridesLast(passes, toName, p) && passes[0] == passes[|passes| - 1]) ==>
                  r[passes[0]].name == fromName.value && SameButName(r[passes[0]], names, passes[0]))
            && (!OverridesFirst(passes, fromName, p) && !OverridesLast(passes, toName, p) ==> r == names)
  {
    var r := ResolvedNames(passes, names, fromName, toName, p);
    if |passes| > 0 {
      var first, last := passes[0], passes[|passes| - 1];
      var afterFirst := if OverridesFirst(passes, fromName, p) then names[first := Renamed(names, first, fromName.value)] else names;
      assert SameButName(Renamed(names, first, "x"), names, first);
      if OverridesFirst(passes, fromName, p) {
        assert SameButName(afterFirst[first], names, first);
      }
      if OverridesLast(passes, toName, p) {
        assert r[last] == Renamed(afterFirst, last, toName.value);
        assert SameButName(r[last], names, last);
      }
    }
  }

  /** The override never changes a station's line or company, so the line
      vote reads the same data before and after it. */
  lemma OverrideKeepsLines(passes: seq<string>, names: StationNames, fromName: Option<string>, toName: Option<string>, p: WalkPlan, c: string)
    ensures var r := ResolvedNames(passes, names, fromName, toName, p);
            && (c in r && r[c].railName.Some? <==> c in names && names[c].railName.Some?)
            && (c in names && names[c].railName.Some? ==> r[c].railName == names[c].railName)
            && (c in r ==> r[c].companyName == (if c in names then names[c].companyName else None))
  {
    NameOverride(passes, names, fromName, toName, p);
  }
}
