/** The fallback route view end to end: classify the walks, override the end
    stations' names, rebuild the segments over the overridden names, then
    flag the bus segments. */
module FallbackView {
  import opened Text
  import opened RouteTypes
  import opened WalkBoundary
  import opened FallbackSegments

  /** Two name tables that agree on every station's line and company. */
  ghost predicate SameLines(a: StationNames, b: StationNames) {
    forall c :: RailOf(a, c) == RailOf(b, c) && CompanyOf(a, c) == CompanyOf(b, c)
  }

  /** The endpoint-name override keeps every line and company. */
  lemma OverrideSameLines(passes: seq<string>, names: StationNames, fromName: Option<string>, toName: Option<string>, p: WalkPlan)
    ensures SameLines(ResolvedNames(passes, names, fromName, toName, p), names)
  {
    forall c {
      OverrideKeepsLines(passes, names, fromName, toName, p, c);
    }
  }

  lemma {:induction false} ChangePointsFromSameLines(a: StationNames, b: StationNames, passes: seq<string>, i: int)
    requires SameLines(a, b)
    ensures ChangePointsFrom(a, passes, i) == ChangePointsFrom(b, passes, i)
    decreases |passes| - i
  {
    if i < |passes| - 2 {
      assert IsChangePoint(a, passes, i) == IsChangePoint(b, passes, i);
      ChangePointsFromSameLines(a, b, passes, i + 1);
    }
  }

  /** The line vote and the change points only read lines and companies, so
      they come out the same over either table. */
  lemma {:induction false} SameLinesSameSegments(a: StationNames, b: StationNames, passes: seq<string>, transfer: Option<int>, seg: TrainSegment)
    requires SameLines(a, b)
    ensures Splits(a, passes, transfer) == Splits(b, passes, transfer)
    ensures VotedOver(a, passes, seg) <==> VotedOver(b, passes, seg)
    ensures forall codes: seq<string> {:trigger Rails(a, codes)} ::
              Rails(a, codes) == Rails(b, codes) && Companies(a, codes) == Companies(b, codes)
  {
    ChangePointsFromSameLines(a, b, passes, 1);
    forall codes: seq<string> ensures Rails(a, codes) == Rails(b, codes) && Companies(a, codes) == Companies(b, codes) {
    }
    if forall j :: 0 <= j < |seg.stationIndices| ==> 0 <= seg.stationIndices[j] < |passes| {
      var codes := CodesAt(passes, seg.stationIndices);
      assert Rails(a, codes) == Rails(b, codes) && Companies(a, codes) == Companies(b, codes);
    }
  }

  /** The fallback view of one route: the walk plan over the looked-up
      names, and the segments rebuilt over the overridden names and then
      flagged. The segments partition the stations at the first `transfer`
      change points, cycle through the colour slots, carry the majority line
      of their own stations as looked up, and are buses exactly when their
      company name says so. */
  method FallbackSegmentsOf(route: Route, fromName: Option<string>, toName: Option<string>, names: StationNames)
    returns (plan: WalkPlan, resolved: StationNames, segs: seq<TrainSegment>)
    ensures plan == ClassifyWalks(route, fromName, toName, names)
    ensures resolved == ResolvedNames(Passes(route), names, fromName, toName, plan)
    ensures Passes(route) == [] ==> segs == []
    ensures Passes(route) != [] ==> Indices(segs) == Partition(Splits(names, Passes(route), route.transfer), |Passes(route)|)
    ensures forall k :: 0 <= k < |segs| ==> segs[k].colorIdx == k % TrackColorCount
    ensures forall k :: 0 <= k < |segs| ==> (segs[k].isBus <==> IsBusName(segs[k].companyName.GetOr("")))
    ensures route.transfer.GetOr(0) != 0 ==> forall k :: 0 <= k < |segs| ==> VotedOver(names, Passes(route), segs[k])
    ensures Passes(route) != [] && route.transfer.GetOr(0) == 0 ==>
              var interior := Slice(Passes(route), 1, -1);
              IsDominant(Rails(names, interior), Companies(names, interior), LineOf(segs[0]))
  {
    var passes := Passes(route);
    plan := ClassifyWalks(route, fromName, toName, names);
    resolved := ResolvedNames(passes, names, fromName, toName, plan);
    OverrideSameLines(passes, names, fromName, toName, plan);
    var built := BuildSegments(resolved, passes, route.transfer);
    forall k | 0 <= k < |built| ensures VotedOver(resolved, passes, built[k]) <==> VotedOver(names, passes, built[k]) {
      SameLinesSameSegments(resolved, names, passes, route.transfer, built[k]);
    }
    SameLinesSameSegments(resolved, names, passes, route.transfer, TrainSegment(None, None, 0, [], false));
    segs := FlagBuses(built);
    forall k | 0 <= k < |segs| ensures VotedOver(names, passes, segs[k]) <==> VotedOver(names, passes, built[k]) {
      assert LineOf(segs[k]) == LineOf(built[k]);
    }
    assert Passes(route) != [] ==> Indices(segs) == Indices(built);
  }
}
