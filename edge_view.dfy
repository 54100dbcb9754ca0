/** The precise (Edge-based) segment view: which segments are rides, where
    the "departure" and "arrival" badges go, which stop shows the searched
    origin or destination label, which time a stop shows, where a transfer
    marker is drawn and what a walk leg is labelled with. */
module EdgeView {
  import opened Text
  import opened RouteTypes

  /** Indices of the first `n` segments that are not walks. */
  function TrainIndicesBelow(segments: seq<RouteSegment>, n: nat): seq<int>
    requires n <= |segments|
  {
    if n == 0 then []
    else TrainIndicesBelow(segments, n - 1) + (if !segments[n - 1].isWalk then [n - 1] else [])
  }

  /** `segments.map((_s, i) => i).filter((i) => !segments[i].isWalk)` */
  function TrainIndices(segments: seq<RouteSegment>): seq<int> {
    TrainIndicesBelow(segments, |segments|)
  }

  /** The ride indices are exactly the non-walk segments, in increasing order. */
  lemma {:induction false} TrainIndicesExact(segments: seq<RouteSegment>, n: nat)
    requires n <= |segments|
    ensures var ti := TrainIndicesBelow(segments, n);
            && (forall i :: i in ti <==> 0 <= i < n && !segments[i].isWalk)
            && (forall k, l :: 0 <= k < l < |ti| ==> ti[k] < ti[l])
            && (forall k :: 0 <= k < |ti| ==> 0 <= ti[k] < n)
  {
    if n > 0 {
      TrainIndicesExact(segments, n - 1);
    }
  }

  /** `trainIndices[0] ?? -1` */
  function FirstTrainIdx(segments: seq<RouteSegment>): int {
    var ti := TrainIndices(segments);
    if ti == [] then -1 else ti[0]
  }

  /** `trainIndices[trainIndices.length - 1] ?? -1` */
  function LastTrainIdx(segments: seq<RouteSegment>): int {
    var ti := TrainIndices(segments);
    if ti == [] then -1 else ti[|ti| - 1]
  }

  predicate AnyWalk(segments: seq<RouteSegment>) {
    exists i :: 0 <= i < |segments| && segments[i].isWalk
  }

  predicate HasWalkBeforeFirstTrain(segments: seq<RouteSegment>) {
    var first := FirstTrainIdx(segments);
    first > 0 && AnyWalk(Slice(segments, 0, first))
  }

  predicate HasWalkAfterLastTrain(segments: seq<RouteSegment>) {
    var last := LastTrainIdx(segments);
    last >= 0 && last < |segments| - 1 && AnyWalk(Slice(segments, last + 1, |segments|))
  }

  /** The first and last ride: -1 when there is none, otherwise the lowest and
      the highest index of a segment that is not a walk. */
  lemma TrainBounds(segments: seq<RouteSegment>)
    ensures var first, last := FirstTrainIdx(segments), LastTrainIdx(segments);
            && (first == -1 <==> forall i :: 0 <= i < |segments| ==> segments[i].isWalk)
            && (first == -1 <==> last == -1)
            && (first != -1 ==>
                  0 <= first <= last < |segments| && !segments[first].isWalk && !segments[last].isWalk
                  && (forall i :: 0 <= i < first ==> segments[i].isWalk)
                  && (forall i :: last < i < |segments| ==> segments[i].isWalk))
  {
    var ti := TrainIndices(segments);
    TrainIndicesExact(segments, |segments|);
    if ti != [] {
      assert ti[0] in ti && ti[|ti| - 1] in ti;
    }
  }

  /** Everything before the first ride and after the last is a walk, so the
      two `some(isWalk)` tests only ask whether the route starts, or ends,
      with something other than a ride. */
  lemma {:induction false} WalkFlagsSimplify(segments: seq<RouteSegment>)
    ensures HasWalkBeforeFirstTrain(segments) <==> FirstTrainIdx(segments) > 0
    ensures HasWalkAfterLastTrain(segments) <==> 0 <= LastTrainIdx(segments) < |segments| - 1
  {
    TrainBounds(segments);
    var first, last := FirstTrainIdx(segments), LastTrainIdx(segments);
    if first > 0 {
      assert Slice(segments, 0, first)[0] == segments[0];
    }
    if 0 <= last < |segments| - 1 {
      assert Slice(segments, last + 1, |segments|)[0] == segments[last + 1];
    }
  }

  /** `si > 0 && !segments[si - 1].isWalk`, drawn above a ride. */
  predicate TransferMarker(segments: seq<RouteSegment>, si: int)
    requires 0 <= si < |segments|
  {
    si > 0 && !segments[si - 1].isWalk
  }

  /** A transfer marker sits exactly between two consecutive rides, so never
      above the first ride. */
  lemma TransferMarkerBetweenRides(segments: seq<RouteSegment>, si: int)
    requires 0 <= si < |segments| && !segments[si].isWalk
    ensures TransferMarker(segments, si) <==> si - 1 in TrainIndices(segments)
    ensures si == FirstTrainIdx(segments) ==> !TransferMarker(segments, si)
  {
    TrainIndicesExact(segments, |segments|);
    TrainBounds(segments);
  }

  predicate IsRouteFirst(segments: seq<RouteSegment>, si: int, k: int) {
    si == FirstTrainIdx(segments) && k == 0 && !HasWalkBeforeFirstTrain(segments)
  }

  predicate IsRouteLast(segments: seq<RouteSegment>, si: int, k: int)
    requires 0 <= si < |segments|
  {
    si == LastTrainIdx(segments) && k == |segments[si].stops| - 1 && !HasWalkAfterLastTrain(segments)
  }

  /** The "departure" badge goes on the first stop of segment 0 when that
      segment is a ride, and nowhere else; the "arrival" badge on the last
      stop of the last segment when that is a ride. */
  lemma {:induction false} RouteEndsAtRideEnds(segments: seq<RouteSegment>, si: int, k: int)
    requires 0 <= si < |segments|
    ensures IsRouteFirst(segments, si, k) <==> si == 0 && !segments[0].isWalk && k == 0
    ensures IsRouteLast(segments, si, k) <==>
              si == |segments| - 1 && !segments[si].isWalk && k == |segments[si].stops| - 1
  {
    WalkFlagsSimplify(segments);
    TrainBounds(segments);
  }

  /** The name shown for stop `k` of ride `si`: the origin label at the
      route's first stop, else the destination label at its last stop (each
      only when given and not empty), else the stop's own name. */
  function DisplayName(segments: seq<RouteSegment>, si: int, k: int, fromName: Option<string>, toName: Option<string>): string
    requires 0 <= si < |segments| && 0 <= k < |segments[si].stops|
  {
    if IsRouteFirst(segments, si, k) && Truthy(fromName) then fromName.value
    else if IsRouteLast(segments, si, k) && Truthy(toName) then toName.value
    else segments[si].stops[k].name
  }

  /** The searched labels replace a stop's name only at the two ends of the
      whole route, and only when those ends are rides; at a one-stop route
      the origin label wins. */
  lemma {:induction false} LabelsOnlyAtRouteEnds(segments: seq<RouteSegment>, si: int, k: int, fromName: Option<string>, toName: Option<string>)
    requires 0 <= si < |segments| && 0 <= k < |segments[si].stops|
    ensures var shown := DisplayName(segments, si, k, fromName, toName);
            && (si == 0 && k == 0 && !segments[0].isWalk && Truthy(fromName) ==> shown == fromName.value)
            && ((si == |segments| - 1 && k == |segments[si].stops| - 1 && !segments[si].isWalk && Truthy(toName)
                   && !(si == 0 && k == 0 && Truthy(fromName))) ==> shown == toName.value)
            && (!(si == 0 && k == 0 && !segments[0].isWalk) &&
                !(si == |segments| - 1 && k == |segments[si].stops| - 1 && !segments[si].isWalk) ==>
                  shown == segments[si].stops[k].name)
  {
    RouteEndsAtRideEnds(segments, si, k);
  }

  /** The time shown at a stop: departure first except at a segment's last
      stop, where arrival comes first; a first stop that is also the last
      counts as first. */
  function StopTime(stop: RouteStop, isFirst: bool, isLast: bool): (r: Option<string>)
    ensures r.None? <==> stop.departureTime.None? && stop.arrivalTime.None?
    ensures r.Some? ==> r == stop.departureTime || r == stop.arrivalTime
    ensures !isFirst && isLast && stop.arrivalTime.Some? ==> r == stop.arrivalTime
    ensures (isFirst || !isLast) && stop.departureTime.Some? ==> r == stop.departureTime
  {
    if isFirst then (if stop.departureTime.Some? then stop.departureTime else stop.arrivalTime)
    else if isLast then (if stop.arrivalTime.Some? then stop.arrivalTime else stop.departureTime)
    else (if stop.departureTime.Some? then stop.departureTime else stop.arrivalTime)
  }

  /** `a || b` over optional strings: `a` when truthy, else `b` as it is. */
  function Or(a: Option<string>, b: Option<string>): (r: Option<string>)
    ensures Truthy(a) ==> r == a
    ensures !Truthy(a) ==> r == b
  {
    if Truthy(a) then a else b
  }

  function FirstStopName(seg: RouteSegment): Option<string> {
    if |seg.stops| > 0 then Some(seg.stops[0].name) else None
  }

  function LastStopName(seg: RouteSegment): Option<string> {
    if |seg.stops| > 0 then Some(seg.stops[|seg.stops| - 1].name) else None
  }

  /** Where a walk leg starts: its exit label, else its first stop's name,
      else, for the route's first segment only, the origin label. */
  function WalkFrom(segments: seq<RouteSegment>, si: int, fromName: Option<string>): Option<string>
    requires 0 <= si < |segments|
  {
    Or(segments[si].walkLabel, Or(FirstStopName(segments[si]), if si == 0 then fromName else None))
  }

  /** Where a walk leg ends: its last stop's name, else, for the route's last
      segment only, the destination label. */
  function WalkTo(segments: seq<RouteSegment>, si: int, toName: Option<string>): Option<string>
    requires 0 <= si < |segments|
  {
    Or(LastStopName(segments[si]), if si == |segments| - 1 then toName else None)
  }

  /** The labels fall back to the searched names only at the route's two
      ends: a walk in the middle with no label and no stops is unlabelled,
      and an exit label always wins at the start of a walk. */
  lemma WalkEndpointsFallBack(segments: seq<RouteSegment>, si: int, fromName: Option<string>, toName: Option<string>)
    requires 0 <= si < |segments|
    ensures Truthy(segments[si].walkLabel) ==> WalkFrom(segments, si, fromName) == segments[si].walkLabel
    ensures var seg := segments[si];
            !Truthy(seg.walkLabel) && (|seg.stops| == 0 || seg.stops[0].name == "") ==>
              WalkFrom(segments, si, fromName) == (if si == 0 then fromName else None)
    ensures var seg := segments[si];
            |seg.stops| == 0 || seg.stops[|seg.stops| - 1].name == "" ==>
              WalkTo(segments, si, toName) == (if si == |segments| - 1 then toName else None)
    ensures Truthy(WalkFrom(segments, si, fromName)) ==>
              Truthy(segments[si].walkLabel) || (|segments[si].stops| > 0 && segments[si].stops[0].name != "")
              || (si == 0 && Truthy(fromName))
  {
  }

  /** The ride header shows a bus icon when the line name says bus. */
  predicate RideIsBus(seg: RouteSegment) {
    IsBusName(seg.railName)
  }
}
