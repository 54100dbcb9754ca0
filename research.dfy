/** The result list's follow-up searches: one train earlier, one train later,
    and a different sort order, each a copy of the last request with one
    field changed. */
module Research {
  import opened Text
  import opened RouteTypes
  import opened SearchRequests

  /** `addMinsToDateStr`: a stamp that is absent-like ("") or shorter than
      "YYYYMMDDHHmm" is returned unchanged; otherwise the calendar shift is
      applied. The calendar itself (`shift`) is a parameter of the model. */
  function AddMinsToDateStr(dateStr: string, minutes: int, shift: (string, int) -> string): (r: string)
    ensures |dateStr| < 12 ==> r == dateStr
  {
    if dateStr == "" || |dateStr| < 12 then dateStr else shift(dateStr, minutes)
  }

  /** The stamp a neighbouring search starts from: the route's arrival time
      for an "arrive by" search, its departure time otherwise. */
  function TargetTime(req: SearchRequest, route: Route): (r: Option<string>)
    ensures req.searchType == Some(ArriveBy) ==> r == route.arrivalTime
    ensures req.searchType != Some(ArriveBy) ==> r == route.departureTime
  {
    if req.searchType == Some(ArriveBy) then route.arrivalTime else route.departureTime
  }

  /** "One earlier": from the first route's time minus a minute; nothing
      happens when that time is absent or empty. */
  function Earlier(req: SearchRequest, routes: seq<Route>, shift: (string, int) -> string): Option<SearchRequest>
    requires |routes| > 0
  {
    var t := TargetTime(req, routes[0]);
    if Truthy(t) then Some(req.(date := Some(AddMinsToDateStr(t.value, -1, shift)))) else None
  }

  /** "One later": from the last route's time plus a minute. */
  function Later(req: SearchRequest, routes: seq<Route>, shift: (string, int) -> string): Option<SearchRequest>
    requires |routes| > 0
  {
    var t := TargetTime(req, routes[|routes| - 1]);
    if Truthy(t) then Some(req.(date := Some(AddMinsToDateStr(t.value, 1, shift)))) else None
  }

  /** A neighbouring search changes only the date: it is the first (for
      earlier) or last (for later) route's arrival or departure stamp,
      shifted by one minute the corresponding way, and a search is issued
      exactly when that stamp is present and not empty. */
  lemma NeighbourSearches(req: SearchRequest, routes: seq<Route>, shift: (string, int) -> string)
    requires |routes| > 0
    ensures var t := if req.searchType == Some(ArriveBy) then routes[0].arrivalTime else routes[0].departureTime;
            var e := Earlier(req, routes, shift);
            && (e.Some? <==> Truthy(t))
            && (e.Some? ==>
                  e.value.(date := req.date) == req
                  && e.value.date == Some(if |t.value| < 12 then t.value else shift(t.value, -1)))
    ensures var last := routes[|routes| - 1];
            var t := if req.searchType == Some(ArriveBy) then last.arrivalTime else last.departureTime;
            var l := Later(req, routes, shift);
            && (l.Some? <==> Truthy(t))
            && (l.Some? ==>
                  l.value.(date := req.date) == req
                  && l.value.date == Some(if |t.value| < 12 then t.value else shift(t.value, 1)))
  {
  }

  /** With a single route both neighbours start from the same stamp; a stamp
      too short to parse is sent back as it is. */
  lemma SingleRouteNeighbours(req: SearchRequest, route: Route, shift: (string, int) -> string)
    requires Truthy(TargetTime(req, route)) && |TargetTime(req, route).value| < 12
    ensures Earlier(req, [route], shift) == Later(req, [route], shift) == Some(req.(date := TargetTime(req, route)))
  {
  }

  /** The sort buttons: a new search with only the sort changed, unless the
      last search already used that sort. */
  function SortChoice(req: SearchRequest, value: int): Option<SearchRequest> {
    if req.sort != Some(value) then Some(req.(sort := Some(value))) else None
  }

  /** Picking a sort searches at most once: the request it issues already has
      that sort, so picking it again does nothing; everything but the sort
      is kept. */
  lemma SortChoiceSettles(req: SearchRequest, value: int)
    ensures SortChoice(req, value).None? <==> req.sort == Some(value)
    ensures SortChoice(req, value).Some? ==>
              var next := SortChoice(req, value).value;
              next.sort == Some(value) && next.(sort := req.sort) == req && SortChoice(next, value).None?
  {
  }
}
