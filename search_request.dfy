/** The route-search request the web client sends to its server. Optional
    text fields are absent rather than empty. */
module SearchRequests {
  import opened Text

  /** `searchType` is the request's `type` field (4 means "arrive by"). */
  datatype SearchRequest = SearchRequest(
    from: string,
    to: string,
    fcode: Option<string>,
    tcode: Option<string>,
    fromType: Option<string>,
    toType: Option<string>,
    date: Option<string>,
    via: Option<string>,
    searchType: Option<int>,
    sort: Option<int>,
    rosentype: Option<int>)

  /** The `type` value of an "arrive by" search. */
  const ArriveBy: int := 4
}
