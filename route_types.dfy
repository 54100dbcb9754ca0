/** The records the web client receives from its server for one route search:
    resolved station identities, Edge-based segments and stops, and the route
    itself. Only the fields the display logic reads are kept. */
module RouteTypes {
  import opened Text

  /** What the station-name lookup returns for one opaque station code. */
  datatype StationNameInfo = StationNameInfo(
    name: string,
    railName: Option<string>,
    companyName: Option<string>,
    yomi: Option<string>,
    platformNo: Option<string>)

  type StationNames = map<string, StationNameInfo>

  /** One stop of a precise (Edge-based) segment; times are "HH:mm". */
  datatype RouteStop = RouteStop(
    name: string,
    code: Option<string>,
    arrivalTime: Option<string>,
    departureTime: Option<string>)

  /** One precise segment: a walk or a ride on one line. */
  datatype RouteSegment = RouteSegment(
    railName: string,
    color: Option<string>,
    isWalk: bool,
    walkLabel: Option<string>,
    departureTime: Option<string>,
    arrivalTime: Option<string>,
    departureTrackNumber: Option<string>,
    arrivalTrackNumber: Option<string>,
    destination: Option<string>,
    trainNo: Option<string>,
    trainKind: Option<string>,
    numOfCar: Option<string>,
    stops: seq<RouteStop>)

  /** One route candidate as the client sees it. Times are "YYYYMMDDHHmm". */
  datatype Route = Route(
    totaltime: Option<int>,
    timeWalk: Option<int>,
    transfer: Option<int>,
    passStation: Option<seq<string>>,
    departureTime: Option<string>,
    arrivalTime: Option<string>,
    segments: Option<seq<RouteSegment>>)

  /** The bus test both views apply to a line or company name: it contains
      the katakana "バス", or "bus" once lower-cased. */
  predicate IsBusName(s: string) {
    Includes(s, "バス") || Includes(ToLower(s), "bus")
  }

  lemma ToLowerAppend(a: string, b: string)
    ensures ToLower(a + b) == ToLower(a) + ToLower(b)
  {
    if a != [] {
      assert (a + b)[1..] == a[1..] + b;
      ToLowerAppend(a[1..], b);
    } else {
      assert a + b == b;
    }
  }

  /** "bus" is recognised in any mix of ASCII case, wherever it stands. */
  lemma {:induction false} BusInAnyCase(prefix: string, marker: string, suffix: string)
    requires |marker| == 3
    requires marker[0] in "bB" && marker[1] in "uU" && marker[2] in "sS"
    ensures IsBusName(prefix + marker + suffix)
  {
    ToLowerAppend(prefix + marker, suffix);
    ToLowerAppend(prefix, marker);
    assert ToLower(marker) == LowerOf(marker[0]) + ToLower(marker[1..]);
    assert ToLower(marker[1..]) == LowerOf(marker[1]) + ToLower(marker[2..]);
    assert ToLower(marker[2..]) == LowerOf(marker[2]) + ToLower(marker[3..]);
    assert ToLower(marker) == "bus";
    var low := ToLower(prefix + marker + suffix);
    assert low == ToLower(prefix) + "bus" + ToLower(suffix);
    var i := |ToLower(prefix)|;
    assert low[i..i + 3] == "bus";
    IncludesAt(low, "bus", i);
  }
}
