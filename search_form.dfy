/** The search form: suggestion lists, the station-code bookkeeping of the
    origin and destination fields, swapping them, and turning the fields into
    a search request. */
module StationForm {
  import opened Text
  import opened SearchRequests
  import opened History
  import opened TimeFormat

  // -----------------------------------------------------------------------
  // suggestions

  datatype SuggestStation = SuggestStation(id: Option<string>, name: string, stationType: Option<string>)
  datatype SuggestSpot = SuggestSpot(id: Option<string>, name: string)
  datatype SuggestResult = SuggestResult(stations: Option<seq<SuggestStation>>, spots: Option<seq<SuggestSpot>>)

  /** One row of the suggestion list. */
  datatype SuggestItem = StationItem(station: SuggestStation) | SpotItem(spot: SuggestSpot) {
    function Name(): string {
      match this
      case StationItem(s) => s.name
      case SpotItem(s) => s.name
    }
  }

  const MaxStationRows: nat := 6
  const MaxSpotRows: nat := 4

  function StationRows(stations: seq<SuggestStation>): seq<SuggestItem> {
    seq(|stations|, i requires 0 <= i < |stations| => StationItem(stations[i]))
  }

  function SpotRows(spots: seq<SuggestSpot>): seq<SuggestItem> {
    seq(|spots|, i requires 0 <= i < |spots| => SpotItem(spots[i]))
  }

  /** `flatItems`: no rows without a result; otherwise the first six
      stations, then the first four spots. */
  function FlatItems(results: Option<SuggestResult>): seq<SuggestItem> {
    if results.None? then []
    else StationRows(Slice(results.value.stations.GetOr([]), 0, MaxStationRows))
         + SpotRows(Slice(results.value.spots.GetOr([]), 0, MaxSpotRows))
  }

  lemma SlicePrefix<T>(s: seq<T>, n: nat)
    ensures Slice(s, 0, n) == s[..if |s| < n then |s| else n]
  {
  }

  /** The list holds the leading stations (at most six) in order, then the
      leading spots (at most four) in order, and nothing else. */
  lemma FlatItemsLayout(results: SuggestResult)
    ensures var rows := FlatItems(Some(results));
            var st := results.stations.GetOr([]);
            var sp := results.spots.GetOr([]);
            var ns := if |st| < MaxStationRows then |st| else MaxStationRows;
            var np := if |sp| < MaxSpotRows then |sp| else MaxSpotRows;
            && |rows| == ns + np
            && (forall i :: 0 <= i < ns ==> rows[i] == StationItem(st[i]))
            && (forall i :: 0 <= i < np ==> rows[ns + i] == SpotItem(sp[i]))
            && (forall i, j :: 0 <= i < j < |rows| && rows[j].StationItem? ==> rows[i].StationItem?)
  {
    SlicePrefix(results.stations.GetOr([]), MaxStationRows);
    SlicePrefix(results.spots.GetOr([]), MaxSpotRows);
  }

  /** The code a picked suggestion records: its id, "" when it has none. */
  function SelectedCode(item: SuggestItem): (r: string)
    ensures item.StationItem? && item.station.id.Some? ==> r == item.station.id.value
    ensures item.SpotItem? && item.spot.id.Some? ==> r == item.spot.id.value
    ensures (item.StationItem? && item.station.id.None?) || (item.SpotItem? && item.spot.id.None?) ==> r == ""
  {
    match item
    case StationItem(s) => s.id.GetOr("")
    case SpotItem(s) => s.id.GetOr("")
  }

  /** The kind a picked suggestion records: "spot" for a spot; for a station
      its own type, "st" when it has none. */
  function SelectedType(item: SuggestItem): (r: string)
    ensures item.SpotItem? ==> r == "spot"
    ensures item.StationItem? && item.station.stationType.None? ==> r == "st"
    ensures item.StationItem? && item.station.stationType.Some? ==> r == item.station.stationType.value
  {
    match item
    case SpotItem(_) => "spot"
    case StationItem(s) => s.stationType.GetOr("st")
  }

  // -----------------------------------------------------------------------
  // date field

  predicate IsDateSeparator(c: char) {
    c == '-' || c == ':' || c == 'T'
  }

  /** `replace(/[-:T]/g, "")` */
  function StripSeparators(s: string): (r: string)
    ensures |r| <= |s|
    ensures forall i :: 0 <= i < |r| ==> !IsDateSeparator(r[i])
  {
    if s == [] then []
    else (if IsDateSeparator(s[0]) then [] else [s[0]]) + StripSeparators(s[1..])
  }

  lemma {:induction false} StripSeparatorsAppend(a: string, b: string)
    ensures StripSeparators(a + b) == StripSeparators(a) + StripSeparators(b)
  {
    if a == [] {
      assert a + b == b;
    } else {
      assert (a + b)[1..] == a[1..] + b;
      StripSeparatorsAppend(a[1..], b);
    }
  }

  lemma {:induction false} StripSeparatorsKeeps(s: string)
    requires forall i :: 0 <= i < |s| ==> !IsDateSeparator(s[i])
    ensures StripSeparators(s) == s
  {
    if s != [] {
      StripSeparatorsKeeps(s[1..]);
    }
  }

  /** The compact "YYYYMMDDHHmm" stamp sent as the request date. */
  function CompactDate(datetime: string): (r: string)
    ensures |r| <= 12 && forall i :: 0 <= i < |r| ==> !IsDateSeparator(r[i])
  {
    Slice(StripSeparators(datetime), 0, 12)
  }

  predicate AllDigits(s: string) {
    forall i :: 0 <= i < |s| ==> '0' <= s[i] <= '9'
  }

  lemma {:induction false} StripFieldSep(a: string, c: char, rest: string)
    requires AllDigits(a) && IsDateSeparator(c)
    ensures StripSeparators(a + [c] + rest) == a + StripSeparators(rest)
    decreases |a|
  {
    if a == [] {
      assert a + [c] + rest == [c] + rest;
      assert ([c] + rest)[1..] == rest;
    } else {
      assert !IsDateSeparator(a[0]);
      assert (a + [c] + rest)[1..] == a[1..] + [c] + rest;
      StripFieldSep(a[1..], c, rest);
      assert a == [a[0]] + a[1..];
    }
  }

  /** The picker's "YYYY-MM-DDTHH:mm" value becomes "YYYYMMDDHHmm", which the
      route view's clock formatter reads back as "HH:mm". */
  /** Removing the separators of a picker value leaves its five fields. */
  lemma {:induction false} StripPickerValue(y: string, mo: string, d: string, h: string, mi: string)
    requires AllDigits(y) && AllDigits(mo) && AllDigits(d) && AllDigits(h) && AllDigits(mi)
    ensures StripSeparators(y + "-" + mo + "-" + d + "T" + h + ":" + mi) == y + mo + d + h + mi
  {
    var r3 := h + ":" + mi;
    var r2 := d + "T" + r3;
    var r1 := mo + "-" + r2;
    assert y + "-" + mo + "-" + d + "T" + h + ":" + mi == y + "-" + r1;
    StripSeparatorsKeeps(mi);
    StripFieldSep(h, ':', mi);
    assert StripSeparators(r3) == h + mi;
    StripFieldSep(d, 'T', r3);
    assert StripSeparators(r2) == d + (h + mi);
    StripFieldSep(mo, '-', r2);
    assert StripSeparators(r1) == mo + (d + (h + mi));
    StripFieldSep(y, '-', r1);
    assert y + (mo + (d + (h + mi))) == y + mo + d + h + mi;
  }

  lemma {:induction false} CompactDateOfPickerValue(y: string, mo: string, d: string, h: string, mi: string)
    requires |y| == 4 && |mo| == 2 && |d| == 2 && |h| == 2 && |mi| == 2
    requires AllDigits(y) && AllDigits(mo) && AllDigits(d) && AllDigits(h) && AllDigits(mi)
    ensures CompactDate(y + "-" + mo + "-" + d + "T" + h + ":" + mi) == y + mo + d + h + mi
    ensures FmtDateStr(Some(CompactDate(y + "-" + mo + "-" + d + "T" + h + ":" + mi))) == h + ":" + mi
  {
    StripPickerValue(y, mo, d, h, mi);
    var c := y + mo + d + h + mi;
    assert |c| == 12;
    assert c[8..10] == h && c[10..12] == mi;
  }

  /** Compacting twice is compacting once. */
  lemma CompactDateIdempotent(datetime: string)
    ensures CompactDate(CompactDate(datetime)) == CompactDate(datetime)
  {
    StripSeparatorsKeeps(CompactDate(datetime));
  }

  // -----------------------------------------------------------------------
  // form state

  /** A snapshot of the form's fields. */
  datatype FormFields = FormFields(
    from: string, to: string,
    fromCode: string, fromType: string,
    toCode: string, toType: string,
    via: string, datetime: string,
    searchType: int, sort: int, rosentype: int)

  /** `swap`: origin and destination exchange their text, code and kind. */
  function Swapped(f: FormFields): (r: FormFields)
    ensures r.(from := f.from, to := f.to, fromCode := f.fromCode, fromType := f.fromType,
               toCode := f.toCode, toType := f.toType) == f
  {
    f.(from := f.to, to := f.from, fromCode := f.toCode, fromType := f.toType,
       toCode := f.fromCode, toType := f.fromType)
  }

  lemma SwapTwice(f: FormFields)
    ensures Swapped(Swapped(f)) == f
  {
  }

  /** `handleSubmit`: nothing without both an origin and a destination;
      otherwise the request, with the compact date and empty optional text
      fields left out. */
  function RequestOf(f: FormFields): Option<SearchRequest> {
    if f.from == "" || f.to == "" then None
    else Some(SearchRequest(
      f.from, f.to,
      NoneIfEmpty(f.fromCode), NoneIfEmpty(f.toCode),
      NoneIfEmpty(f.fromType), NoneIfEmpty(f.toType),
      Some(CompactDate(f.datetime)), NoneIfEmpty(f.via),
      Some(f.searchType), Some(f.sort), Some(f.rosentype)))
  }

  /** A request is sent exactly when both ends are filled in; it never
      carries an empty optional text field, and its date is compact. */
  lemma RequestShape(f: FormFields)
    ensures RequestOf(f).Some? <==> f.from != "" && f.to != ""
    ensures RequestOf(f).Some? ==>
              var r := RequestOf(f).value;
              && r.from == f.from && r.to == f.to
              && r.fcode != Some("") && r.tcode != Some("") && r.fromType != Some("")
              && r.toType != Some("") && r.via != Some("")
              && r.date.Some? && |r.date.value| <= 12
              && (r.fcode.Some? <==> f.fromCode != "") && (r.tcode.Some? <==> f.toCode != "")
  {
  }

  /** Submitting after a swap sends the swapped request: ends, codes and
      kinds exchanged, everything else the same. */
  lemma SubmitAfterSwap(f: FormFields)
    ensures RequestOf(Swapped(f)).Some? <==> RequestOf(f).Some?
    ensures RequestOf(f).Some? ==>
              var r := RequestOf(f).value;
              RequestOf(Swapped(f)) == Some(r.(from := r.to, to := r.from, fcode := r.tcode, tcode := r.fcode,
                                                fromType := r.toType, toType := r.fromType))
  {
  }

  /** Every request the form sends has both ends filled in, so the search it
      starts always records the pair at the head of the history. */
  lemma SubmittedPairIsRecorded(f: FormFields, prev: seq<HistoryEntry>)
    requires RequestOf(f).Some?
    ensures var r := RequestOf(f).value;
            var h := WithAdded(prev, r.from, r.to);
            |h| >= 1 && h[0] == HistoryEntry(f.from, f.to)
  {
    AddedComesFirst(prev, f.from, f.to);
  }

  class SearchForm {
    var from: string
    var to: string
    var fromCode: string
    var fromType: string
    var toCode: string
    var toType: string
    var via: string
    var datetime: string
    var searchType: int
    var sort: int
    var rosentype: int

    function Fields(): FormFields
      reads this
    {
      FormFields(from, to, fromCode, fromType, toCode, toType, via, datetime, searchType, sort, rosentype)
    }

    /** The initial state: the ends from the page's query, no codes, the
        current local time in the picker, type 1, sort 0, line type 0. */
    constructor (initialFrom: string, initialTo: string, now: string)
      ensures Fields() == FormFields(initialFrom, initialTo, "", "", "", "", "", now, 1, 0, 0)
    {
      from, to := initialFrom, initialTo;
      fromCode, fromType, toCode, toType := "", "", "", "";
      via, datetime := "", now;
      searchType, sort, rosentype := 1, 0, 0;
    }

    method Swap()
      modifies this
      ensures Fields() == Swapped(old(Fields()))
    {
      from, to := to, from;
      fromCode, toCode := toCode, fromCode;
      fromType, toType := toType, fromType;
    }

    /** Typing in the origin field: the text changes and the code and kind
        picked earlier are dropped. */
    method EditFrom(v: string)
      modifies this
      ensures Fields() == old(Fields()).(from := v, fromCode := "", fromType := "")
    {
      from := v;
      // mirrors the handler resetting an already empty code, which changes nothing
      if fromCode == "" {
        fromCode := "";
      }
      fromCode, fromType := "", "";
    }

    method EditTo(v: string)
      modifies this
      ensures Fields() == old(Fields()).(to := v, toCode := "", toType := "")
    {
      to := v;
      // mirrors the handler resetting an already empty code, which changes nothing
      if toCode == "" {
        toCode := "";
      }
      toCode, toType := "", "";
    }

    /** Typing in the via field: it has no code. */
    method EditVia(v: string)
      modifies this
      ensures Fields() == old(Fields()).(via := v)
    {
      via := v;
    }

    /** Picking a suggestion for the origin: its name, code and kind. */
    method SelectFrom(item: SuggestItem)
      modifies this
      ensures Fields() == old(Fields()).(from := item.Name(), fromCode := SelectedCode(item), fromType := SelectedType(item))
    {
      from := item.Name();
      // picking first fires the typing handler, whose reset of an empty code changes nothing
      if fromCode == "" {
        fromCode := "";
      }
      fromCode, fromType := SelectedCode(item), SelectedType(item);
    }

    method SelectTo(item: SuggestItem)
      modifies this
      ensures Fields() == old(Fields()).(to := item.Name(), toCode := SelectedCode(item), toType := SelectedType(item))
    {
      to := item.Name();
      // picking first fires the typing handler, whose reset of an empty code changes nothing
      if toCode == "" {
        toCode := "";
      }
      toCode, toType := SelectedCode(item), SelectedType(item);
    }

    /** Picking a recent search: both ends as text, with no codes. */
    method PickHistory(h: HistoryEntry)
      modifies this
      ensures Fields() == old(Fields()).(from := h.from, to := h.to, fromCode := "", fromType := "", toCode := "", toType := "")
    {
      from, to := h.from, h.to;
      fromCode, fromType := "", "";
      toCode, toType := "", "";
    }

    method Submit() returns (req: Option<SearchRequest>)
      ensures req == RequestOf(Fields())
    {
      if from == "" || to == "" {
        return None;
      }
      var date := Slice(StripSeparators(datetime), 0, 12);
      req := Some(SearchRequest(
        from, to,
        if fromCode == "" then None else Some(fromCode),
        if toCode == "" then None else Some(toCode),
        if fromType == "" then None else Some(fromType),
        if toType == "" then None else Some(toType),
        Some(date),
        if via == "" then None else Some(via),
        Some(searchType), Some(sort), Some(rosentype)));
    }
  }

  /** A code survives into the request only if it came from a picked
      suggestion: typing over a field, or taking a recent search, sends the
      text alone. */
  lemma CodesFollowSelection(f: FormFields, v: string, item: SuggestItem, h: HistoryEntry)
    ensures var typed := RequestOf(f.(from := v, fromCode := "", fromType := ""));
            typed.Some? ==> typed.value.fcode.None? && typed.value.fromType.None? && typed.value.from == v
    ensures var picked := RequestOf(f.(from := item.Name(), fromCode := SelectedCode(item), fromType := SelectedType(item)));
            picked.Some? ==>
              && picked.value.from == item.Name()
              && (SelectedType(item) != "" ==> picked.value.fromType == Some(SelectedType(item)))
              && (SelectedCode(item) != "" ==> picked.value.fcode == Some(SelectedCode(item)))
    ensures var recalled := RequestOf(f.(from := h.from, to := h.to, fromCode := "", fromType := "", toCode := "", toType := ""));
            && (recalled.Some? <==> h.from != "" && h.to != "")
            && (recalled.Some? ==> recalled.value.fcode.None? && recalled.value.tcode.None?
                                   && recalled.value.fromType.None? && recalled.value.toType.None?)
  {
  }
}
