/** The service-status panel: which status style an item gets, the short
    "updated at" note, the area subtitle of a wide-area notice, and the split
    of the items into disrupted and normal lines. */
module Diainfo {
  import opened Text

  datatype DiainfoItem = DiainfoItem(
    railId: Option<string>,
    railName: Option<string>,
    companyName: Option<string>,
    railwayTypeName: Option<string>,
    railAreaName: Option<string>,
    isAreaLevel: Option<bool>,
    status: Option<string>,
    message: Option<string>,
    updateDate: Option<string>)

  /** The four entries of the status style table. */
  datatype StatusKind = Normal | Delay | Stop | Partial

  /** The label each style shows. */
  function Label(k: StatusKind): string {
    match k
    case Normal => "平常"
    case Delay => "遅延"
    case Stop => "運転見合"
    case Partial => "一部遅延"
  }

  /** `status?.toUpperCase() ?? ""` */
  function StatusKey(status: Option<string>): string {
    if status.Some? then ToUpper(status.value) else ""
  }

  /** `statusMeta`: the table entry under the upper-cased status, the normal
      style for an absent status or one the table does not know. */
  function StatusMetaOf(status: Option<string>): StatusKind {
    var key := StatusKey(status);
    if key == "NORMAL" then Normal
    else if key == "DELAY" then Delay
    else if key == "STOP" then Stop
    else if key == "PARTIAL" then Partial
    else Normal
  }

  /** The style is looked up without regard to ASCII case: a status gets
      the delay, stop or partial style exactly when it upper-cases to that
      key, and the normal style otherwise. */
  lemma StatusMetaCases(status: Option<string>)
    ensures StatusMetaOf(status) == Delay <==> status.Some? && ToUpper(status.value) == "DELAY"
    ensures StatusMetaOf(status) == Stop <==> status.Some? && ToUpper(status.value) == "STOP"
    ensures StatusMetaOf(status) == Partial <==> status.Some? && ToUpper(status.value) == "PARTIAL"
    ensures StatusMetaOf(status) == Normal <==>
              status.None? || ToUpper(status.value) !in {"DELAY", "STOP", "PARTIAL"}
  {
  }

  lemma {:induction false} ToUpperMixedCase(s: string, key: string)
    requires |s| == |key|
    requires forall i :: 0 <= i < |key| ==> 'A' <= key[i] <= 'Z'
    requires forall i :: 0 <= i < |s| ==> s[i] == key[i] || s[i] as int == key[i] as int + 32
    ensures ToUpper(s) == key
  {
    if s != [] {
      ToUpperMixedCase(s[1..], key[1..]);
      assert ToUpper(s) == UpperOf(s[0]) + ToUpper(s[1..]);
      assert UpperOf(s[0]) == [key[0]];
    }
  }

  /** "delay", "Delay" and "DELAY" all get the delay style. */
  lemma DelayInAnyCase(s: string)
    requires |s| == 5
    requires forall i :: 0 <= i < 5 ==> s[i] == "DELAY"[i] || s[i] as int == "DELAY"[i] as int + 32
    ensures StatusMetaOf(Some(s)) == Delay
  {
    ToUpperMixedCase(s, "DELAY");
  }

  // -----------------------------------------------------------------------
  // update time

  predicate IsAsciiDigit(c: char) {
    '0' <= c <= '9'
  }

  /** `\d{2}:\d{2}` at position `i`. */
  predicate IsClockAt(s: string, i: int)
    requires 0 <= i && i + 5 <= |s|
  {
    IsAsciiDigit(s[i]) && IsAsciiDigit(s[i + 1]) && s[i + 2] == ':' && IsAsciiDigit(s[i + 3]) && IsAsciiDigit(s[i + 4])
  }

  /** Where the first clock time at or after `i` starts. */
  function FirstClockFrom(s: string, i: nat): (r: Option<nat>)
    ensures r.Some? ==> i <= r.value && r.value + 5 <= |s| && IsClockAt(s, r.value)
    decreases |s| - i
  {
    if i + 5 > |s| then None
    else if IsClockAt(s, i) then Some(i)
    else FirstClockFrom(s, i + 1)
  }

  /** The search is leftmost and misses nothing. */
  lemma {:induction false} FirstClockIsLeftmost(s: string, i: nat)
    ensures var r := FirstClockFrom(s, i);
            && (r.Some? ==> forall j :: i <= j < r.value ==> !IsClockAt(s, j))
            && (r.None? ==> forall j :: i <= j && j + 5 <= |s| ==> !IsClockAt(s, j))
    decreases |s| - i
  {
    if i + 5 <= |s| && !IsClockAt(s, i) {
      FirstClockIsLeftmost(s, i + 1);
    }
  }

  /** `fmtUpdateDate`: the first "HH:mm" in the stamp followed by " 更新",
      or "" when the stamp is absent, empty or has none. */
  function FmtUpdateDate(s: Option<string>): string {
    if !Truthy(s) then ""
    else match FirstClockFrom(s.value, 0)
      case None => ""
      case Some(i) => s.value[i..i + 5] + " 更新"
  }

  /** On the feed's "YYYY-MM-DD HH:mm:ss" stamps the note shows the hour and
      minute, not the minute and second. */
  lemma {:induction false} UpdateNoteOfFeedStamp(date: string, hh: string, mm: string, ss: string)
    requires |date| == 10 && |hh| == 2 && |mm| == 2 && |ss| == 2
    requires forall i :: 0 <= i < 10 ==> (i == 4 || i == 7 <==> date[i] == '-')
    requires forall i :: 0 <= i < 10 && i != 4 && i != 7 ==> IsAsciiDigit(date[i])
    requires IsAsciiDigit(hh[0]) && IsAsciiDigit(hh[1]) && IsAsciiDigit(mm[0]) && IsAsciiDigit(mm[1])
    ensures FmtUpdateDate(Some(date + " " + hh + ":" + mm + ":" + ss)) == hh + ":" + mm + " 更新"
  {
    var s := date + " " + hh + ":" + mm + ":" + ss;
    assert s[10] == ' ' && s[11..13] == hh && s[13] == ':' && s[14..16] == mm;
    forall j | 0 <= j < 11 ensures !IsClockAt(s, j) {
      assert s[j + 2] == (if j + 2 < 10 then date[j + 2] else if j + 2 == 10 then ' ' else hh[j + 2 - 11]);
    }
    FirstClockIsLeftmost(s, 0);
    assert IsClockAt(s, 11);
    assert s[11..16] == hh + ":" + mm;
  }

  // -----------------------------------------------------------------------
  // area subtitle

  /** `parts.join(" ")` */
  function Join(parts: seq<string>, sep: string): string {
    if parts == [] then "" else if |parts| == 1 then parts[0] else parts[0] + sep + Join(parts[1..], sep)
  }

  function SubtitleParts(item: DiainfoItem): seq<string> {
    (if Truthy(item.railAreaName) then [item.railAreaName.value + "エリア"] else [])
    + (if Truthy(item.railwayTypeName) && !Truthy(item.railAreaName) then [item.railwayTypeName.value] else [])
  }

  /** `areaSubtitle`: nothing for a line-level notice; otherwise the area
      with "エリア", or failing that the railway type. */
  function AreaSubtitle(item: DiainfoItem): string {
    if Truthy(item.railName) && item.isAreaLevel != Some(true) then ""
    else Join(SubtitleParts(item), " ")
  }

  /** There is never more than one part, so the subtitle is exactly one of
      the area with its suffix, the railway type, or nothing. */
  lemma AreaSubtitleCases(item: DiainfoItem)
    ensures |SubtitleParts(item)| <= 1
    ensures var sub := AreaSubtitle(item);
            && (Truthy(item.railName) && item.isAreaLevel != Some(true) ==> sub == "")
            && (!(Truthy(item.railName) && item.isAreaLevel != Some(true)) ==>
                  sub == (if Truthy(item.railAreaName) then item.railAreaName.value + "エリア"
                          else if Truthy(item.railwayTypeName) then item.railwayTypeName.value
                          else ""))
  {
  }

  // -----------------------------------------------------------------------
  // disrupted / normal split

  /** `t.status && t.status.toUpperCase() !== "NORMAL"` */
  predicate IsAbnormal(item: DiainfoItem) {
    Truthy(item.status) && ToUpper(item.status.value) != "NORMAL"
  }

  /** `!t.status || t.status.toUpperCase() === "NORMAL"` */
  predicate IsNormal(item: DiainfoItem) {
    !Truthy(item.status) || ToUpper(item.status.value) == "NORMAL"
  }

  /** `items.filter(p)` */
  function Filter<T>(s: seq<T>, p: T -> bool): seq<T> {
    if s == [] then [] else (if p(s[0]) then [s[0]] else []) + Filter(s[1..], p)
  }

  function Abnormal(items: seq<DiainfoItem>): seq<DiainfoItem> {
    Filter(items, IsAbnormal)
  }

  function NormalItems(items: seq<DiainfoItem>): seq<DiainfoItem> {
    Filter(items, IsNormal)
  }

  lemma {:induction false} FilterSides<T>(s: seq<T>, p: T -> bool)
    ensures forall t :: t in Filter(s, p) ==> t in s && p(t)
  {
    if s != [] {
      FilterSides(s[1..], p);
    }
  }

  /** Filtering by a test and by its negation splits a list. */
  lemma {:induction false} FilterSplit<T>(s: seq<T>, p: T -> bool, q: T -> bool)
    requires forall i :: 0 <= i < |s| ==> q(s[i]) == !p(s[i])
    ensures multiset(Filter(s, p)) + multiset(Filter(s, q)) == multiset(s)
  {
    if s != [] {
      var x, rest := s[0], s[1..];
      FilterSplit(rest, p, q);
      assert multiset(s) == multiset{x} + multiset(rest) by {
        assert s == [x] + rest;
      }
      if p(x) {
        assert Filter(s, p) == [x] + Filter(rest, p);
        assert Filter(s, q) == Filter(rest, q);
      } else {
        assert Filter(s, p) == Filter(rest, p);
        assert Filter(s, q) == [x] + Filter(rest, q);
      }
    }
  }

  lemma {:induction false} FilterConcat<T>(a: seq<T>, b: seq<T>, p: T -> bool)
    ensures Filter(a + b, p) == Filter(a, p) + Filter(b, p)
  {
    if a == [] {
      assert a + b == b;
    } else {
      var head: seq<T> := if p(a[0]) then [a[0]] else [];
      var ab := a + b;
      assert ab[0] == a[0];
      assert ab[1..] == a[1..] + b;
      assert Filter(ab, p) == head + Filter(a[1..] + b, p);
      FilterConcat(a[1..], b, p);
      assert Filter(a, p) == head + Filter(a[1..], p);
    }
  }

  /** The two lists split the items: every item lands in exactly one of
      them, so together they hold each item once. */
  lemma SplitIsPartition(items: seq<DiainfoItem>)
    ensures multiset(Abnormal(items)) + multiset(NormalItems(items)) == multiset(items)
    ensures |Abnormal(items)| + |NormalItems(items)| == |items|
    ensures forall t :: t in Abnormal(items) ==> t in items && IsAbnormal(t)
    ensures forall t :: t in NormalItems(items) ==> t in items && !IsAbnormal(t)
  {
    FilterSides(items, IsAbnormal);
    FilterSides(items, IsNormal);
    FilterSplit(items, IsAbnormal, IsNormal);
    assert |multiset(Abnormal(items))| == |Abnormal(items)|;
    assert |multiset(NormalItems(items))| == |NormalItems(items)|;
    assert |multiset(items)| == |items|;
  }

  /** A normal-list item always gets the normal style; a disrupted item with
      a status the table does not know gets it too. */
  lemma NormalItemsLookNormal(item: DiainfoItem)
    ensures IsNormal(item) ==> StatusMetaOf(item.status) == Normal
    ensures IsAbnormal(item) && ToUpper(item.status.value) !in {"DELAY", "STOP", "PARTIAL"} ==>
              StatusMetaOf(item.status) == Normal
  {
  }

  /** The split keeps the feed's order: cutting the feed anywhere and
      splitting the two parts gives the same lists. */
  lemma SplitKeepsOrder(items: seq<DiainfoItem>, i: nat)
    requires i <= |items|
    ensures Abnormal(items[..i]) + Abnormal(items[i..]) == Abnormal(items)
    ensures NormalItems(items[..i]) + NormalItems(items[i..]) == NormalItems(items)
  {
    assert items[..i] + items[i..] == items;
    FilterConcat(items[..i], items[i..], IsAbnormal);
    FilterConcat(items[..i], items[i..], IsNormal);
  }
}
