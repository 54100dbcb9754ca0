/** Fallback segment reconstruction of the route view (`buildSegments`): a
    route that has only a flat list of pass-station codes and a transfer count
    is cut into train segments at the first line-name change points between
    interior stations, and each segment's line is re-voted by majority. */
module FallbackSegments {
  import opened Text
  import opened RouteTypes

  /** Number of entries of the track colour table the segments cycle through. */
  const TrackColorCount: nat := 4

  /** One reconstructed segment: its voted line, its colour slot, the indices
      into the pass-station list it covers, and whether it is a bus. */
  datatype TrainSegment = TrainSegment(
    railName: Option<string>,
    companyName: Option<string>,
    colorIdx: int,
    stationIndices: seq<int>,
    isBus: bool)

  /** The result of the majority vote; both absent when no station has a line. */
  datatype LineInfo = LineInfo(railName: Option<string>, companyName: Option<string>)

  function LineOf(seg: TrainSegment): LineInfo {
    LineInfo(seg.railName, seg.companyName)
  }

  /** `names[code]?.railName`, "" standing for absent (both are falsy). */
  function RailOf(names: StationNames, code: string): string {
    if code in names && names[code].railName.Some? then names[code].railName.value else ""
  }

  /** `names[code]?.companyName` */
  function CompanyOf(names: StationNames, code: string): Option<string> {
    if code in names then names[code].companyName else None
  }

  function Rails(names: StationNames, codes: seq<string>): (r: seq<string>)
    ensures |r| == |codes| && forall i :: 0 <= i < |codes| ==> r[i] == RailOf(names, codes[i])
  {
    seq(|codes|, i requires 0 <= i < |codes| => RailOf(names, codes[i]))
  }

  function Companies(names: StationNames, codes: seq<string>): (r: seq<Option<string>>)
    ensures |r| == |codes| && forall i :: 0 <= i < |codes| ==> r[i] == CompanyOf(names, codes[i])
  {
    seq(|codes|, i requires 0 <= i < |codes| => CompanyOf(names, codes[i]))
  }

  // -----------------------------------------------------------------------
  // majority vote

  /** How many times `x` occurs in `s`. */
  function Count(s: seq<string>, x: string): nat {
    if s == [] then 0 else Count(s[..|s| - 1], x) + (if s[|s| - 1] == x then 1 else 0)
  }

  /** Where `x` first occurs in `s`. */
  function FirstIndex(s: seq<string>, x: string): (r: nat)
    requires x in s
    ensures r < |s| && s[r] == x && forall j :: 0 <= j < r ==> s[j] != x
  {
    if s[0] == x then 0 else 1 + FirstIndex(s[1..], x)
  }

  /** `dominantLine`'s promise: the line is one with the largest number of
      stations among the stations that have a line, the earliest-seen one on a
      tie, and its company is the company of the first station seen on it;
      nothing is chosen when no station has a line. */
  predicate IsDominant(rails: seq<string>, companies: seq<Option<string>>, info: LineInfo)
    requires |rails| == |companies|
  {
    match info.railName
    case None => info.companyName.None? && forall i :: 0 <= i < |rails| ==> rails[i] == ""
    case Some(rn) =>
      && rn != "" && rn in rails
      && (forall i :: 0 <= i < |rails| && rails[i] != "" ==> Count(rails, rails[i]) <= Count(rails, rn))
      && (forall i :: 0 <= i < FirstIndex(rails, rn) && rails[i] != "" ==> Count(rails, rails[i]) < Count(rails, rn))
      && info.companyName == companies[FirstIndex(rails, rn)]
  }

  /** The vote has exactly one outcome. */
  lemma {:induction false} DominantIsUnique(rails: seq<string>, companies: seq<Option<string>>, a: LineInfo, b: LineInfo)
    requires |rails| == |companies|
    requires IsDominant(rails, companies, a) && IsDominant(rails, companies, b)
    ensures a == b
  {
    if a.railName.Some? && b.railName.Some? {
      var x, y := a.railName.value, b.railName.value;
      var ix, iy := FirstIndex(rails, x), FirstIndex(rails, y);
      assert Count(rails, rails[ix]) <= Count(rails, y);
      assert Count(rails, rails[iy]) <= Count(rails, x);
    }
  }

  lemma CountSnoc(s: seq<string>, y: string, x: string)
    ensures Count(s + [y], x) == Count(s, x) + (if y == x then 1 else 0)
  {
    assert (s + [y])[..|s|] == s;
  }

  /** The dictionary `counts` after the stations whose lines are `seen`: one
      entry per line seen, holding how often it was seen and the company of
      the first station seen on it; `order` is the dictionary's entry order. */
  ghost predicate Tally(seen: seq<string>, companies: seq<Option<string>>,
                        counts: map<string, nat>, company: map<string, Option<string>>, order: seq<string>)
    requires |seen| <= |companies|
  {
    && KeysAreSeenLines(seen, counts)
    && CountsAreCounts(seen, counts)
    && CompaniesAreFirst(seen, companies, counts, company)
    && OrderIsFirstSeen(seen, counts, order)
  }

  ghost predicate KeysAreSeenLines(seen: seq<string>, counts: map<string, nat>) {
    forall rn :: rn in counts <==> rn != "" && rn in seen
  }

  ghost predicate CountsAreCounts(seen: seq<string>, counts: map<string, nat>) {
    forall rn :: rn in counts ==> counts[rn] == Count(seen, rn)
  }

  ghost predicate CompaniesAreFirst(seen: seq<string>, companies: seq<Option<string>>,
                                    counts: map<string, nat>, company: map<string, Option<string>>)
    requires |seen| <= |companies|
  {
    forall rn :: rn in counts ==> rn in seen && rn in company && company[rn] == companies[FirstIndex(seen, rn)]
  }

  ghost predicate OrderIsFirstSeen(seen: seq<string>, counts: map<string, nat>, order: seq<string>) {
    && (forall k :: 0 <= k < |order| ==> order[k] in counts && order[k] in seen)
    && (forall rn :: rn in counts ==> rn in order)
    && (forall k, l :: 0 <= k < l < |order| ==> FirstIndex(seen, order[k]) < FirstIndex(seen, order[l]))
  }

  lemma CountAbsent(s: seq<string>, x: string)
    requires x !in s
    ensures Count(s, x) == 0
  {
    if s != [] {
      assert x !in s[..|s| - 1];
      CountAbsent(s[..|s| - 1], x);
    }
  }

  lemma FirstIndexSnoc(s: seq<string>, y: string, x: string)
    requires x in s
    ensures x in s + [y] && FirstIndex(s + [y], x) == FirstIndex(s, x)
  {
    var i := FirstIndex(s, x);
    var t := s + [y];
    assert t[i] == x;
    forall j | 0 <= j < i ensures t[j] != x {
      assert t[j] == s[j];
    }
  }

  lemma FirstIndexOfNew(s: seq<string>, y: string)
    requires y !in s
    ensures y in s + [y] && FirstIndex(s + [y], y) == |s|
  {
    var t := s + [y];
    assert t[|s|] == y;
  }

  /** Appending a station keeps where every earlier line was first seen. */
  lemma CompaniesStepOld(seen: seq<string>, companies: seq<Option<string>>, y: string,
                         counts: map<string, nat>, company: map<string, Option<string>>)
    requires |seen| < |companies| && CompaniesAreFirst(seen, companies, counts, company)
    ensures CompaniesAreFirst(seen + [y], companies, counts, company)
  {
    forall x | x in seen { FirstIndexSnoc(seen, y, x); }
  }

  lemma OrderStepOld(seen: seq<string>, y: string, counts: map<string, nat>, order: seq<string>)
    requires OrderIsFirstSeen(seen, counts, order)
    ensures OrderIsFirstSeen(seen + [y], counts, order)
  {
    forall x | x in seen { FirstIndexSnoc(seen, y, x); }
  }

  /** A station without a line leaves the tally as it is. */
  lemma TallyStepBlank(seen: seq<string>, companies: seq<Option<string>>,
                       counts: map<string, nat>, company: map<string, Option<string>>, order: seq<string>)
    requires |seen| < |companies|
    requires Tally(seen, companies, counts, company, order)
    ensures Tally(seen + [""], companies, counts, company, order)
  {
    assert CountsAreCounts(seen + [""], counts) by {
      forall x { CountSnoc(seen, "", x); }
    }
    CompaniesStepOld(seen, companies, "", counts, company);
    OrderStepOld(seen, "", counts, order);
  }

  /** A line seen again gets one more. */
  lemma TallyStepSeen(seen: seq<string>, companies: seq<Option<string>>, rn: string,
                      counts: map<string, nat>, company: map<string, Option<string>>, order: seq<string>)
    requires |seen| < |companies| && rn in counts
    requires Tally(seen, companies, counts, company, order)
    ensures Tally(seen + [rn], companies, counts[rn := counts[rn] + 1], company, order)
  {
    assert rn in seen;
    assert CountsAreCounts(seen + [rn], counts[rn := counts[rn] + 1]) by {
      forall x { CountSnoc(seen, rn, x); }
    }
    CompaniesStepOld(seen, companies, rn, counts, company);
    OrderStepOld(seen, rn, counts, order);
  }

  lemma CountsStepNew(seen: seq<string>, rn: string, counts: map<string, nat>)
    requires rn !in seen && CountsAreCounts(seen, counts)
    ensures CountsAreCounts(seen + [rn], counts[rn := 1])
  {
    forall x { CountSnoc(seen, rn, x); }
    CountAbsent(seen, rn);
  }

  lemma CompaniesStepNew(seen: seq<string>, companies: seq<Option<string>>, rn: string,
                         counts: map<string, nat>, company: map<string, Option<string>>)
    requires |seen| < |companies| && rn !in seen
    requires CompaniesAreFirst(seen, companies, counts, company)
    ensures CompaniesAreFirst(seen + [rn], companies, counts[rn := 1], company[rn := companies[|seen|]])
  {
    forall x | x in seen { FirstIndexSnoc(seen, rn, x); }
    FirstIndexOfNew(seen, rn);
  }

  lemma OrderStepNew(seen: seq<string>, rn: string, counts: map<string, nat>, order: seq<string>)
    requires rn !in seen && OrderIsFirstSeen(seen, counts, order)
    ensures OrderIsFirstSeen(seen + [rn], counts[rn := 1], order + [rn])
  {
    var seen', order' := seen + [rn], order + [rn];
    forall x | x in seen { FirstIndexSnoc(seen, rn, x); }
    FirstIndexOfNew(seen, rn);
    forall k, l | 0 <= k < l < |order'| ensures FirstIndex(seen', order'[k]) < FirstIndex(seen', order'[l]) {
      assert order'[k] == order[k] && order[k] in seen;
      if l < |order| {
        assert order'[l] == order[l] && order[l] in seen;
      }
    }
  }

  /** A line seen for the first time gets an entry at the end, with count 1
      and the company of this station. */
  lemma TallyStepNew(seen: seq<string>, companies: seq<Option<string>>, rn: string,
                     counts: map<string, nat>, company: map<string, Option<string>>, order: seq<string>)
    requires |seen| < |companies| && rn != "" && rn !in counts
    requires Tally(seen, companies, counts, company, order)
    ensures Tally(seen + [rn], companies, counts[rn := 1], company[rn := companies[|seen|]], order + [rn])
  {
    assert rn !in seen;
    CountsStepNew(seen, rn, counts);
    CompaniesStepNew(seen, companies, rn, counts, company);
    OrderStepNew(seen, rn, counts, order);
  }

  /** The body of the counting loop for one station whose line is `rn`
      ("" when it has none) and whose company is `cn`. */
  method TallyStation(ghost seen: seq<string>, ghost companies: seq<Option<string>>, rn: string, cn: Option<string>,
                      counts: map<string, nat>, company: map<string, Option<string>>, order: seq<string>)
    returns (counts': map<string, nat>, company': map<string, Option<string>>, order': seq<string>)
    requires |seen| < |companies| && companies[|seen|] == cn
    requires Tally(seen, companies, counts, company, order)
    ensures Tally(seen + [rn], companies, counts', company', order')
  {
    counts', company', order' := counts, company, order;
    if rn != "" {
      if rn !in counts' {
        TallyStepNew(seen, companies, rn, counts, company, order);
        counts' := counts'[rn := 1];
        company' := company'[rn := cn];
        order' := order' + [rn];
      } else {
        TallyStepSeen(seen, companies, rn, counts, company, order);
        counts' := counts'[rn := counts'[rn] + 1];
      }
    } else {
      TallyStepBlank(seen, companies, counts, company, order);
    }
  }

  /** The counting loop of `dominantLine`. */
  method CountLines(names: StationNames, codes: seq<string>)
    returns (counts: map<string, nat>, company: map<string, Option<string>>, order: seq<string>)
    ensures Tally(Rails(names, codes), Companies(names, codes), counts, company, order)
  {
    ghost var rails := Rails(names, codes);
    ghost var companies := Companies(names, codes);
    ghost var seen: seq<string> := [];
    counts, company, order := map[], map[], [];
    for i := 0 to |codes|
      invariant seen == rails[..i]
      invariant Tally(seen, companies, counts, company, order)
    {
      var rn := RailOf(names, codes[i]);
      assert rails[..i + 1] == seen + [rn];
      counts, company, order := TallyStation(seen, companies, rn, CompanyOf(names, codes[i]), counts, company, order);
      seen := seen + [rn];
    }
    assert rails[..|codes|] == rails;
  }

  /** The first key of `order` with the largest count: what a stable sort by
      descending count followed by `[0]` yields. */
  method FirstMaximal(order: seq<string>, counts: map<string, nat>) returns (best: Option<string>, ghost bestPos: nat)
    requires forall k :: 0 <= k < |order| ==> order[k] in counts
    ensures best.None? <==> order == []
    ensures best.Some? ==> bestPos < |order| && order[bestPos] == best.value
    ensures best.Some? ==> forall k :: 0 <= k < |order| ==> counts[order[k]] <= counts[best.value]
    ensures best.Some? ==> forall k :: 0 <= k < bestPos ==> counts[order[k]] < counts[best.value]
  {
    best, bestPos := None, 0;
    for j := 0 to |order|
      invariant best.None? <==> j == 0
      invariant best.Some? ==> bestPos < j && order[bestPos] == best.value
      invariant best.Some? ==> forall k :: 0 <= k < j ==> counts[order[k]] <= counts[best.value]
      invariant best.Some? ==> forall k :: 0 <= k < bestPos ==> counts[order[k]] < counts[best.value]
    {
      if best.None? || counts[order[j]] > counts[best.value] {
        best, bestPos := Some(order[j]), j;
      }
    }
  }

  /** The first maximal entry of the full tally is the dominant line. */
  lemma {:induction false} TallyWinnerIsDominant(rails: seq<string>, companies: seq<Option<string>>,
                                                 counts: map<string, nat>, company: map<string, Option<string>>, order: seq<string>,
                                                 rn: string, bestPos: nat)
    requires |rails| == |companies|
    requires Tally(rails, companies, counts, company, order)
    requires bestPos < |order| && order[bestPos] == rn
    requires forall k :: 0 <= k < |order| ==> counts[order[k]] <= counts[rn]
    requires forall k :: 0 <= k < bestPos ==> counts[order[k]] < counts[rn]
    ensures rn in company && IsDominant(rails, companies, LineInfo(Some(rn), company[rn]))
  {
    forall i | 0 <= i < |rails| && rails[i] != ""
      ensures Count(rails, rails[i]) <= Count(rails, rn)
      ensures i < FirstIndex(rails, rn) ==> Count(rails, rails[i]) < Count(rails, rn)
    {
      var x := rails[i];
      assert x in counts;
      var k :| 0 <= k < |order| && order[k] == x;
      if i < FirstIndex(rails, rn) {
        assert FirstIndex(rails, x) <= i;
      }
    }
  }

  /** An empty tally means no station had a line. */
  lemma EmptyTallyHasNoLine(rails: seq<string>, companies: seq<Option<string>>,
                            counts: map<string, nat>, company: map<string, Option<string>>)
    requires |rails| == |companies|
    requires Tally(rails, companies, counts, company, [])
    ensures forall i :: 0 <= i < |rails| ==> rails[i] == ""
  {
    forall i | 0 <= i < |rails| ensures rails[i] == "" {
      assert rails[i] in rails;
    }
  }

  /** `dominantLine`: tally the lines, then take the first one with the
      largest count; the company comes from the first station on that line. */
  method DominantLine(names: StationNames, codes: seq<string>) returns (info: LineInfo)
    ensures IsDominant(Rails(names, codes), Companies(names, codes), info)
  {
    var counts, company, order := CountLines(names, codes);
    var best, bestPos := FirstMaximal(order, counts);
    if best.None? {
      EmptyTallyHasNoLine(Rails(names, codes), Companies(names, codes), counts, company);
      info := LineInfo(None, None);
    } else {
      TallyWinnerIsDominant(Rails(names, codes), Companies(names, codes), counts, company, order, best.value, bestPos);
      info := LineInfo(Some(best.value), company[best.value]);
    }
  }

  // -----------------------------------------------------------------------
  // change points

  /** A line-name change between `passes[i]` and `passes[i + 1]`, looked for
      only between interior stations: both have a line and the lines differ. */
  predicate IsChangePoint(names: StationNames, passes: seq<string>, i: int) {
    && 1 <= i < |passes| - 2
    && RailOf(names, passes[i]) != ""
    && RailOf(names, passes[i + 1]) != ""
    && RailOf(names, passes[i]) != RailOf(names, passes[i + 1])
  }

  /** The change points from `i` on, in increasing order. */
  function ChangePointsFrom(names: StationNames, passes: seq<string>, i: int): seq<int>
    decreases |passes| - i
  {
    if i >= |passes| - 2 then []
    else (if IsChangePoint(names, passes, i) then [i] else []) + ChangePointsFrom(names, passes, i + 1)
  }

  function ChangePointsOf(names: StationNames, passes: seq<string>): seq<int> {
    ChangePointsFrom(names, passes, 1)
  }

  predicate StrictlyIncreasing(s: seq<int>) {
    forall k, l :: 0 <= k < l < |s| ==> s[k] < s[l]
  }

  lemma {:induction false} ChangePointsFromStep(names: StationNames, passes: seq<string>, i: int)
    requires i < |passes| - 2
    ensures ChangePointsFrom(names, passes, i) ==
              (if IsChangePoint(names, passes, i) then [i] else []) + ChangePointsFrom(names, passes, i + 1)
  {
  }

  lemma {:induction false} ChangePointsMembers(names: StationNames, passes: seq<string>, i: int)
    requires i >= 1
    ensures forall x :: x in ChangePointsFrom(names, passes, i) <==> i <= x && IsChangePoint(names, passes, x)
    decreases |passes| - i
  {
    var cps := ChangePointsFrom(names, passes, i);
    if i < |passes| - 2 {
      var rest := ChangePointsFrom(names, passes, i + 1);
      ChangePointsMembers(names, passes, i + 1);
      ChangePointsFromStep(names, passes, i);
      var head: seq<int> := if IsChangePoint(names, passes, i) then [i] else [];
      assert cps == head + rest;
      forall x ensures x in cps <==> i <= x && IsChangePoint(names, passes, x) {
        assert x in cps <==> x in head || x in rest;
        assert x in head <==> x == i && IsChangePoint(names, passes, i);
      }
    } else {
      assert cps == [];
      forall x ensures !IsChangePoint(names, passes, x) || x < i {
      }
    }
  }

  lemma {:induction false} ChangePointsAtLeast(names: StationNames, passes: seq<string>, i: int)
    ensures forall k :: 0 <= k < |ChangePointsFrom(names, passes, i)| ==> ChangePointsFrom(names, passes, i)[k] >= i
    decreases |passes| - i
  {
    if i < |passes| - 2 {
      var rest := ChangePointsFrom(names, passes, i + 1);
      ChangePointsAtLeast(names, passes, i + 1);
      ChangePointsFromStep(names, passes, i);
      var head: seq<int> := if IsChangePoint(names, passes, i) then [i] else [];
      var cps := head + rest;
      forall k | 0 <= k < |cps| ensures cps[k] >= i {
        if k >= |head| {
          assert cps[k] == rest[k - |head|];
        }
      }
    }
  }

  lemma {:induction false} ChangePointsSorted(names: StationNames, passes: seq<string>, i: int)
    ensures StrictlyIncreasing(ChangePointsFrom(names, passes, i))
    decreases |passes| - i
  {
    if i < |passes| - 2 {
      var rest := ChangePointsFrom(names, passes, i + 1);
      ChangePointsSorted(names, passes, i + 1);
      ChangePointsAtLeast(names, passes, i + 1);
      ChangePointsFromStep(names, passes, i);
      var head: seq<int> := if IsChangePoint(names, passes, i) then [i] else [];
      var cps := head + rest;
      forall k, l | 0 <= k < l < |cps| ensures cps[k] < cps[l] {
        assert cps[l] == rest[l - |head|];
        if k >= |head| {
          assert cps[k] == rest[k - |head|];
        }
      }
    }
  }

  /** The change points are exactly the indices `i`, 1 <= i < n - 2, where
      both stations have a line and the lines differ, in increasing order. */
  lemma ChangePointsExact(names: StationNames, passes: seq<string>, i: int)
    requires i >= 1
    ensures var cps := ChangePointsFrom(names, passes, i);
            && (forall x :: x in cps <==> i <= x && IsChangePoint(names, passes, x))
            && StrictlyIncreasing(cps)
            && (forall k :: 0 <= k < |cps| ==> cps[k] >= i)
  {
    ChangePointsMembers(names, passes, i);
    ChangePointsSorted(names, passes, i);
    ChangePointsAtLeast(names, passes, i);
  }

  /** The `for` loop that pushes every change point. */
  method ChangePoints(names: StationNames, passes: seq<string>) returns (cps: seq<int>)
    ensures cps == ChangePointsOf(names, passes)
  {
    cps := [];
    var i := 1;
    while i < |passes| - 2
      invariant 1 <= i
      invariant cps + ChangePointsFrom(names, passes, i) == ChangePointsOf(names, passes)
      decreases |passes| - i
    {
      var rn1 := RailOf(names, passes[i]);
      var rn2 := RailOf(names, passes[i + 1]);
      ghost var rest := ChangePointsFrom(names, passes, i + 1);
      ChangePointsFromStep(names, passes, i);
      if rn1 != "" && rn2 != "" && rn1 != rn2 {
        assert cps + [i] + rest == cps + ([i] + rest);
        cps := cps + [i];
      } else {
        assert [] + rest == rest;
      }
      i := i + 1;
    }
    assert cps + [] == cps;
  }

  // -----------------------------------------------------------------------
  // partition

  /** The split points used: none when the declared transfer count is 0 or
      absent, otherwise `changePoints.slice(0, transfer)`. */
  function Splits(names: StationNames, passes: seq<string>, transfer: Option<int>): seq<int> {
    if transfer.GetOr(0) == 0 then [] else Slice(ChangePointsOf(names, passes), 0, transfer.value)
  }

  function SegStart(splits: seq<int>, k: int): int
    requires 0 <= k <= |splits|
  {
    if k == 0 then 0 else splits[k - 1] + 1
  }

  function SegEnd(splits: seq<int>, k: int, n: int): int
    requires 0 <= k <= |splits|
  {
    if k == |splits| then n else splits[k] + 1
  }

  /** Segment `k` runs from just after split `k - 1` up to and including
      split `k` (from 0, and up to `n - 1`, at the two ends). */
  function Partition(splits: seq<int>, n: int): (parts: seq<seq<int>>)
    ensures |parts| == |splits| + 1
  {
    seq(|splits| + 1, k requires 0 <= k <= |splits| => Range(SegStart(splits, k), SegEnd(splits, k, n)))
  }

  function Flatten(parts: seq<seq<int>>): seq<int> {
    if parts == [] then [] else Flatten(parts[..|parts| - 1]) + parts[|parts| - 1]
  }

  predicate ValidSplits(splits: seq<int>, n: int) {
    && StrictlyIncreasing(splits)
    && forall k :: 0 <= k < |splits| ==> 0 <= splits[k] < n - 1
  }

  lemma RangeAppend(a: int, b: int, c: int)
    requires a <= b <= c
    ensures Range(a, b) + Range(b, c) == Range(a, c)
  {
  }

  /** Dropping the last split merges nothing: the other segments are those
      of the shorter list, and the last one runs from the dropped split on. */
  lemma PartitionFront(splits: seq<int>, n: int)
    requires |splits| > 0 && ValidSplits(splits, n)
    ensures var m := |splits| - 1;
            && Partition(splits, n)[..m + 1] == Partition(splits[..m], splits[m] + 1)
            && Partition(splits, n)[m + 1] == Range(splits[m] + 1, n)
  {
    var m := |splits| - 1;
    var parts, front := Partition(splits, n), Partition(splits[..m], splits[m] + 1);
    forall k | 0 <= k <= m ensures parts[k] == front[k] {
      assert SegStart(splits[..m], k) == SegStart(splits, k);
      assert SegEnd(splits[..m], k, splits[m] + 1) == SegEnd(splits, k, n);
    }
  }

  /** Every segment has at least one station. */
  lemma PartitionNonEmpty(splits: seq<int>, n: int)
    requires n > 0 && ValidSplits(splits, n)
    ensures forall k :: 0 <= k <= |splits| ==> |Partition(splits, n)[k]| > 0
  {
    forall k | 0 <= k <= |splits| ensures SegStart(splits, k) < SegEnd(splits, k, n) {
      if 0 < k < |splits| {
        assert splits[k - 1] < splits[k];
      }
    }
  }

  /** The segments cover 0..n-1 in order, each non-empty, one more than the
      splits. */
  lemma {:induction false} PartitionCovers(splits: seq<int>, n: int)
    requires n > 0 && ValidSplits(splits, n)
    ensures Flatten(Partition(splits, n)) == Range(0, n)
    ensures forall k :: 0 <= k <= |splits| ==> |Partition(splits, n)[k]| > 0
    decreases |splits|
  {
    PartitionNonEmpty(splits, n);
    var parts := Partition(splits, n);
    if splits == [] {
      assert parts == [Range(0, n)];
      assert Flatten(parts) == Flatten([]) + Range(0, n);
    } else {
      var m := |splits| - 1;
      var s := splits[m];
      assert ValidSplits(splits[..m], s + 1);
      PartitionCovers(splits[..m], s + 1);
      PartitionFront(splits, n);
      assert Flatten(parts) == Flatten(parts[..m + 1]) + parts[m + 1];
      RangeAppend(0, s + 1, n);
    }
  }

  /** Every index of every segment is a valid station index. */
  lemma PartitionInRange(splits: seq<int>, n: int)
    requires n > 0 && ValidSplits(splits, n)
    ensures forall k, j :: 0 <= k <= |splits| && 0 <= j < |Partition(splits, n)[k]| ==> 0 <= Partition(splits, n)[k][j] < n
  {
    forall k | 0 <= k <= |splits| ensures 0 <= SegStart(splits, k) && SegEnd(splits, k, n) <= n {
      if 0 < k {
        assert splits[k - 1] >= 0;
      }
    }
  }

  function Indices(segs: seq<TrainSegment>): (r: seq<seq<int>>)
    ensures |r| == |segs|
  {
    seq(|segs|, k requires 0 <= k < |segs| => segs[k].stationIndices)
  }

  /** `indices.map((i) => passes[i])` */
  function CodesAt(passes: seq<string>, indices: seq<int>): seq<string>
    requires forall j :: 0 <= j < |indices| ==> 0 <= indices[j] < |passes|
  {
    seq(|indices|, j requires 0 <= j < |indices| => passes[indices[j]])
  }

  /** The segment's line is the majority vote over its own stations. */
  predicate VotedOver(names: StationNames, passes: seq<string>, seg: TrainSegment) {
    && (forall j :: 0 <= j < |seg.stationIndices| ==> 0 <= seg.stationIndices[j] < |passes|)
    && var codes := CodesAt(passes, seg.stationIndices);
       IsDominant(Rails(names, codes), Companies(names, codes), LineOf(seg))
  }

  /** The split points are the first `transfer` change points, in order, and
      they cut the list into non-empty runs. */
  lemma {:induction false} SplitsAreFirstChangePoints(names: StationNames, passes: seq<string>, transfer: Option<int>)
    ensures var splits := Splits(names, passes, transfer);
            var cps := ChangePointsOf(names, passes);
            && ValidSplits(splits, |passes|)
            && (transfer.GetOr(0) > 0 ==>
                  splits == cps[..if transfer.value < |cps| then transfer.value else |cps|])
            && (transfer.GetOr(0) == 0 ==> splits == [])
  {
    ChangePointsExact(names, passes, 1);
    var cps := ChangePointsOf(names, passes);
    var splits := Splits(names, passes, transfer);
    if transfer.GetOr(0) != 0 {
      var a, b := SliceBound(0, |cps|), SliceBound(transfer.value, |cps|);
      assert splits == cps[a..b] || splits == [];
      forall k | 0 <= k < |splits| ensures 0 <= splits[k] < |passes| - 1 {
        assert splits[k] in cps;
      }
    }
  }

  /** After stations `0 .. idx - 1`, `c` split points have been passed: the
      first `c` segments are complete and the last one runs up to `idx`. */
  ghost predicate CutSoFar(splits: seq<int>, n: int, idx: int, c: nat, segs: seq<TrainSegment>) {
    && 0 < idx && |segs| == c + 1 && c <= |splits|
    && (forall j :: 0 <= j < c ==> splits[j] <= idx - 2)
    && (forall j :: c <= j < |splits| ==> splits[j] >= idx - 1)
    && (c < |splits| ==> splits[c] >= idx - 1)
    && (forall k :: 0 <= k < c ==> segs[k].stationIndices == Range(SegStart(splits, k), SegEnd(splits, k, n)))
    && segs[c].stationIndices == Range(SegStart(splits, c), idx)
  }

  lemma CutStep(splits: seq<int>, n: int, idx: int, c: nat, segs: seq<TrainSegment>, seg: TrainSegment)
    requires ValidSplits(splits, n) && idx < n && CutSoFar(splits, n, idx, c, segs)
    ensures (idx - 1) in splits ==> c < |splits| && splits[c] == idx - 1
    ensures (idx - 1) in splits && seg.stationIndices == [idx] ==>
              CutSoFar(splits, n, idx + 1, c + 1, segs + [seg])
    ensures (idx - 1) !in splits ==>
              var last := segs[|segs| - 1];
              CutSoFar(splits, n, idx + 1, c, segs[|segs| - 1 := last.(stationIndices := last.stationIndices + [idx])])
  {
    if (idx - 1) in splits {
      var j :| 0 <= j < |splits| && splits[j] == idx - 1;
    }
  }

  lemma CutFirst(splits: seq<int>, n: int, seg: TrainSegment)
    requires ValidSplits(splits, n) && seg.stationIndices == [0]
    ensures CutSoFar(splits, n, 1, 0, [] + [seg])
  {
  }

  lemma CutDone(splits: seq<int>, n: int, c: nat, segs: seq<TrainSegment>)
    requires ValidSplits(splits, n) && CutSoFar(splits, n, n, c, segs)
    ensures Indices(segs) == Partition(splits, n)
  {
  }

  /** Segments before the vote: no line yet, colour slots in order, no bus. */
  predicate Unvoted(segs: seq<TrainSegment>) {
    forall k :: 0 <= k < |segs| ==>
      LineOf(segs[k]) == LineInfo(None, None) && segs[k].colorIdx == k % TrackColorCount && !segs[k].isBus
  }

  lemma UnvotedPush(segs: seq<TrainSegment>, idx: int)
    requires Unvoted(segs)
    ensures Unvoted(segs + [TrainSegment(None, None, |segs| % TrackColorCount, [idx], false)])
  {
  }

  lemma UnvotedExtendLast(segs: seq<TrainSegment>, idx: int)
    requires Unvoted(segs) && segs != []
    ensures var last := segs[|segs| - 1];
            Unvoted(segs[|segs| - 1 := last.(stationIndices := last.stationIndices + [idx])])
  {
  }

  /** The `forEach` over the pass stations: a station opens a new segment
      when there is none yet or the previous station is a split point, and is
      appended to the last segment otherwise; a new segment takes the next
      colour slot. */
  method CutAtSplits(n: nat, splits: seq<int>) returns (segs: seq<TrainSegment>)
    requires n > 0 && ValidSplits(splits, n)
    ensures Indices(segs) == Partition(splits, n)
    ensures forall k :: 0 <= k < |segs| ==> LineOf(segs[k]) == LineInfo(None, None)
    ensures forall k :: 0 <= k < |segs| ==> segs[k].colorIdx == k % TrackColorCount && !segs[k].isBus
  {
    var splitAfter := set x | x in splits;
    segs := [];
    ghost var c := 0;
    for idx := 0 to n
      invariant idx == 0 <==> segs == []
      invariant idx == 0 ==> c == 0
      invariant idx > 0 ==> CutSoFar(splits, n, idx, c, segs)
      invariant Unvoted(segs)
    {
      var seg := TrainSegment(None, None, |segs| % TrackColorCount, [idx], false);
      if |segs| == 0 {
        CutFirst(splits, n, seg);
        UnvotedPush(segs, idx);
        segs := segs + [seg];
      } else if (idx - 1) in splitAfter {
        CutStep(splits, n, idx, c, segs, seg);
        UnvotedPush(segs, idx);
        c := c + 1;
        segs := segs + [seg];
      } else {
        CutStep(splits, n, idx, c, segs, seg);
        UnvotedExtendLast(segs, idx);
        var last := segs[|segs| - 1];
        segs := segs[|segs| - 1 := last.(stationIndices := last.stationIndices + [idx])];
      }
    }
    CutDone(splits, n, c, segs);
  }

  /** The second pass: every segment's line and company become the majority
      vote over its own stations; nothing else changes. */
  method VoteSegmentLines(names: StationNames, passes: seq<string>, segs: seq<TrainSegment>) returns (r: seq<TrainSegment>)
    requires forall k, j :: 0 <= k < |segs| && 0 <= j < |segs[k].stationIndices| ==> 0 <= segs[k].stationIndices[j] < |passes|
    ensures |r| == |segs|
    ensures forall k :: 0 <= k < |segs| ==> r[k] == segs[k].(railName := r[k].railName, companyName := r[k].companyName)
    ensures forall k :: 0 <= k < |segs| ==> VotedOver(names, passes, r[k])
  {
    r := segs;
    for k := 0 to |segs|
      invariant |r| == |segs|
      invariant forall k' :: 0 <= k' < |segs| ==> r[k'] == segs[k'].(railName := r[k'].railName, companyName := r[k'].companyName)
      invariant forall k' :: 0 <= k' < k ==> VotedOver(names, passes, r[k'])
    {
      var info := DominantLine(names, CodesAt(passes, r[k].stationIndices));
      r := r[k := r[k].(railName := info.railName, companyName := info.companyName)];
    }
  }

  /** `buildSegments` over the resolved names. */
  method BuildSegments(names: StationNames, passes: seq<string>, transfer: Option<int>) returns (segs: seq<TrainSegment>)
    ensures passes == [] ==> segs == []
    ensures passes != [] ==> Indices(segs) == Partition(Splits(names, passes, transfer), |passes|)
    ensures forall k :: 0 <= k < |segs| ==> segs[k].colorIdx == k % TrackColorCount && !segs[k].isBus
    ensures passes != [] && transfer.GetOr(0) == 0 ==>
              var interior := Slice(passes, 1, -1);
              IsDominant(Rails(names, interior), Companies(names, interior), LineOf(segs[0]))
    ensures transfer.GetOr(0) != 0 ==> forall k :: 0 <= k < |segs| ==> VotedOver(names, passes, segs[k])
  {
    if |passes| == 0 {
      return [];
    }
    var maxTransfers := transfer.GetOr(0);
    if maxTransfers == 0 {
      var info := DominantLine(names, Slice(passes, 1, -1));
      segs := [TrainSegment(info.railName, info.companyName, 0, Range(0, |passes|), false)];
      assert Indices(segs) == Partition([], |passes|);
      return;
    }

    var changePoints := ChangePoints(names, passes);
    var splits := Slice(changePoints, 0, maxTransfers);
    SplitsAreFirstChangePoints(names, passes, transfer);
    assert splits == Splits(names, passes, transfer);
    var cut := CutAtSplits(|passes|, splits);
    PartitionInRange(splits, |passes|);
    assert forall k :: 0 <= k < |cut| ==> cut[k].stationIndices == Partition(splits, |passes|)[k];
    segs := VoteSegmentLines(names, passes, cut);
    assert Indices(segs) == Indices(cut);
  }

  // -----------------------------------------------------------------------
  // bus flag

  /** Marks every segment whose company name is a bus operator's; nothing
      else about a segment changes and no mark is ever removed. */
  method FlagBuses(segs: seq<TrainSegment>) returns (r: seq<TrainSegment>)
    ensures |r| == |segs|
    ensures forall k :: 0 <= k < |segs| ==>
              r[k] == segs[k].(isBus := segs[k].isBus || IsBusName(segs[k].companyName.GetOr("")))
  {
    r := segs;
    for k := 0 to |segs|
      invariant |r| == |segs|
      invariant forall k' :: 0 <= k' < k ==> r[k'] == segs[k'].(isBus := segs[k'].isBus || IsBusName(segs[k'].companyName.GetOr("")))
      invariant forall k' :: k <= k' < |segs| ==> r[k'] == segs[k']
    {
      var cn := r[k].companyName.GetOr("");
      if Includes(cn, "バス") || Includes(ToLower(cn), "bus") {
        r := r[k := r[k].(isBus := true)];
      }
    }
  }
}
