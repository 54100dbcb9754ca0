# norikae web client and API helper, modelled in Dafny

norikae is a Japanese transit route planner ("乗換案内"). Its web client has a
search form with station suggestions, a search history, re-search buttons
("1本前", "1本後", and the sort tabs), and a route view. It also has a line
status panel. This project models the client's decision logic and the API
client's request preparation, and proves what that logic promises.

**Route view, fallback path.** Some routes come back with only a flat list
of pass-station codes. For those the view does four things:

- It decides where the walking minutes go: before the first station, after
  the last, both (ceil/floor split) or only in a summary note.
- It puts the searched origin and destination labels on the end stations
  that have no walk.
- It cuts the stations into ride segments at the first `transfer` changes
  of line between interior stations.
- It names each segment after its most frequent line and flags buses.

**Route view, edge path.** When a route has edge segments, the view decides:

- where the departure and arrival badges go;
- which stop shows a searched label;
- which time a stop shows;
- where a transfer marker is drawn;
- what a walk leg is labelled with.

**Search form.** The model covers:

- the suggestion list (at most 6 stations, then at most 4 spots);
- the codes that a picked suggestion sets;
- the codes that typing or picking a history entry clears;
- the from/to swap;
- the request a submit builds, with the date picker value compacted to
  `YYYYMMDDHHmm`.

**History and re-search.** The history is a class over a list: adding moves
the pair to the front, drops duplicates and keeps 8 entries. It also supports
removal by index and clearing. The earlier/later buttons re-search around the
first or last route's departure time (arrival time for arrive-by searches).
A sort tab re-searches only when it changes the sort.

**Line status panel.** The model covers:

- the status meaning, chosen case-insensitively with NORMAL as the fallback;
- the "HH:mm 更新" note;
- the area subtitle;
- the split into abnormal and normal lines.

**API client.** The model covers:

- `cleanParams`;
- `HttpClient`'s header set-up: defaults, then the configured headers, then
  the bearer token;
- `buildUrl`: defaults first, then the request's own non-empty parameters;
- `mergeHeaders`;
- the body and content type of `post` and `put`, and what `get` and
  `delete` send.

**Modelling choices.**

- JavaScript objects and query strings are ordered key/value lists, and
  `Lookup` reads the value of a key.
- Strings are `seq<char>`.
- JavaScript `trim`, `toUpperCase`/`toLowerCase`, `includes`, `slice` and
  `??`/`||` are written out in module `Text`.
- Stateful pieces are classes whose methods update fields: the search
  history, the search form and the HTTP client.
- The loops of the route view are methods with loop invariants, proved
  against specification functions.

## Model

| member | source | states |
|---|---|---|
| TimeFormat.FmtDateStr | webui/src/client/components/RouteResult.tsx:14-17 | an absent, empty or shorter-than-12 stamp gives ""; otherwise the result is `HH:MM` taken from characters 8-11 |
| TimeFormat.FmtDateStrOfStamp | webui/src/client/components/RouteResult.tsx:14-17 | for any `YYYYMMDD` + `hh` + `mm` stamp the result is `hh:mm` |
| TimeFormat.FormatTime | webui/src/client/components/RouteResult.tsx:19-22 | an absent, empty or shorter-than-8 stamp is shown as given (absent as ""); on a stamp of 12 or more characters it agrees with `fmtDateStr`; otherwise the result is 1 to 5 characters around a colon |
| TimeFormat.FormatTimeAgrees | webui/src/client/components/RouteResult.tsx:14-22 | on stamps of 12 or more characters `formatTime` and `fmtDateStr` agree; a stamp shorter than 8 is shown unchanged by `formatTime` and as "" by `fmtDateStr`; an absent one is "" in both |
| TimeFormat.FormatTimeOfDateOnly | webui/src/client/components/RouteResult.tsx:19-22 | an 8-character date-only stamp is sliced past its end and shows as a bare `:` |
| WalkBoundary.ClassifyWalks | webui/src/client/components/RouteResult.tsx:386-395 | with walks on both sides the minutes split into parts that sum to the total and differ by at most one (entry the larger); a single walk takes all minutes; a side without a walk gets 0 |
| WalkBoundary.WalkSides | webui/src/client/components/RouteResult.tsx:386-392 | an entry (exit) walk exists iff there are walking minutes, a label, a non-empty first (last) station name, and the trimmed two differ |
| WalkBoundary.WalkSplitIsCeilFloor | webui/src/client/components/RouteResult.tsx:394-395 | with both walks the entry gets ceil(t/2) and the exit floor(t/2) |
| WalkBoundary.WalkMinutesAccounted | webui/src/client/components/RouteResult.tsx:394-395 | every walking minute is shown once, in the entry walk, the exit walk or the total-walk note (line 616); with no minutes nothing is shown |
| WalkBoundary.NoWalkWhenNamesMatch | webui/src/client/components/RouteResult.tsx:386-392 | labels equal to the station names up to surrounding blanks never make a walk |
| WalkBoundary.NameOverride | webui/src/client/components/RouteResult.tsx:398-400 | only the first and last codes change, only on a side without a walk, only their name; the destination label wins when both ends are the same code; no override leaves the table as it was |
| WalkBoundary.OverrideKeepsLines | webui/src/client/components/RouteResult.tsx:398-400 | the override never changes any station's line or company |
| RouteTypes.BusInAnyCase | webui/src/client/components/RouteResult.tsx:186-188 | a name containing "bus" in any ASCII case counts as a bus |
| FallbackSegments.DominantLine | webui/src/client/components/RouteResult.tsx:419-431 | the result is the dominant line of the codes: no line when no code has one; otherwise a line with the highest count, the first such line in the order lines were first met, with the company of its first station |
| FallbackSegments.DominantIsUnique | webui/src/client/components/RouteResult.tsx:419-431 | at most one answer meets that description, so the method's result is fully determined |
| FallbackSegments.CountLines | webui/src/client/components/RouteResult.tsx:420-427 | the tally has each line's count of stations, the company of its first station, and the lines in first-seen order; stations without a line are skipped |
| FallbackSegments.FirstMaximal | webui/src/client/components/RouteResult.tsx:428 | the pick has the greatest count, and every earlier line's count is strictly lower (the stable sort keeps ties in order) |
| FallbackSegments.TallyWinnerIsDominant | webui/src/client/components/RouteResult.tsx:428-430 | the first maximal line of a complete tally is the dominant line |
| FallbackSegments.ChangePoints | webui/src/client/components/RouteResult.tsx:442-447 | the loop returns exactly the specified change points |
| FallbackSegments.ChangePointsExact | webui/src/client/components/RouteResult.tsx:442-447 | a change point is an index i with 1 <= i < n-2 where both stations have a line and the lines differ; the list holds exactly these, in strictly increasing order |
| FallbackSegments.SplitsAreFirstChangePoints | webui/src/client/components/RouteResult.tsx:448 | the split set is the first `transfer` change points (all of them when there are fewer), increasing and inside the route |
| FallbackSegments.PartitionCovers | webui/src/client/components/RouteResult.tsx:450-459 | the segments' station indices are non-empty and, concatenated, are exactly 0..n-1 in order |
| FallbackSegments.PartitionInRange | webui/src/client/components/RouteResult.tsx:450-459 | every index of every segment is a valid station index |
| FallbackSegments.CutAtSplits | webui/src/client/components/RouteResult.tsx:450-459 | the cutting loop yields exactly the specified partition, segment k has colour slot k mod 4, and no line is set yet |
| FallbackSegments.VoteSegmentLines | webui/src/client/components/RouteResult.tsx:461-465 | every segment keeps its indices and colour and gets the dominant line of its own stations |
| FallbackSegments.BuildSegments | webui/src/client/components/RouteResult.tsx:415-468 | no stations gives no segments; otherwise the segments partition the stations at the split points and cycle the colour slots; a route without transfers is one segment named after the dominant line of its interior stations (`slice(1, -1)`); otherwise each segment is named after its own stations |
| FallbackSegments.FlagBuses | webui/src/client/components/RouteResult.tsx:472-477 | each segment is unchanged except that it becomes a bus when its company name contains "バス" or "bus" in any case; an existing flag is kept |
| FallbackView.OverrideSameLines | webui/src/client/components/RouteResult.tsx:398-400 | the overridden name table agrees with the looked-up one on every station's line and company |
| FallbackView.SameLinesSameSegments | webui/src/client/components/RouteResult.tsx:419-448 | tables that agree on lines and companies give the same change points, splits and votes |
| FallbackView.FallbackSegmentsOf | webui/src/client/components/RouteResult.tsx:384-477 | the walk plan, the overridden names and the segments of one route; the segment properties are stated over the looked-up names, since the override cannot change them |
| EdgeView.TrainIndicesExact | webui/src/client/components/RouteResult.tsx:171 | the ride indices are exactly the non-walk segments, strictly increasing and in range |
| EdgeView.TrainBounds | webui/src/client/components/RouteResult.tsx:171-173 | the first and last ride are -1 together iff all segments are walks; otherwise they are rides, and everything before the first and after the last is a walk |
| EdgeView.WalkFlagsSimplify | webui/src/client/components/RouteResult.tsx:174-181 | "walk before the first ride" iff the first ride is not segment 0; "walk after the last ride" iff the last ride is not the last segment |
| EdgeView.TransferMarkerBetweenRides | webui/src/client/components/RouteResult.tsx:246 | a transfer marker is drawn above a ride exactly when the previous segment is a ride, and never above the first ride |
| EdgeView.RouteEndsAtRideEnds | webui/src/client/components/RouteResult.tsx:300-301 | the departure badge is exactly on stop 0 of segment 0 when it is a ride; the arrival badge is exactly on the last stop of the last segment when it is a ride |
| EdgeView.LabelsOnlyAtRouteEnds | webui/src/client/components/RouteResult.tsx:303-308 | the searched labels replace a stop's name only at those two places, the origin winning on a one-stop route; elsewhere the stop's own name shows |
| EdgeView.StopTime | webui/src/client/components/RouteResult.tsx:309-313 | a time is chosen iff the stop has one (the view then shows it only when it is non-empty); it is one of the stop's two times; the arrival comes first only at a last stop that is not also first |
| EdgeView.WalkEndpointsFallBack | webui/src/client/components/RouteResult.tsx:195-199 | an exit label always names the start of a walk; the searched labels are used only at the route's first (last) segment when the walk has no stop names |
| History.Without | webui/src/client/App.tsx:36 | the result holds exactly the entries other than the given pair, and is no longer |
| History.WithoutConcat | webui/src/client/App.tsx:36 | the filter keeps the surviving entries in their old order: filtering a concatenation is concatenating the filtered parts |
| History.WithoutMultiset | webui/src/client/App.tsx:36 | every entry other than the pair keeps its number of occurrences, and the pair has none |
| History.AddedComesFirst | webui/src/client/App.tsx:33-40 | after an add the pair is first, at most 8 entries remain, and the rest are earlier entries other than the pair, in order |
| History.AddKeepsInvariant | webui/src/client/App.tsx:33-40 | adding keeps the history duplicate-free and within 8 entries |
| History.AddTwiceIsAddOnce | webui/src/client/App.tsx:33-40 | adding the same pair twice is the same as adding it once |
| History.RemoveExact | webui/src/client/App.tsx:41-47 | removing index i drops exactly that entry; an index out of range changes nothing; duplicate-freedom is kept |
| History.SearchHistory.Add | webui/src/client/App.tsx:33-40 | an empty origin or destination changes nothing; otherwise the entries become the added list, with the pair first and at most 8 entries |
| History.SearchHistory.Remove | webui/src/client/App.tsx:41-47 | the entries lose exactly the one at the index |
| History.SearchHistory.Clear | webui/src/client/App.tsx:48-51 | the entries become empty |
| Research.AddMinsToDateStr | webui/src/client/App.tsx:17-18 | a stamp shorter than 12 characters is returned unchanged |
| Research.NeighbourSearches | webui/src/client/App.tsx:256-276 | "earlier" re-searches from the first route's target time minus one minute and "later" from the last route's plus one; only the date changes; with no target time nothing happens |
| Research.SingleRouteNeighbours | webui/src/client/App.tsx:256-276 | with one route and a short stamp both buttons re-search at that very stamp |
| Research.SortChoiceSettles | webui/src/client/App.tsx:246-250 | a sort tab re-searches iff it changes the sort, and only the sort changes |
| StationForm.FlatItemsLayout | webui/src/client/components/SearchForm.tsx:75-84 | no results gives no rows; otherwise the first min(6, n) stations and then the first min(4, m) spots, in order |
| StationForm.CompactDateOfPickerValue | webui/src/client/components/SearchForm.tsx:221 | a picker value `YYYY-MM-DDThh:mm` compacts to `YYYYMMDDhhmm`, which the route view formats back to `hh:mm` |
| StationForm.CompactDateIdempotent | webui/src/client/components/SearchForm.tsx:221 | compacting a compacted date changes nothing |
| StationForm.SwapTwice | webui/src/client/components/SearchForm.tsx:209-216 | swapping twice restores the form |
| StationForm.RequestShape | webui/src/client/components/SearchForm.tsx:218-235 | a request is built iff both names are non-empty; it carries the two names and a compact date of at most 12 characters; it never carries an empty code, type or via; each code is present iff its field is non-empty |
| StationForm.SubmitAfterSwap | webui/src/client/components/SearchForm.tsx:209-235 | after a swap the request exists iff it did before, with origin and destination fields exchanged |
| StationForm.SubmittedPairIsRecorded | webui/src/client/components/SearchForm.tsx:218-235 | a submitted request's pair becomes the first history entry |
| StationForm.CodesFollowSelection | webui/src/client/components/SearchForm.tsx:136-145 | typing sends no code; picking a row sends its id and type (absent when empty); picking a history entry sends no codes |
| StationForm.SearchForm.constructor | webui/src/client/components/SearchForm.tsx:192-207 | the initial names, no codes or via, the given time, departure search, sort 0, route filter 0 |
| StationForm.SearchForm.Swap | webui/src/client/components/SearchForm.tsx:209-216 | names, codes and types of origin and destination are exchanged, nothing else changes |
| StationForm.SearchForm.EditFrom | webui/src/client/components/SearchForm.tsx:241 | typing an origin sets it and clears its code and type |
| StationForm.SearchForm.EditTo | webui/src/client/components/SearchForm.tsx:250 | typing a destination sets it and clears its code and type |
| StationForm.SearchForm.EditVia | webui/src/client/components/SearchForm.tsx:255 | typing in the via field sets it and changes nothing else |
| StationForm.SearchForm.SelectFrom | webui/src/client/components/SearchForm.tsx:136-145 | picking a row sets the origin's name, code and type from the row |
| StationForm.SearchForm.SelectTo | webui/src/client/components/SearchForm.tsx:136-145 | picking a row sets the destination's name, code and type from the row |
| StationForm.SearchForm.PickHistory | webui/src/client/components/SearchForm.tsx:358-362 | a history entry sets both names and clears all codes and types |
| StationForm.SearchForm.Submit | webui/src/client/components/SearchForm.tsx:218-235 | the request is the one specified for the current fields |
| Diainfo.StatusMetaCases | webui/src/client/components/DiainfoPanel.tsx:42-47 | DELAY, STOP or PARTIAL exactly when the upper-cased status is that key; NORMAL for every other or absent status |
| Diainfo.DelayInAnyCase | webui/src/client/components/DiainfoPanel.tsx:42-47 | "delay" in any ASCII case is a delay |
| Diainfo.FirstClockIsLeftmost | webui/src/client/components/DiainfoPanel.tsx:50-54 | the found `dd:dd` is the leftmost one from the start position |
| Diainfo.UpdateNoteOfFeedStamp | webui/src/client/components/DiainfoPanel.tsx:50-54 | a `YYYY-MM-DD hh:mm:ss` stamp gives `hh:mm 更新` |
| Diainfo.AreaSubtitleCases | webui/src/client/components/DiainfoPanel.tsx:57-63 | a line-level item gets no subtitle; otherwise the area name + "エリア" when there is one, else the railway type name, else "" |
| Diainfo.SplitIsPartition | webui/src/client/components/DiainfoPanel.tsx:87-92 | the abnormal and normal lists together are a permutation of the items, and each item lands on its own side |
| Diainfo.NormalItemsLookNormal | webui/src/client/components/DiainfoPanel.tsx:42-92 | items listed as normal show the normal style; an abnormal item with an unknown status also shows it |
| Diainfo.SplitKeepsOrder | webui/src/client/components/DiainfoPanel.tsx:87-92 | both lists keep the items' order (they distribute over any cut of the input) |
| Http.KeptStringEmptyOnlyForOther | api-client/src/http.ts:100-101 | among kept values only an object whose string form is empty becomes "" |
| Http.SetKeyLookup | api-client/src/http.ts:96 | after `set(k, v)` the key reads `v` and every other key is unchanged |
| Http.SetKeyInPlace | api-client/src/http.ts:109 | setting a key that occurs once replaces its value in place, keeping the order |
| Http.AssignLookup | api-client/src/http.ts:108-110 | after setting a list of entries, a key they name takes their last value for it; any other key keeps its old value |
| Http.CleanParamsSingle | api-client/src/http.ts:228-236 | an entry whose value is undefined, null or "" is dropped; any other entry is kept as its `String` |
| Http.CleanParamsConcat | api-client/src/http.ts:228-236 | entries are treated one by one and order is kept (cleaning distributes over concatenation) |
| Http.CleanParamsIdempotent | api-client/src/http.ts:228-236 | cleaning the output again changes nothing, provided no value is an object whose string form is empty |
| Http.CleanParamsOfEmptyArray | api-client/src/http.ts:228-236 | without that proviso it fails: an empty array is kept as "" and then dropped |
| Http.UrlPieces | api-client/src/http.ts:92-93 | the base loses one trailing slash at most and nothing else; the path starts with "/", ends with the given path, and is unchanged when it already starts with "/" |
| Http.InitialHeadersLookup | api-client/src/http.ts:80-88 | the configured headers override the defaults; with authentication on and a non-empty token, Authorization is `Bearer <token>`, overriding a configured one |
| Http.AuthorizationPresence | api-client/src/http.ts:80-88 | without a configured Authorization header, one is present iff authentication is on and the token is non-empty |
| Http.SetEach | api-client/src/http.ts:95-97 | the loop sets every default in turn |
| Http.SetKept | api-client/src/http.ts:98-104 | the loop sets exactly the cleaned request parameters in turn |
| Http.HttpClient.constructor | api-client/src/http.ts:75-89 | the base URL, the initial headers and the defaults (none when absent) |
| Http.HttpClient.BuildUrl | api-client/src/http.ts:91-106 | base and path as in UrlPieces; a request parameter that is kept overrides the default of the same key; undefined, null or "" neither appears nor removes a default |
| Http.HttpClient.MergeHeaders | api-client/src/http.ts:108-110 | each header is the extra one when given there, the base one otherwise; the base is only read |
| Http.HttpClient.Get | api-client/src/http.ts:134-140 | a GET with no body and the merged headers, sent to the base URL without its trailing slash, the absolute path and the query of BuildUrl |
| Http.HttpClient.Upload | api-client/src/http.ts:142-196 | sent to the base URL without its trailing slash and the absolute path, with only the default params as query; a form body is kept with the form content type; a string is kept; another present body is sent as its JSON text; absent stays absent; Content-Type is the caller's if given, else that choice; other headers are the caller's over the base |
| Http.HttpClient.Post | api-client/src/http.ts:142-168 | method POST; sent to the base URL without its trailing slash and the absolute path, with the default params as query; the body encoded by kind (form fields as is, a string as is, an object as its JSON text) and absent iff none is given; Content-Type from the caller's headers, else form or JSON by body kind; every other header from the caller when given there, else from the base |
| Http.HttpClient.Put | api-client/src/http.ts:170-196 | the same promises as Post, with method PUT |
| Http.HttpClient.Delete | api-client/src/http.ts:198-211 | a DELETE with the base headers, sent to the base URL without its trailing slash and the absolute path, with the query of BuildUrl, and the JSON text of the data as body when given |

## Left out

- Network I/O, unmodelled: `send`/`fetch`, the error and response decoding, and timeouts. This also covers the web client's API layer and the endpoint wrappers built on `HttpClient`, as well as the server side, including its route normaliser.
- Rendering, unmodelled: JSX markup, styles and the loading states. Only the values that rendering branches on are modelled.
- Effects and persistence, unmodelled:
  - React hooks;
  - the suggestion debounce and cache;
  - localStorage persistence of the history (entries start from the stored list);
  - clipboard, share and URL rewriting.
- Research.AddMinsToDateStr: calendar arithmetic (`new Date` with minute overflow) is an abstract function parameter; only the length guard is modelled.
- The per-station estimated time of the fallback view is not modelled: it uses floating-point averages and `Math.round`.
- Fare formatting is not modelled: it uses `toLocaleString`.
- FallbackSegments.DominantLine: the order is that in which lines are first met. JavaScript enumerates integer-like keys first, so a line name that is a canonical array index would be tallied out of order. That is not modelled.
- FallbackSegments.DominantLine: the tally is a plain dictionary. In the source, `counts` and `companies` are object literals that inherit from `Object.prototype`, so a line named `constructor`, `toString`, `__proto__` or after another inherited member skips the first-seen initialisation; its count becomes NaN on the inherited value, and `Object.entries` never lists it, so it can never win. The model tallies such a line like any other.
- Route.timeWalk and Route.transfer are JavaScript numbers in the source, modelled as integers. Fractional walk minutes under `Math.ceil`/`Math.floor`, and a fractional `transfer` truncated by `slice`, are not modelled (WalkBoundary.ClassifyWalks, FallbackSegments.Splits).
- FallbackSegments.BuildSegments and FlagBuses return new sequences. The source instead pushes into, and then mutates, objects held in an array. No alias of those objects escapes, so only the final values are modelled.
- Text.ToUpper / Text.ToLower: the JavaScript case mappings are exact for every character whose mapping uses only ASCII letters. Any other character is kept as is. The decisions that depend on them ("NORMAL"/"DELAY"/"STOP"/"PARTIAL", "bus") are therefore exact.
- Http.CleanParamsIdempotent: stated only for values whose string form is not empty. Otherwise the property does not hold (Http.CleanParamsOfEmptyArray).
- Http.JsString: numbers are integers of magnitude at most 2^53 - 1 only (the safe integers, which `String` prints as plain digits). Fractional, special and larger float values, whose string forms are rounded or exponential, are not modelled. Objects are given by their string form.
- Http.HttpClient.BuildUrl:
  - it returns the base, path and query list rather than the serialised URL;
  - URL resolution against the base, percent-encoding and a query string already inside `path` are not modelled.
- Http.HttpClient.Upload and Delete: `JSON.stringify` is not modelled. A body object is given by its JSON text.
- Http.HttpClient.MergeHeaders: header names compare case-sensitively, as object keys do. How `fetch` combines names that differ only in case is not modelled.
- Http.AuthorizationPresence: holds only when no Authorization header is configured. A configured one survives when authentication is off or the token is empty (Http.InitialHeadersLookup).
