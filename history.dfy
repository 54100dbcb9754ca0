/** The recent-searches list: at most eight origin/destination pairs, newest
    first, without repeats. */
module History {
  import opened Text

  const MaxEntries: nat := 8

  datatype HistoryEntry = HistoryEntry(from: string, to: string)

  predicate NoDuplicates(s: seq<HistoryEntry>) {
    forall i, j :: 0 <= i < j < |s| ==> s[i] != s[j]
  }

  /** `prev.filter((h) => !(h.from === from && h.to === to))` */
  function Without(prev: seq<HistoryEntry>, e: HistoryEntry): (r: seq<HistoryEntry>)
    ensures |r| <= |prev|
    ensures forall x :: x in r <==> x in prev && x != e
  {
    if prev == [] then [] else (if prev[0] == e then [] else [prev[0]]) + Without(prev[1..], e)
  }

  /** A single entry is kept exactly when it is not the pair. */
  lemma WithoutSingle(x: HistoryEntry, e: HistoryEntry)
    ensures Without([x], e) == if x == e then [] else [x]
  {
    assert [x][1..] == [];
  }

  /** The filter keeps the surviving entries in their old order: it
      distributes over any cut of the list. */
  lemma {:induction false} WithoutConcat(a: seq<HistoryEntry>, b: seq<HistoryEntry>, e: HistoryEntry)
    ensures Without(a + b, e) == Without(a, e) + Without(b, e)
  {
    if a == [] {
      assert a + b == b;
    } else {
      var head: seq<HistoryEntry> := if a[0] == e then [] else [a[0]];
      var ab := a + b;
      assert ab[0] == a[0];
      assert ab[1..] == a[1..] + b;
      assert Without(ab, e) == head + Without(a[1..] + b, e);
      WithoutConcat(a[1..], b, e);
      assert Without(a, e) == head + Without(a[1..], e);
    }
  }

  /** Every other entry keeps its number of occurrences; the pair has none. */
  lemma {:induction false} WithoutMultiset(prev: seq<HistoryEntry>, e: HistoryEntry)
    ensures multiset(Without(prev, e)) == multiset(prev)[e := 0]
  {
    if prev != [] {
      var x, rest := prev[0], prev[1..];
      WithoutMultiset(rest, e);
      assert prev == [x] + rest;
      assert multiset(prev) == multiset{x} + multiset(rest);
      if x == e {
        assert Without(prev, e) == Without(rest, e);
      } else {
        assert Without(prev, e) == [x] + Without(rest, e);
        assert multiset(Without(prev, e)) == multiset{x} + multiset(Without(rest, e));
      }
    }
  }

  lemma {:induction false} WithoutAbsent(prev: seq<HistoryEntry>, e: HistoryEntry)
    requires e !in prev
    ensures Without(prev, e) == prev
  {
    if prev != [] {
      assert e !in prev[1..];
      WithoutAbsent(prev[1..], e);
    }
  }

  lemma {:induction false} WithoutKeepsDistinct(prev: seq<HistoryEntry>, e: HistoryEntry)
    requires NoDuplicates(prev)
    ensures NoDuplicates(Without(prev, e))
  {
    if prev != [] {
      assert NoDuplicates(prev[1..]);
      WithoutKeepsDistinct(prev[1..], e);
      assert prev[0] !in prev[1..];
    }
  }

  function Take<T>(s: seq<T>, n: nat): (r: seq<T>)
    ensures |r| == if |s| < n then |s| else n
    ensures r == s[..|r|]
  {
    if |s| <= n then s else s[..n]
  }

  /** `add(from, to)`: ignored when either side is empty; otherwise the pair
      goes to the front, any older copy of it is dropped, and the list is
      cut to eight. */
  function WithAdded(prev: seq<HistoryEntry>, from: string, to: string): seq<HistoryEntry> {
    if from == "" || to == "" then prev
    else Take([HistoryEntry(from, to)] + Without(prev, HistoryEntry(from, to)), MaxEntries)
  }

  /** After an add the pair is first, appears once, the list holds at most
      eight entries, and every other entry is an older one, in its old
      relative order. */
  lemma AddedComesFirst(prev: seq<HistoryEntry>, from: string, to: string)
    requires from != "" && to != ""
    ensures var r := WithAdded(prev, from, to);
            var e := HistoryEntry(from, to);
            && |r| >= 1 && r[0] == e && e !in r[1..]
            && |r| <= MaxEntries
            && r[1..] == Without(prev, e)[..|r| - 1]
            && (forall x :: x in r[1..] ==> x in prev)
  {
    var e := HistoryEntry(from, to);
    var full := [e] + Without(prev, e);
    var r := WithAdded(prev, from, to);
    assert r[1..] == full[1..|r|];
    assert full[1..] == Without(prev, e);
    forall x | x in r[1..] ensures x in Without(prev, e) {
      var i :| 0 <= i < |r[1..]| && r[1..][i] == x;
      assert x == Without(prev, e)[i];
    }
  }

  /** Adding keeps the list free of repeats and within eight entries. */
  lemma AddKeepsInvariant(prev: seq<HistoryEntry>, from: string, to: string)
    requires NoDuplicates(prev) && |prev| <= MaxEntries
    ensures var r := WithAdded(prev, from, to); NoDuplicates(r) && |r| <= MaxEntries
  {
    if from != "" && to != "" {
      var e := HistoryEntry(from, to);
      WithoutKeepsDistinct(prev, e);
      var full := [e] + Without(prev, e);
      assert NoDuplicates(full) by {
        forall i, j | 0 <= i < j < |full| ensures full[i] != full[j] {
          if i == 0 {
            assert full[j] in Without(prev, e);
          } else {
            assert full[i] == Without(prev, e)[i - 1] && full[j] == Without(prev, e)[j - 1];
          }
        }
      }
    }
  }

  /** Searching the same pair twice in a row leaves the list as after once. */
  lemma {:induction false} AddTwiceIsAddOnce(prev: seq<HistoryEntry>, from: string, to: string)
    ensures WithAdded(WithAdded(prev, from, to), from, to) == WithAdded(prev, from, to)
  {
    if from != "" && to != "" {
      var e := HistoryEntry(from, to);
      var once := WithAdded(prev, from, to);
      AddedComesFirst(prev, from, to);
      assert once == [e] + once[1..];
      assert Without(once, e) == once[1..] by {
        assert once[0] == e;
        WithoutAbsent(once[1..], e);
        assert Without(once, e) == [] + Without(once[1..], e);
      }
      assert [e] + Without(once, e) == once;
    }
  }

  /** `prev.filter((_, i) => i !== idx)`, with `base` the index of `prev[0]`. */
  function WithoutIndexFrom(prev: seq<HistoryEntry>, idx: int, base: int): seq<HistoryEntry>
  {
    if prev == [] then [] else (if base == idx then [] else [prev[0]]) + WithoutIndexFrom(prev[1..], idx, base + 1)
  }

  function WithoutIndex(prev: seq<HistoryEntry>, idx: int): seq<HistoryEntry> {
    WithoutIndexFrom(prev, idx, 0)
  }

  lemma {:induction false} WithoutIndexFromSpec(prev: seq<HistoryEntry>, idx: int, base: int)
    ensures base <= idx < base + |prev| ==>
              WithoutIndexFrom(prev, idx, base) == prev[..idx - base] + prev[idx - base + 1..]
    ensures !(base <= idx < base + |prev|) ==> WithoutIndexFrom(prev, idx, base) == prev
    decreases |prev|
  {
    if prev != [] {
      var tail := prev[1..];
      WithoutIndexFromSpec(tail, idx, base + 1);
      if base == idx {
        assert WithoutIndexFrom(prev, idx, base) == WithoutIndexFrom(tail, idx, base + 1);
        assert tail == prev[..0] + prev[1..];
      } else {
        assert WithoutIndexFrom(prev, idx, base) == [prev[0]] + WithoutIndexFrom(tail, idx, base + 1);
        if base < idx < base + |prev| {
          var k := idx - base;
          assert WithoutIndexFrom(tail, idx, base + 1) == tail[..k - 1] + tail[k..];
          assert prev[..k] == [prev[0]] + tail[..k - 1];
          assert prev[k + 1..] == tail[k..];
        } else {
          assert prev == [prev[0]] + tail;
        }
      }
    }
  }

  /** `remove(idx)` drops exactly the entry at `idx`, and an index outside
      the list changes nothing; the list stays free of repeats. */
  lemma RemoveExact(prev: seq<HistoryEntry>, idx: int)
    ensures 0 <= idx < |prev| ==> WithoutIndex(prev, idx) == prev[..idx] + prev[idx + 1..]
    ensures !(0 <= idx < |prev|) ==> WithoutIndex(prev, idx) == prev
    ensures NoDuplicates(prev) ==> NoDuplicates(WithoutIndex(prev, idx))
  {
    WithoutIndexFromSpec(prev, idx, 0);
    if 0 <= idx < |prev| && NoDuplicates(prev) {
      var r := WithoutIndex(prev, idx);
      forall i, j | 0 <= i < j < |r| ensures r[i] != r[j] {
        var i' := if i < idx then i else i + 1;
        var j' := if j < idx then j else j + 1;
        assert r[i] == prev[i'] && r[j] == prev[j'];
      }
    }
  }

  /** The hook's state: the list as last stored. */
  class SearchHistory {
    var entries: seq<HistoryEntry>

    /** Starts from the stored list (the empty list when nothing is stored
        or it does not parse). */
    constructor (stored: seq<HistoryEntry>)
      ensures entries == stored
    {
      entries := stored;
    }

    method Add(from: string, to: string)
      modifies this
      ensures entries == WithAdded(old(entries), from, to)
      ensures from != "" && to != "" ==> |entries| <= MaxEntries && entries[0] == HistoryEntry(from, to)
      ensures from == "" || to == "" ==> entries == old(entries)
    {
      if from == "" || to == "" {
        return;
      }
      var e := HistoryEntry(from, to);
      AddedComesFirst(entries, from, to);
      entries := Take([e] + Without(entries, e), MaxEntries);
    }

    method Remove(idx: int)
      modifies this
      ensures entries == WithoutIndex(old(entries), idx)
      ensures 0 <= idx < |old(entries)| ==> entries == old(entries)[..idx] + old(entries)[idx + 1..]
    {
      RemoveExact(entries, idx);
      entries := WithoutIndex(entries, idx);
    }

    method Clear()
      modifies this
      ensures entries == []
    {
      entries := [];
    }
  }
}
