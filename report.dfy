/**
 * The summary part of the behaviour server's report endpoint
 * (`generate_graphs` in fixed_colab.py): find the session's prediction
 * history, fall back to a fixed dummy history when the session is unknown,
 * and summarise it as the number of frames, a `Counter` of the labels and
 * the most frequent label.
 *
 * The three charts are drawn by a plotting library and are not modelled;
 * neither are `totalTime`, which rounds a float, and the constant
 * intensity fields.
 */
module Report {
  import opened Text
  import opened Handshake

  // ---------------------------------------------------------------------------
  // Counting
  // ---------------------------------------------------------------------------

  /** How many times `x` occurs in `h`. */
  function Count(h: seq<string>, x: string): (n: nat)
    ensures n <= |h|
    ensures n == 0 <==> x !in h
  {
    if h == [] then 0
    else Count(h[..|h| - 1], x) + (if h[|h| - 1] == x then 1 else 0)
  }

  /** The position of the first occurrence of `x` in `h`. */
  function FirstIndex(h: seq<string>, x: string): (i: nat)
    requires x in h
    ensures i < |h| && h[i] == x && x !in h[..i]
  {
    if h[0] == x then 0
    else
      assert x in h[1..];
      var j := FirstIndex(h[1..], x);
      assert h[..j + 1] == [h[0]] + h[1..][..j];
      j + 1
  }

  /** No label appears twice. */
  predicate NoDuplicates(keys: seq<string>) {
    forall i, j :: 0 <= i < j < |keys| ==> keys[i] != keys[j]
  }

  /** The keys of `Counter(h)`, in the order of their first occurrence. */
  function Distinct(h: seq<string>): (keys: seq<string>)
    ensures NoDuplicates(keys)
    ensures forall x :: x in keys <==> x in h
  {
    if h == [] then []
    else
      var prefix := Distinct(h[..|h| - 1]);
      assert h == h[..|h| - 1] + [h[|h| - 1]];
      if h[|h| - 1] in prefix then prefix else prefix + [h[|h| - 1]]
  }

  /** `Counter(h)` as its items in iteration order: each key with its count. */
  function Tally(h: seq<string>, keys: seq<string>): (items: seq<(string, nat)>)
    ensures |items| == |keys|
    ensures forall i :: 0 <= i < |keys| ==> items[i] == (keys[i], Count(h, keys[i]))
  {
    if keys == [] then []
    else Tally(h, keys[..|keys| - 1]) + [(keys[|keys| - 1], Count(h, keys[|keys| - 1]))]
  }

  /** The sum of the counts of a tally. */
  function Total(items: seq<(string, nat)>): nat {
    if items == [] then 0 else Total(items[..|items| - 1]) + items[|items| - 1].1
  }

  /**
   * `max(counts, key=counts.get)`: the position of the largest count, the
   * first one among equal counts, because `max` replaces its candidate only
   * on a strictly larger key.
   */
  function MaxIndex(items: seq<(string, nat)>): (m: nat)
    requires items != []
    ensures m < |items|
    ensures forall j :: 0 <= j < |items| ==> items[j].1 <= items[m].1
    ensures forall j :: 0 <= j < m ==> items[j].1 < items[m].1
  {
    if |items| == 1 then 0
    else
      var best := MaxIndex(items[..|items| - 1]);
      if items[|items| - 1].1 > items[best].1 then |items| - 1 else best
  }

  // ---------------------------------------------------------------------------
  // The endpoint
  // ---------------------------------------------------------------------------

  /** What the endpoint answers, without the charts. */
  datatype GraphSummary =
    | NoData                                     // `{"error": "No data"}`
    | Summary(totalFrames: nat, counts: seq<(string, nat)>, mostFrequent: string)

  /** The history used when the session cannot be found: ten "Standing" labels. */
  function DummyHistory(): (h: seq<string>)
    ensures |h| == 10 && forall i :: 0 <= i < 10 ==> h[i] == "Standing"
  {
    seq(10, i => "Standing")
  }

  /**
   * The session lookup (fixed_colab.py:353-357): the request body's
   * `session_id` (the empty string when missing) indexes the live sessions,
   * here reduced to their prediction histories. An id that cannot be a
   * dictionary key raises, which the handler treats like a missing session.
   */
  function FindHistory(sessions: map<Json, seq<string>>, request: map<string, Json>): (found: Option<seq<string>>)
    ensures var id := if "session_id" in request then request["session_id"] else JString("");
      && (found.Some? <==> Hashable(id) && id in sessions)
      && (found.Some? ==> found.value == sessions[id])
  {
    var id := if "session_id" in request then request["session_id"] else JString("");
    if Hashable(id) && id in sessions then Some(sessions[id]) else None
  }

  /** The summary of a non-empty history. */
  function Summarise(h: seq<string>): (r: GraphSummary)
    requires h != []
    ensures r.Summary? && r.totalFrames == |h|
  {
    var counts := Tally(h, Distinct(h));
    Summary(|h|, counts, if counts != [] then counts[MaxIndex(counts)].0 else "None")
  }

  /**
   * The summary fields of `generate_graphs` (fixed_colab.py:350-413): the
   * dummy history when the session is missing, no data for an empty
   * history, otherwise the summary of the history.
   */
  function GenerateSummary(sessions: map<Json, seq<string>>, request: map<string, Json>): (r: GraphSummary)
    ensures var found := FindHistory(sessions, request);
      && (found.None? ==> r == Summarise(DummyHistory()))
      && (found.Some? && found.value == [] ==> r == NoData)
      && (found.Some? && found.value != [] ==> r == Summarise(found.value))
  {
    var found := FindHistory(sessions, request);
    var h := if found.Some? then found.value else DummyHistory();
    if h == [] then NoData else Summarise(h)
  }

  // ---------------------------------------------------------------------------
  // What the summary promises
  // ---------------------------------------------------------------------------

  /** Appending a label raises its count by one and leaves the others alone. */
  lemma CountAppend(h: seq<string>, x: string, y: string)
    ensures Count(h + [x], y) == Count(h, y) + (if x == y then 1 else 0)
  {
    assert (h + [x])[..|h + [x]| - 1] == h;
  }

  /** In a list without duplicates a member occurs exactly once. */
  lemma {:induction false} CountOnce(keys: seq<string>, x: string)
    requires NoDuplicates(keys) && x in keys
    ensures Count(keys, x) == 1
  {
    var init := keys[..|keys| - 1];
    assert NoDuplicates(init);
    if keys[|keys| - 1] == x {
      assert x !in init;
    } else {
      assert keys == init + [keys[|keys| - 1]];
      assert x in init;
      CountOnce(init, x);
    }
  }

  /** One more label in the history adds one to the total, once per key equal to it. */
  lemma {:induction false} TotalAppend(h: seq<string>, x: string, keys: seq<string>)
    ensures Total(Tally(h + [x], keys)) == Total(Tally(h, keys)) + Count(keys, x)
  {
    if keys != [] {
      var init := keys[..|keys| - 1];
      var last := keys[|keys| - 1];
      TotalAppend(h, x, init);
      CountAppend(h, x, last);
      assert Tally(h + [x], keys)[..|keys| - 1] == Tally(h + [x], init);
      assert Tally(h, keys)[..|keys| - 1] == Tally(h, init);
      assert keys == init + [last];
      CountAppend(init, last, x);
    }
  }

  /** The tally of an empty history is all zeros. */
  lemma {:induction false} TotalEmpty(keys: seq<string>)
    ensures Total(Tally([], keys)) == 0
  {
    if keys != [] {
      TotalEmpty(keys[..|keys| - 1]);
      assert Tally([], keys)[..|keys| - 1] == Tally([], keys[..|keys| - 1]);
    }
  }

  /** Counting each of a duplicate-free set of keys that covers the history accounts for every label once. */
  lemma {:induction false} TotalCovers(h: seq<string>, keys: seq<string>)
    requires NoDuplicates(keys)
    requires forall x :: x in h ==> x in keys
    ensures Total(Tally(h, keys)) == |h|
  {
    if h == [] {
      TotalEmpty(keys);
    } else {
      var init := h[..|h| - 1];
      var last := h[|h| - 1];
      assert h == init + [last];
      TotalCovers(init, keys);
      TotalAppend(init, last, keys);
      CountOnce(keys, last);
    }
  }

  /** Two positions that are each the first occurrence of the same label are equal. */
  lemma FirstIndexUnique(h: seq<string>, x: string, i: nat, j: nat)
    requires i < |h| && h[i] == x && x !in h[..i]
    requires j < |h| && h[j] == x && x !in h[..j]
    ensures i == j
  {
  }

  /** The counter's keys come in the order of their first occurrence in the history. */
  lemma {:induction false} DistinctInFirstOccurrenceOrder(h: seq<string>)
    ensures forall i, j :: 0 <= i < j < |Distinct(h)| ==>
      FirstIndex(h, Distinct(h)[i]) < FirstIndex(h, Distinct(h)[j])
  {
    if h != [] {
      var init := h[..|h| - 1];
      var last := h[|h| - 1];
      assert h == init + [last];
      DistinctInFirstOccurrenceOrder(init);
      var d, d0 := Distinct(h), Distinct(init);
      // a label already in the prefix keeps its first position
      forall y | y in init
        ensures FirstIndex(h, y) == FirstIndex(init, y)
      {
        var k := FirstIndex(init, y);
        assert h[..k] == init[..k];
        FirstIndexUnique(h, y, k, FirstIndex(h, y));
      }
      forall i, j | 0 <= i < j < |d|
        ensures FirstIndex(h, d[i]) < FirstIndex(h, d[j])
      {
        assert d[i] in d0;
        if j < |d0| {
          assert d[j] == d0[j] && d[i] == d0[i];
        } else {
          assert d[j] == last && last !in init;
          assert h[..|init|] == init;
          FirstIndexUnique(h, last, |init|, FirstIndex(h, last));
        }
      }
    }
  }

  /** Every entry of a tally over keys drawn from the history is a label of the history with its (positive) count. */
  lemma TallyEntries(h: seq<string>, keys: seq<string>)
    requires forall x :: x in keys ==> x in h
    ensures forall i :: 0 <= i < |keys| ==>
      Tally(h, keys)[i].0 in h && Tally(h, keys)[i].1 == Count(h, Tally(h, keys)[i].0) && Tally(h, keys)[i].1 >= 1
  {
  }

  /** A tally over keys that include every label of the history lists each label. */
  lemma TallyCovers(h: seq<string>, keys: seq<string>)
    requires forall x :: x in h ==> x in keys
    ensures forall x :: x in h ==> exists i :: 0 <= i < |keys| && Tally(h, keys)[i].0 == x
  {
    var t := Tally(h, keys);
    forall x | x in h
      ensures exists i :: 0 <= i < |t| && t[i].0 == x
    {
      var i :| 0 <= i < |keys| && keys[i] == x;
      assert t[i].0 == x;
    }
    assert forall x :: x in h ==> exists i :: 0 <= i < |t| && t[i].0 == x;
    assert t == Tally(h, keys);
  }

  /** The summary's counts are exactly `Counter(h)`: every label of the history, with its count, and nothing else. */
  lemma SummaryCounts(h: seq<string>)
    requires h != []
    ensures var s := Summarise(h);
      && s.totalFrames == |h|
      && (forall x :: x in h <==> exists i :: 0 <= i < |s.counts| && s.counts[i].0 == x)
      && (forall i :: 0 <= i < |s.counts| ==> s.counts[i].1 == Count(h, s.counts[i].0) && s.counts[i].1 >= 1)
  {
    var keys := Distinct(h);
    assert Summarise(h).counts == Tally(h, keys);
    TallyEntries(h, keys);
    TallyCovers(h, keys);
  }

  /** Each label appears once in the summary, in the order of its first occurrence in the history. */
  lemma SummaryKeysInFirstOccurrenceOrder(h: seq<string>)
    requires h != []
    ensures var c := Summarise(h).counts;
      && (forall i, j :: 0 <= i < j < |c| ==> c[i].0 != c[j].0)
      && (forall i, j :: 0 <= i < j < |c| ==> c[i].0 in h && c[j].0 in h && FirstIndex(h, c[i].0) < FirstIndex(h, c[j].0))
  {
    var keys := Distinct(h);
    var c := Summarise(h).counts;
    assert c == Tally(h, keys);
    DistinctInFirstOccurrenceOrder(h);
  }

  /** The counts add up to the number of frames. */
  lemma SummaryCountsAddUp(h: seq<string>)
    requires h != []
    ensures Total(Summarise(h).counts) == Summarise(h).totalFrames
  {
    TotalCovers(h, Distinct(h));
  }

  /**
   * The most frequent label occurs in the history, no label occurs more
   * often, and every label whose first occurrence comes earlier occurs
   * strictly less often: ties go to the label seen first.
   */
  lemma MostFrequentIsFirstMaximum(h: seq<string>)
    requires h != []
    ensures var m := Summarise(h).mostFrequent;
      && m in h
      && (forall y :: y in h ==> Count(h, y) <= Count(h, m))
      && (forall y :: y in h && FirstIndex(h, y) < FirstIndex(h, m) ==> Count(h, y) < Count(h, m))
  {
    var keys := Distinct(h);
    var counts := Tally(h, keys);
    assert h[0] in keys;
    var b := MaxIndex(counts);
    var m := keys[b];
    assert Summarise(h).mostFrequent == m;
    DistinctInFirstOccurrenceOrder(h);
    forall y | y in h
      ensures Count(h, y) <= Count(h, m)
      ensures FirstIndex(h, y) < FirstIndex(h, m) ==> Count(h, y) < Count(h, m)
    {
      var j :| 0 <= j < |keys| && keys[j] == y;
      assert counts[j].1 == Count(h, y);
      if FirstIndex(h, y) < FirstIndex(h, m) {
        assert j != b;
      }
    }
  }

  /** An unknown session is summarised from the dummy history: ten frames, all "Standing". */
  lemma UnknownSessionDummy(sessions: map<Json, seq<string>>, request: map<string, Json>)
    requires FindHistory(sessions, request).None?
    ensures GenerateSummary(sessions, request) == Summary(10, [("Standing", 10)], "Standing")
  {
    var h := DummyHistory();
    DistinctUniform(h, "Standing");
    CountUniform(h, "Standing");
  }

  /** A history of one repeated label has that label as its only key. */
  lemma {:induction false} DistinctUniform(h: seq<string>, x: string)
    requires h != [] && forall i :: 0 <= i < |h| ==> h[i] == x
    ensures Distinct(h) == [x]
  {
    if |h| > 1 {
      DistinctUniform(h[..|h| - 1], x);
    }
  }

  /** In a history of one repeated label that label's count is the length. */
  lemma {:induction false} CountUniform(h: seq<string>, x: string)
    requires forall i :: 0 <= i < |h| ==> h[i] == x
    ensures Count(h, x) == |h|
  {
    if h != [] {
      CountUniform(h[..|h| - 1], x);
    }
  }

  /** A live session with an empty history has no data, even though an unknown session gets the dummy summary. */
  lemma EmptyHistoryNoData(sessions: map<Json, seq<string>>, sid: string)
    requires JString(sid) in sessions && sessions[JString(sid)] == []
    ensures GenerateSummary(sessions, map["session_id" := JString(sid)]) == NoData
  {
  }
}
