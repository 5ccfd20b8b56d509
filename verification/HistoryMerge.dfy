/**
 The bounded history of omg_cli/ag_history.py: the newest rows of every summary index, merged by one
 stable sort and cut, against the sort of everything.
 */
module HistoryMerge {
  import opened Options

  const MAX_AG_HISTORY_RECORDS := 200

  /**
   A summary row: its place in SQLite's order of `last_modified_time`, whether that text is a
   canonical UTC time, and for those the time as the merge compares it.
   */
  datatype Row = Row(rowid: int, rank: int, canonical: bool, time: int)

  /** The rows of one index in the order of its query, newest first; later canonical texts are later times. */
  predicate Indexed(rows: seq<Row>) {
    && (forall i, j :: 0 <= i < j < |rows| ==> rows[i].rank >= rows[j].rank)
    && (forall i, j :: 0 <= i < j < |rows| && rows[i].canonical && rows[j].canonical ==> rows[i].time >= rows[j].time)
  }

  // ---------- the stable sort, newest first ----------

  predicate Descending(rows: seq<Row>) { forall i, j :: 0 <= i < j < |rows| ==> rows[i].time >= rows[j].time }

  /** Behind every row that is not older. */
  function Insert(sorted: seq<Row>, x: Row): seq<Row> {
    if |sorted| == 0 || sorted[0].time < x.time then [x] + sorted else [sorted[0]] + Insert(sorted[1..], x)
  }

  /** `rows.sort(key=time, reverse=True)` */
  function Sort(rows: seq<Row>): seq<Row> {
    if |rows| == 0 then [] else Insert(Sort(rows[..|rows| - 1]), rows[|rows| - 1])
  }

  function WithTime(rows: seq<Row>, time: int): seq<Row> {
    if |rows| == 0 then [] else (if rows[0].time == time then [rows[0]] else []) + WithTime(rows[1..], time)
  }

  lemma {:induction false} InsertSorts(sorted: seq<Row>, x: Row)
    requires Descending(sorted)
    ensures Descending(Insert(sorted, x))
  {
    if |sorted| > 0 && sorted[0].time >= x.time {
      var rest := Insert(sorted[1..], x);
      InsertSorts(sorted[1..], x);
      InsertMembers(sorted[1..], x);
      assert forall i :: 0 <= i < |rest| ==> rest[i] in rest;
      assert Insert(sorted, x) == [sorted[0]] + rest;
    }
  }

  lemma {:induction false} InsertAdds(sorted: seq<Row>, x: Row)
    ensures |Insert(sorted, x)| == |sorted| + 1 && multiset(Insert(sorted, x)) == multiset(sorted) + multiset{x}
  {
    if |sorted| > 0 && sorted[0].time >= x.time {
      InsertAdds(sorted[1..], x);
      assert sorted == [sorted[0]] + sorted[1..];
    }
  }

  /** x comes behind the rows of its own time. */
  lemma {:induction false} InsertIsLast(sorted: seq<Row>, x: Row, time: int)
    requires Descending(sorted)
    ensures WithTime(Insert(sorted, x), time) == WithTime(sorted, time) + (if x.time == time then [x] else [])
  {
    var r := Insert(sorted, x);
    if |sorted| == 0 || sorted[0].time < x.time {
      assert r[1..] == sorted;
      if x.time == time { NoneWithTime(sorted, time); }
    } else {
      assert r[1..] == Insert(sorted[1..], x);
      InsertIsLast(sorted[1..], x, time);
    }
  }

  lemma InsertFacts(sorted: seq<Row>, x: Row)
    requires Descending(sorted)
    ensures var r := Insert(sorted, x);
      && Descending(r) && |r| == |sorted| + 1 && multiset(r) == multiset(sorted) + multiset{x}
    ensures forall time ::
      WithTime(Insert(sorted, x), time) == WithTime(sorted, time) + (if x.time == time then [x] else [])
  {
    hide Insert, Descending, WithTime;
    InsertSorts(sorted, x);
    InsertAdds(sorted, x);
    forall time ensures WithTime(Insert(sorted, x), time)
        == WithTime(sorted, time) + (if x.time == time then [x] else []) {
      InsertIsLast(sorted, x, time);
    }
  }

  lemma NoneWithTime(rows: seq<Row>, time: int)
    requires forall y :: y in rows ==> y.time != time
    ensures WithTime(rows, time) == []
  {}

  lemma {:induction false} InsertMembers(sorted: seq<Row>, x: Row)
    ensures forall y :: y in Insert(sorted, x) ==> y == x || y in sorted
  {
    if |sorted| > 0 && sorted[0].time >= x.time { InsertMembers(sorted[1..], x); }
  }

  lemma {:induction false} WithTimeAppend(a: seq<Row>, x: Row, time: int)
    ensures WithTime(a + [x], time) == WithTime(a, time) + (if x.time == time then [x] else [])
  {
    hide WithTime;
    if |a| == 0 {
      assert a + [x] == [x] && a == [];
      WithTimeOne(x, time);
      assert WithTime([], time) == [] by { WithTimeNone(time); }
    } else {
      var all := a + [x];
      assert all[0] == a[0] && all[1..] == a[1..] + [x];
      WithTimeAppend(a[1..], x, time);
      WithTimeStep(all, time);
      WithTimeStep(a, time);
    }
  }

  lemma WithTimeOne(x: Row, time: int)
    ensures WithTime([x], time) == if x.time == time then [x] else []
  {
    assert [x][1..] == [];
  }

  lemma WithTimeNone(time: int)
    ensures WithTime([], time) == []
  {}

  lemma WithTimeStep(rows: seq<Row>, time: int)
    requires |rows| > 0
    ensures WithTime(rows, time) == (if rows[0].time == time then [rows[0]] else []) + WithTime(rows[1..], time)
  {}

  /** Sorted, the same rows, and rows of one time in the order they came. */
  lemma {:induction false} SortIsStable(rows: seq<Row>)
    ensures Descending(Sort(rows)) && multiset(Sort(rows)) == multiset(rows)
    ensures forall time :: WithTime(Sort(rows), time) == WithTime(rows, time)
  {
    if |rows| > 0 {
      var init, x := rows[..|rows| - 1], rows[|rows| - 1];
      SortIsStable(init);
      InsertFacts(Sort(init), x);
      assert init + [x] == rows;
      forall time ensures WithTime(rows, time) == WithTime(init, time) + (if x.time == time then [x] else []) {
        WithTimeAppend(init, x, time);
      }
    }
  }

  /** Nothing else is a stable sort. */
  lemma {:induction false} StableSortIsUnique(a: seq<Row>, b: seq<Row>)
    requires Descending(a) && Descending(b) && forall time :: WithTime(a, time) == WithTime(b, time)
    ensures a == b
    decreases |a|
  {
    assert |a| > 0 ==> WithTime(a, a[0].time) != [] && WithTime(b, a[0].time) != [];
    assert |b| > 0 ==> WithTime(b, b[0].time) != [] && WithTime(a, b[0].time) != [];
    if |a| > 0 {
      FirstWithTime(b, a[0].time);
      FirstWithTime(a, b[0].time);
      assert WithTime(a, a[0].time) == WithTime(b, a[0].time);
      assert WithTime(a, b[0].time) == WithTime(b, b[0].time);
      assert a[0].time == b[0].time;
      assert a[0] == WithTime(a, a[0].time)[0] == WithTime(b, b[0].time)[0] == b[0];
      forall time ensures WithTime(a[1..], time) == WithTime(b[1..], time) {
        assert WithTime(a, time) == WithTime(b, time);
        var head := if a[0].time == time then [a[0]] else [];
        assert WithTime(a, time)[|head|..] == WithTime(a[1..], time)
            && WithTime(b, time)[|head|..] == WithTime(b[1..], time);
      }
      StableSortIsUnique(a[1..], b[1..]);
    }
  }

  lemma {:induction false} FirstWithTime(rows: seq<Row>, time: int)
    requires Descending(rows) && WithTime(rows, time) != []
    ensures |rows| > 0 && rows[0].time >= time
  {
    if |rows| > 0 && rows[0].time != time { FirstWithTime(rows[1..], time); }
  }

  // ---------- cutting early ----------

  function Cut(rows: seq<Row>, n: nat): seq<Row> { if |rows| <= n then rows else rows[..n] }

  /** What a row can do to the first n: the rest does not matter. */
  lemma {:induction false} InsertCut(sorted: seq<Row>, x: Row, n: nat)
    ensures Cut(Insert(sorted, x), n) == Cut(Insert(Cut(sorted, n), x), n)
    decreases n
  {
    if n > 0 && |sorted| > 0 && sorted[0].time >= x.time {
      InsertCut(sorted[1..], x, n - 1);
      assert Cut(sorted, n)[1..] == Cut(sorted[1..], n - 1);
      var r, s := Insert(sorted, x), Insert(Cut(sorted, n), x);
      assert r[1..] == Insert(sorted[1..], x) && s[1..] == Insert(Cut(sorted[1..], n - 1), x);
      assert Cut(r, n) == [r[0]] + Cut(r[1..], n - 1) && Cut(s, n) == [s[0]] + Cut(s[1..], n - 1);
    }
  }

  /** Feeding rows one by one into the first n. */
  function Feed(top: seq<Row>, rows: seq<Row>, n: nat): seq<Row> {
    if |rows| == 0 then top else Cut(Insert(Feed(top, rows[..|rows| - 1], n), rows[|rows| - 1]), n)
  }

  lemma {:induction false} FeedIsSort(a: seq<Row>, b: seq<Row>, n: nat)
    ensures Cut(Sort(a + b), n) == Feed(Cut(Sort(a), n), b, n)
    decreases |b|
  {
    hide Insert, Cut;
    if |b| == 0 {
      assert a + b == a;
    } else {
      var init, x := b[..|b| - 1], b[|b| - 1];
      assert (a + b)[..|a| + |b| - 1] == a + init;
      assert Sort(a + b) == Insert(Sort(a + init), x);
      FeedIsSort(a, init, n);
      InsertCut(Sort(a + init), x, n);
    }
  }

  /** The first m rows are not older than `time`. */
  predicate NotOlder(top: seq<Row>, m: nat, time: int) {
    m <= |top| && forall i :: 0 <= i < m ==> top[i].time >= time
  }

  lemma {:induction false} InsertNotOlder(top: seq<Row>, x: Row, m: nat, time: int)
    requires Descending(top) && NotOlder(top, m, time) && x.time >= time
    ensures NotOlder(Insert(top, x), m + 1, time)
    decreases m
  {
    if |top| > 0 && top[0].time >= x.time {
      var r := Insert(top, x);
      if m > 0 {
        assert forall i :: 0 <= i < m - 1 ==> top[1..][i] == top[i + 1];
        InsertNotOlder(top[1..], x, m - 1, time);
      }
      assert forall i :: 1 <= i < m + 1 && i < |r| ==> r[i] == r[1..][i - 1];
      if m == 0 { assert r[0] == top[0]; }
    }
  }

  /** n rows that are not older leave no room. */
  lemma {:induction false} InsertBehind(top: seq<Row>, x: Row, n: nat)
    requires NotOlder(top, n, x.time) && |top| == n
    ensures Insert(top, x) == top + [x]
  {
    if n > 0 {
      assert forall i :: 0 <= i < n - 1 ==> top[1..][i] == top[i + 1];
      InsertBehind(top[1..], x, n - 1);
    }
  }

  lemma {:induction false} FeedFacts(top: seq<Row>, rows: seq<Row>, n: nat)
    requires Descending(top) && Descending(rows) && |top| <= n
    ensures var r := Feed(top, rows, n);
      && Descending(r) && |r| <= n
      && (|rows| > 0 ==> NotOlder(r, if |rows| < n then |rows| else n, rows[|rows| - 1].time))
  {
    if |rows| > 0 {
      var init, x := rows[..|rows| - 1], rows[|rows| - 1];
      FeedFacts(top, init, n);
      var t := Feed(top, init, n);
      InsertFacts(t, x);
      var m := if |init| < n then |init| else n;
      assert NotOlder(t, m, x.time);
      InsertNotOlder(t, x, m, x.time);
    }
  }

  /** Of rows already newest first, only the first n can reach the first n. */
  lemma {:induction false} FeedCut(top: seq<Row>, rows: seq<Row>, n: nat)
    requires Descending(top) && Descending(rows) && |top| <= n
    ensures Feed(top, rows, n) == Feed(top, Cut(rows, n), n)
  {
    if |rows| > n {
      var init, x := rows[..|rows| - 1], rows[|rows| - 1];
      FeedCut(top, init, n);
      FeedFacts(top, init, n);
      assert Cut(init, n) == Cut(rows, n);
      var t := Feed(top, init, n);
      assert NotOlder(t, n, x.time) && |t| == n;
      InsertBehind(t, x, n);
      assert Cut(t + [x], n) == t;
    }
  }

  // ---------- one source ----------

  function Canonical(rows: seq<Row>): seq<Row> {
    if |rows| == 0 then []
    else Canonical(rows[..|rows| - 1]) + (if rows[|rows| - 1].canonical then [rows[|rows| - 1]] else [])
  }

  /** `_import_summary_db` on an index in order; None where it raises for a full window with odd times in it. */
  function Import(rows: seq<Row>, remaining: nat): Option<seq<Row>> {
    var fetched := Cut(rows, remaining);
    var imported := Canonical(fetched);
    if |imported| < |fetched| && |fetched| == remaining then None else Some(imported)
  }

  lemma {:induction false} CanonicalFacts(rows: seq<Row>)
    ensures |Canonical(rows)| <= |rows| && (forall y :: y in Canonical(rows) ==> y in rows && y.canonical)
    ensures |Canonical(rows)| == |rows| ==> Canonical(rows) == rows
  {
    if |rows| > 0 {
      var init := rows[..|rows| - 1];
      CanonicalFacts(init);
      assert rows == init + [rows[|rows| - 1]];
    }
  }

  lemma {:induction false} CanonicalDescends(rows: seq<Row>)
    requires Indexed(rows)
    ensures Descending(Canonical(rows))
  {
    if |rows| > 0 {
      var init := rows[..|rows| - 1];
      CanonicalDescends(init);
      CanonicalFacts(init);
    }
  }

  lemma {:induction false} CanonicalPrefix(rows: seq<Row>, n: nat)
    requires n <= |rows|
    ensures Canonical(rows[..n]) <= Canonical(rows)
    decreases |rows| - n, |rows|
  {
    if n < |rows| {
      var init := rows[..|rows| - 1];
      assert rows[..n] == init[..n];
      CanonicalPrefix(init, n);
    } else {
      assert rows[..n] == rows;
    }
  }

  /** An accepted import is the first rows of everything canonical in the index. */
  lemma ImportIsCut(rows: seq<Row>, remaining: nat)
    requires Import(rows, remaining).Some?
    ensures Import(rows, remaining).value == Cut(Canonical(rows), remaining)
  {
    var fetched := Cut(rows, remaining);
    CanonicalFacts(fetched);
    CanonicalFacts(rows);
    if |rows| > remaining {
      CanonicalPrefix(rows, remaining);
      assert Canonical(fetched) == fetched;
    }
  }

  /**
   An index is left out exactly where its window is full and one of the rows in it has no canonical time;
   otherwise the import holds the canonical rows of the window, in their order.
   */
  lemma ImportExactly(rows: seq<Row>, remaining: nat)
    ensures Import(rows, remaining) == None <==>
      |rows| >= remaining && exists i :: 0 <= i < remaining && !rows[i].canonical
    ensures Import(rows, remaining).Some? ==>
      forall y :: y in Import(rows, remaining).value <==>
        y.canonical && exists i :: 0 <= i < remaining && i < |rows| && rows[i] == y
  {
    var fetched := Cut(rows, remaining);
    CanonicalFacts(fetched);
    CanonicalExactly(fetched);
    assert forall i :: 0 <= i < |fetched| ==> fetched[i] == rows[i];
  }

  lemma {:induction false} CanonicalExactly(rows: seq<Row>)
    ensures forall y :: y in Canonical(rows) <==> y.canonical && y in rows
    ensures |Canonical(rows)| < |rows| <==> exists i :: 0 <= i < |rows| && !rows[i].canonical
  {
    if |rows| > 0 {
      var init, last := rows[..|rows| - 1], rows[|rows| - 1];
      CanonicalExactly(init);
      CanonicalFacts(init);
      assert rows == init + [last];
      assert forall i :: 0 <= i < |init| ==> init[i] == rows[i];
    }
  }

  // ---------- the merge ----------

  /** The rows put together, in the order of the sources; sources that raise are left out. */
  function Pending(sources: seq<seq<Row>>, remaining: nat): seq<Row> {
    if |sources| == 0 then []
    else
      Pending(sources[..|sources| - 1], remaining)
      + (match Import(sources[|sources| - 1], remaining) case None => [] case Some(rows) => rows)
  }

  /** Every canonical row of every source that is accepted. */
  function Everything(sources: seq<seq<Row>>, remaining: nat): seq<Row> {
    if |sources| == 0 then []
    else
      Everything(sources[..|sources| - 1], remaining)
      + (if Import(sources[|sources| - 1], remaining).None? then [] else Canonical(sources[|sources| - 1]))
  }

  /** Earlier sources come first, so that of rows of one time theirs do. */
  lemma {:induction false} EverythingInOrder(a: seq<seq<Row>>, b: seq<seq<Row>>, n: nat)
    ensures Everything(a + b, n) == Everything(a, n) + Everything(b, n)
    decreases |b|
  {
    hide Import, Canonical;
    if |b| == 0 {
      assert a + b == a;
    } else {
      assert (a + b)[..|a| + |b| - 1] == a + b[..|b| - 1];
      EverythingInOrder(a, b[..|b| - 1], n);
    }
  }

  /** Cutting each source first, then sorting and cutting, is sorting everything and cutting. */
  lemma {:induction false} MergeIsTopOfEverything(sources: seq<seq<Row>>, n: nat)
    requires forall i :: 0 <= i < |sources| ==> Indexed(sources[i])
    ensures Cut(Sort(Pending(sources, n)), n) == Cut(Sort(Everything(sources, n)), n)
  {
    hide Import, Canonical, Indexed, Sort, Feed;
    if |sources| > 0 {
      var init, last := sources[..|sources| - 1], sources[|sources| - 1];
      MergeIsTopOfEverything(init, n);
      if Import(last, n).Some? {
        var p, e := Pending(init, n), Everything(init, n);
        var all := Canonical(last);
        ImportIsCut(last, n);
        CanonicalDescends(last);
        FeedIsSort(p, Cut(all, n), n);
        FeedIsSort(e, all, n);
        SortIsStable(e);
        FeedCut(Cut(Sort(e), n), all, n);
      } else {
        assert Pending(sources, n) == Pending(init, n) && Everything(sources, n) == Everything(init, n);
      }
    }
  }

  /** With canonical times everywhere no source is left out and nothing but age decides. */
  lemma {:induction false} AllCanonical(sources: seq<seq<Row>>, n: nat)
    requires forall i :: 0 <= i < |sources| ==> forall y :: y in sources[i] ==> y.canonical
    ensures Everything(sources, n) == Concat(sources)
  {
    if |sources| > 0 {
      var last := sources[|sources| - 1];
      AllCanonical(sources[..|sources| - 1], n);
      CanonicalAll(last);
      CanonicalAll(Cut(last, n));
    }
  }

  lemma {:induction false} CanonicalAll(rows: seq<Row>)
    requires forall y :: y in rows ==> y.canonical
    ensures Canonical(rows) == rows
  {
    if |rows| > 0 {
      CanonicalAll(rows[..|rows| - 1]);
      assert rows == rows[..|rows| - 1] + [rows[|rows| - 1]];
    }
  }

  function Concat(sources: seq<seq<Row>>): seq<Row> {
    if |sources| == 0 then [] else Concat(sources[..|sources| - 1]) + sources[|sources| - 1]
  }

  // ---------- the code ----------

  /** `_import_summary_db`: the fetch loop that skips odd times. */
  method ImportSummary(rows: seq<Row>, remaining: nat) returns (result: Option<seq<Row>>)
    ensures result == Import(rows, remaining)
  {
    var fetched := Cut(rows, remaining);
    var imported: seq<Row>, skipped := [], 0;
    for i := 0 to |fetched|
      invariant imported == Canonical(fetched[..i]) && |imported| + skipped == i
    {
      assert fetched[..i + 1][..i] == fetched[..i];
      if !fetched[i].canonical {
        skipped := skipped + 1;
      } else {
        imported := imported + [fetched[i]];
      }
    }
    assert fetched[..|fetched|] == fetched;
    if skipped > 0 && |fetched| == remaining { return None; }
    return Some(imported);
  }

  /** The merge of `inspect_ag_history`: the first 200 of the stable sort of every accepted canonical row. */
  method InspectHistory(sources: seq<seq<Row>>) returns (records: seq<Row>)
    requires forall i :: 0 <= i < |sources| ==> Indexed(sources[i])
    ensures records == Cut(Sort(Everything(sources, 200)), 200)
  {
    hide Import, Sort, Indexed;
    var pending: seq<Row> := [];
    for i := 0 to |sources|
      invariant pending == Pending(sources[..i], MAX_AG_HISTORY_RECORDS)
    {
      assert sources[..i + 1][..i] == sources[..i];
      var imported := ImportSummary(sources[i], MAX_AG_HISTORY_RECORDS);
      if imported.Some? { pending := pending + imported.value; } else { assert pending + [] == pending; }
    }
    assert sources[..|sources|] == sources;
    MergeIsTopOfEverything(sources, MAX_AG_HISTORY_RECORDS);
    records := Cut(Sort(pending), MAX_AG_HISTORY_RECORDS);
  }
}
