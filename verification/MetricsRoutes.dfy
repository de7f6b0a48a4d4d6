/**
 The routes the client pages through (apps/metrics-api/src/server.ts, apps/client/src/client.ts): records
 selected by the blocks of their day's metric, and one metric for every day. Publishing, reading and
 paginating either route gives what it says of the source's final rows.
 */
module MetricsRoutes {
  import opened Options
  import opened Calendar
  import opened DatedRows
  import opened Publisher
  import opened PublisherHistories
  import opened MetricsApi

  // ---------- Selection by the metric's blocks ----------

  /** `new Map(rows.map((metric) => [metric.date, metric]))`: the last row of a date wins. */
  function ByDate(rows: seq<Row>): map<nat, Row> {
    if rows == [] then map[] else ByDate(rows[..|rows| - 1])[rows[|rows| - 1].date := rows[|rows| - 1]]
  }

  /** `isSelectedMetricBlock`. */
  predicate IsSelected(metric: Row, record: Row) {
    && metric.Metric? && record.Record? && record.blockchain in metric.blocks
    && metric.blocks[record.blockchain] != 0 && record.block == metric.blocks[record.blockchain]
  }

  /** Whether the metric of the record's day selects it. */
  predicate IsKept(metrics: map<nat, Row>, r: Row) {
    r.date in metrics && IsSelected(metrics[r.date], r)
  }

  /** The records that the metric of their day selects, in order. */
  function Selected(metrics: map<nat, Row>, records: seq<Row>): seq<Row> {
    if records == [] then []
    else
      (if IsKept(metrics, records[0]) then [records[0]] else []) + Selected(metrics, records[1..])
  }

  /** `readSelectedDailyRecords`. */
  function ReadSelected(b: Bucket, m: Manifest, listed: seq<Key>, kind: Kind, first: nat, last: nat): seq<Row> {
    Selected(ByDate(RowsFrom(b, m, listed, Metrics, MonthOf(first), first, last)),
             RowsFrom(b, m, listed, kind, MonthOf(first), first, last))
  }

  /** The index of the row that stands for a date. */
  predicate LastOfDate(rows: seq<Row>, date: nat, n: nat) {
    n < |rows| && rows[n].date == date && forall k :: n < k < |rows| ==> rows[k].date != date
  }

  /** The map holds a date exactly if some row has it, and then the last such row. */
  lemma {:induction false} ByDateIsLast(rows: seq<Row>, date: nat)
    ensures date in ByDate(rows) <==> HasDay(rows, date)
    ensures forall n: nat :: LastOfDate(rows, date, n) ==> date in ByDate(rows) && ByDate(rows)[date] == rows[n]
  {
    if rows == [] {
    } else {
      var last := |rows| - 1;
      assert rows == rows[..last] + [rows[last]];
      ByDateIsLast(rows[..last], date);
      if rows[last].date == date {
        assert rows[last] in rows;
      } else {
        HasDayInFront(rows, last, date);
        forall n: nat | LastOfDate(rows, date, n)
          ensures LastOfDate(rows[..last], date, n) && rows[..last][n] == rows[n]
        {
        }
      }
    }
  }

  lemma HasDayInFront(rows: seq<Row>, last: nat, date: nat)
    requires last + 1 == |rows| && rows[last].date != date
    ensures HasDay(rows, date) <==> HasDay(rows[..last], date)
  {
    if HasDay(rows, date) {
      var r :| r in rows && r.date == date;
      assert r in rows[..last];
    }
    if HasDay(rows[..last], date) {
      var r :| r in rows[..last] && r.date == date;
      assert r in rows;
    }
  }

  /** Rows of other dates do not matter for a date. */
  lemma {:induction false} ByDateInWindow(rows: seq<Row>, lo: int, hi: int, date: nat)
    requires lo <= date <= hi
    ensures date in ByDate(Window(rows, lo, hi)) <==> date in ByDate(rows)
    ensures date in ByDate(rows) ==> ByDate(Window(rows, lo, hi))[date] == ByDate(rows)[date]
  {
    if rows == [] {
    } else {
      var last := |rows| - 1;
      assert rows == rows[..last] + [rows[last]];
      ByDateInWindow(rows[..last], lo, hi, date);
      WindowAppend(rows[..last], [rows[last]], lo, hi);
      var front := Window(rows[..last], lo, hi);
      if lo <= rows[last].date <= hi {
        assert Window(rows, lo, hi) == front + [rows[last]];
        assert (front + [rows[last]])[..|front|] == front;
      } else {
        assert Window(rows, lo, hi) == front + [] == front;
      }
    }
  }

  /** Selection looks only at the metrics of the records' own dates. */
  lemma {:induction false} SelectedAgree(a: map<nat, Row>, c: map<nat, Row>, records: seq<Row>)
    requires forall r :: r in records ==> (r.date in a <==> r.date in c) && (r.date in a ==> a[r.date] == c[r.date])
    ensures Selected(a, records) == Selected(c, records)
  {
    if records == [] {
    } else {
      assert records[0] in records && forall r :: r in records[1..] ==> r in records;
      SelectedAgree(a, c, records[1..]);
    }
  }

  lemma SelectedCons(metrics: map<nat, Row>, r: Row, rest: seq<Row>)
    ensures Selected(metrics, [r] + rest) == if IsKept(metrics, r) then [r] + Selected(metrics, rest)
                                             else Selected(metrics, rest)
  {
    assert ([r] + rest)[1..] == rest;
    assert [] + Selected(metrics, rest) == Selected(metrics, rest);
  }

  lemma WindowCons(r: Row, rest: seq<Row>, lo: int, hi: int)
    ensures Window([r] + rest, lo, hi) == if lo <= r.date <= hi then [r] + Window(rest, lo, hi)
                                          else Window(rest, lo, hi)
  {
    assert ([r] + rest)[1..] == rest;
    assert [] + Window(rest, lo, hi) == Window(rest, lo, hi);
  }

  /** Selecting commutes with taking a range of dates. */
  lemma {:induction false} SelectedWindow(metrics: map<nat, Row>, records: seq<Row>, lo: int, hi: int)
    ensures Selected(metrics, Window(records, lo, hi)) == Window(Selected(metrics, records), lo, hi)
  {
    if records == [] {
    } else {
      var r, rest := records[0], records[1..];
      assert records == [r] + rest;
      SelectedWindow(metrics, rest, lo, hi);
      WindowCons(r, rest, lo, hi);
      SelectedCons(metrics, r, rest);
      if lo <= r.date <= hi {
        SelectedCons(metrics, r, Window(rest, lo, hi));
      }
      if IsKept(metrics, r) {
        WindowCons(r, Selected(metrics, rest), lo, hi);
      }
    }
  }

  lemma {:induction false} SelectedSorted(metrics: map<nat, Row>, records: seq<Row>)
    requires Sorted(records)
    ensures Sorted(Selected(metrics, records))
  {
    if records == [] {
    } else {
      var first, rest := records[0], Selected(metrics, records[1..]);
      SelectedSorted(metrics, records[1..]);
      forall r | r in rest ensures first.date <= r.date {
        SelectedMembers(metrics, records[1..], r);
        var n :| 0 <= n < |records[1..]| && records[1..][n] == r;
        assert records[n + 1] == r;
      }
      SortedCons(first, rest);
    }
  }

  lemma SortedCons(first: Row, rest: seq<Row>)
    requires Sorted(rest) && forall r :: r in rest ==> first.date <= r.date
    ensures Sorted([first] + rest) && Sorted([] + rest)
  {
    assert [] + rest == rest;
    forall i, j | 0 <= i <= j < |[first] + rest| ensures ([first] + rest)[i].date <= ([first] + rest)[j].date {
      ConsOrdered(first, rest, i, j);
    }
  }

  lemma ConsOrdered(first: Row, rest: seq<Row>, i: nat, j: nat)
    requires Sorted(rest) && (forall r :: r in rest ==> first.date <= r.date) && i <= j <= |rest|
    ensures ([first] + rest)[i].date <= ([first] + rest)[j].date
  {
    if 0 < i {
      assert rest[i - 1].date <= rest[j - 1].date;
    } else if 0 < j {
      assert rest[j - 1] in rest;
    }
  }

  /** Exactly the records of the source are served whose day has a metric that names their block. */
  lemma {:induction false} SelectedMembers(metrics: map<nat, Row>, records: seq<Row>, r: Row)
    ensures r in Selected(metrics, records) <==> r in records && IsKept(metrics, r)
  {
    if records == [] {
    } else {
      SelectedMembers(metrics, records[1..], r);
    }
  }

  // ---------- One metric for every day ----------

  const ALL_CHAINS := [42161, 1, 250, 137, 8453, 80094]

  function Missing(chains: seq<nat>, indexed: seq<nat>): seq<nat> {
    if chains == [] then []
    else (if chains[0] in indexed then [] else [chains[0]]) + Missing(chains[1..], indexed)
  }

  /** `normalizeMetricCompleteness`. */
  function Normalized(metric: Row): Row {
    if metric.Metric? then
      metric.(chainsMissing := Missing(ALL_CHAINS, metric.chainsIndexed),
              complete := 42161 in metric.chainsIndexed && 1 in metric.chainsIndexed)
    else metric
  }

  /**
   An entry of the metrics route: a day's metric with its attached records, or the empty metric of a day
   without one.
   */
  datatype Daily = Daily(date: nat, metric: Option<Row>, assets: seq<Row>, supplies: seq<Row>)

  /** The rows of the three kinds that a request has read, the records only if it asked for them. */
  datatype Read = Read(metrics: seq<Row>, assets: seq<Row>, supplies: seq<Row>)

  /** `attachMetricRecords` on the records of one day. */
  function Attached(metric: Row, records: seq<Row>, day: nat): seq<Row> {
    Selected(map[day := metric], Window(records, day, day))
  }

  /** The mapping of `readDailyMetrics` at one day. */
  function Entry(read: Read, day: nat): Daily {
    var byDate := ByDate(read.metrics);
    if day !in byDate then Daily(day, None, [], [])
    else Daily(day, Some(Normalized(byDate[day])), Attached(byDate[day], read.assets, day),
        Attached(byDate[day], read.supplies, day))
  }

  /** The mapping over `dateKeysForRange`. */
  function Entries(read: Read, first: nat, days: nat): seq<Daily> {
    seq(days, n requires 0 <= n => Entry(read, first + n))
  }

  /** What a request reads for `first..last`. */
  function ReadAll(b: Bucket, m: Manifest, listed: seq<Key>, includeRecords: bool, first: nat, last: nat): Read {
    Read(RowsFrom(b, m, listed, Metrics, MonthOf(first), first, last),
         if includeRecords then RowsFrom(b, m, listed, TreasuryAssets, MonthOf(first), first, last) else [],
         if includeRecords then RowsFrom(b, m, listed, OhmSupply, MonthOf(first), first, last) else [])
  }

  /** `readDailyMetrics`. */
  function ReadDaily(b: Bucket, m: Manifest, listed: seq<Key>, includeRecords: bool, first: nat, last: nat): seq<Daily>
    requires first <= last
  {
    Entries(ReadAll(b, m, listed, includeRecords, first, last), first, last - first + 1)
  }

  /** The source's final rows, as far as a request asks for them. */
  function Final(truth: Truth, deployment: string, includeRecords: bool): Read {
    Read(truth(deployment, Metrics), if includeRecords then truth(deployment, TreasuryAssets) else [],
         if includeRecords then truth(deployment, OhmSupply) else [])
  }

  function Cut(read: Read, lo: int, hi: int): Read {
    Read(Window(read.metrics, lo, hi), Window(read.assets, lo, hi), Window(read.supplies, lo, hi))
  }

  /** A day's entry depends only on the rows of that day. */
  lemma EntryInCut(read: Read, lo: int, hi: int, day: nat)
    requires lo <= day <= hi
    ensures Entry(Cut(read, lo, hi), day) == Entry(read, day)
  {
    ByDateInWindow(read.metrics, lo, hi, day);
    WindowWindow(read.assets, lo, hi, day, day);
    WindowWindow(read.supplies, lo, hi, day, day);
  }

  /**
   A metric is served exactly on the days that have one, and it is the last of the day, its completeness
   recomputed.
   */
  lemma EntryMeans(read: Read, day: nat)
    ensures Entry(read, day).date == day && (Entry(read, day).metric.Some? <==> HasDay(read.metrics, day))
    ensures forall n: nat :: LastOfDate(read.metrics, day, n) ==>
            Entry(read, day).metric == Some(Normalized(read.metrics[n]))
  {
    ByDateIsLast(read.metrics, day);
  }

  /** Attached are exactly the records of the day that its metric selects, if the request asked for records. */
  lemma EntryAttaches(read: Read, day: nat, n: nat, r: Row)
    requires LastOfDate(read.metrics, day, n)
    ensures r in Entry(read, day).assets <==> r in read.assets && r.date == day && IsSelected(read.metrics[n], r)
    ensures r in Entry(read, day).supplies <==> r in read.supplies && r.date == day && IsSelected(read.metrics[n], r)
  {
    ByDateIsLast(read.metrics, day);
    AttachedMembers(read.metrics[n], read.assets, day, r);
    AttachedMembers(read.metrics[n], read.supplies, day, r);
  }

  lemma AttachedMembers(metric: Row, records: seq<Row>, day: nat, r: Row)
    ensures r in Attached(metric, records, day) <==> r in records && r.date == day && IsSelected(metric, r)
  {
    SelectedMembers(map[day := metric], Window(records, day, day), r);
    WindowMembers(records, day, day, r);
  }

  // ---------- Pagination ----------

  /** `fetchAutoPaginated`: one page for each chunk, flattened. */
  function Pages<T>(chunks: seq<Chunk>, page: Chunk -> seq<T>): seq<T> {
    if chunks == [] then [] else page(chunks[0]) + Pages(chunks[1..], page)
  }

  lemma {:induction false} PagesAgree<T>(chunks: seq<Chunk>, page: Chunk -> seq<T>, other: Chunk -> seq<T>)
    requires forall c :: c in chunks ==> page(c) == other(c)
    ensures Pages(chunks, page) == Pages(chunks, other)
  {
    if chunks == [] {
    } else {
      assert chunks[0] in chunks && forall c :: c in chunks[1..] ==> c in chunks;
      PagesAgree(chunks[1..], page, other);
    }
  }

  function WindowPage(rows: seq<Row>): Chunk -> seq<Row> {
    (c: Chunk) => Window(rows, c.first, c.last)
  }

  /** Windows over the chunks of a range concatenate to the window over the range. */
  lemma {:induction false} WindowPages(rows: seq<Row>, first: nat, last: nat, maxDays: int)
    requires Sorted(rows) && first <= last && maxDays >= 1
    ensures Pages(Chunks(first, last, maxDays), WindowPage(rows)) == Window(rows, first, last)
    decreases last - first
  {
    var end := if last <= first + maxDays - 1 then last else first + maxDays - 1;
    FirstPage(first, end, last, maxDays, WindowPage(rows));
    if end < last {
      WindowPages(rows, end + 1, last, maxDays);
      WindowSplit(rows, first, end, last);
    }
  }

  function EntryPage(read: Read): Chunk -> seq<Daily> {
    (c: Chunk) => if c.first <= c.last then Entries(read, c.first, c.last - c.first + 1) else []
  }

  /** Entries over the chunks of a range concatenate to the entries over the range. */
  lemma {:induction false} EntryPages(read: Read, first: nat, last: nat, maxDays: int)
    requires first <= last && maxDays >= 1
    ensures Pages(Chunks(first, last, maxDays), EntryPage(read)) == Entries(read, first, last - first + 1)
    decreases last - first
  {
    var end := if last <= first + maxDays - 1 then last else first + maxDays - 1;
    FirstPage(first, end, last, maxDays, EntryPage(read));
    EntryPageAt(read, first, end);
    if end < last {
      EntryPages(read, end + 1, last, maxDays);
      EntriesSplit(read, first, end, last);
    }
  }

  lemma FirstPage<T>(first: nat, end: nat, last: nat, maxDays: int, page: Chunk -> seq<T>)
    requires first <= last && maxDays >= 1 && end == if last <= first + maxDays - 1 then last else first + maxDays - 1
    ensures Pages(Chunks(first, last, maxDays), page)
            == page(Chunk(first, end)) + if end < last then Pages(Chunks(end + 1, last, maxDays), page) else []
  {
    var chunks := Chunks(first, last, maxDays);
    assert chunks[0] == Chunk(first, end) && chunks[1..] == Chunks(end + 1, last, maxDays);
  }

  lemma EntryPageAt(read: Read, first: nat, end: nat)
    requires first <= end
    ensures EntryPage(read)(Chunk(first, end)) == Entries(read, first, end - first + 1)
  {
  }

  lemma EntriesSplit(read: Read, first: nat, end: nat, last: nat)
    requires first <= end < last
    ensures Entries(read, first, last - first + 1)
            == Entries(read, first, end - first + 1) + Entries(read, end + 1, last - end)
  {
  }

  // ---------- Publish, read, paginate ----------

  /** A page of the records routes. */
  function SelectedPage(b: Bucket, m: Manifest, listed: seq<Key>, kind: Kind): Chunk -> seq<Row> {
    (c: Chunk) => ReadSelected(b, m, listed, kind, c.first, c.last)
  }

  /** A page of the metrics route. */
  function DailyPage(b: Bucket, m: Manifest, listed: seq<Key>, includeRecords: bool): Chunk -> seq<Daily> {
    (c: Chunk) => if c.first <= c.last then ReadDaily(b, m, listed, includeRecords, c.first, c.last) else []
  }

  /** One page of records is the selection among all final records, cut down to the page's dates. */
  lemma SelectedRead(truth: Truth, publicStart: nat, b: Bucket, listed: seq<Key>, kind: Kind, first: nat, last: nat)
    requires ShardsTrue(truth, publicStart, b) && b.manifest.Some? && forall d, k :: Sorted(truth(d, k))
    requires publicStart <= first <= last <= b.manifest.value.latest
    ensures var d := b.manifest.value.deployment;
            ReadSelected(b, b.manifest.value, listed, kind, first, last)
            == Window(Selected(ByDate(truth(d, Metrics)), truth(d, kind)), first, last)
  {
    var d := b.manifest.value.deployment;
    var metrics, records := truth(d, Metrics), truth(d, kind);
    MonthOfMono(first, last);
    ReadsFrom(truth, publicStart, b, listed, Metrics, MonthOf(first), first, last);
    ReadsFrom(truth, publicStart, b, listed, kind, MonthOf(first), first, last);
    SelectedLocally(metrics, records, first, last);
  }

  lemma SelectedLocally(metrics: seq<Row>, records: seq<Row>, first: nat, last: nat)
    ensures Selected(ByDate(Window(metrics, first, last)), Window(records, first, last))
            == Window(Selected(ByDate(metrics), records), first, last)
  {
    forall r | r in Window(records, first, last)
      ensures r.date in ByDate(Window(metrics, first, last)) <==> r.date in ByDate(metrics)
      ensures r.date in ByDate(metrics) ==> ByDate(Window(metrics, first, last))[r.date] == ByDate(metrics)[r.date]
    {
      WindowMembers(records, first, last, r);
      ByDateInWindow(metrics, first, last, r.date);
    }
    SelectedAgree(ByDate(Window(metrics, first, last)), ByDate(metrics), Window(records, first, last));
    SelectedWindow(ByDate(metrics), records, first, last);
  }

  /** One page of metrics has, for each of its days in order, the entry made from all final rows. */
  lemma DailyRead(truth: Truth, publicStart: nat, b: Bucket, listed: seq<Key>, includeRecords: bool, first: nat,
                  last: nat)
    requires ShardsTrue(truth, publicStart, b) && b.manifest.Some? && forall d, k :: Sorted(truth(d, k))
    requires publicStart <= first <= last <= b.manifest.value.latest
    ensures ReadDaily(b, b.manifest.value, listed, includeRecords, first, last)
            == Entries(Final(truth, b.manifest.value.deployment, includeRecords), first, last - first + 1)
  {
    var final := Final(truth, b.manifest.value.deployment, includeRecords);
    MonthOfMono(first, last);
    ReadsFrom(truth, publicStart, b, listed, Metrics, MonthOf(first), first, last);
    ReadsFrom(truth, publicStart, b, listed, TreasuryAssets, MonthOf(first), first, last);
    ReadsFrom(truth, publicStart, b, listed, OhmSupply, MonthOf(first), first, last);
    assert ReadAll(b, b.manifest.value, listed, includeRecords, first, last) == Cut(final, first, last);
    EntriesInCut(final, first, last);
  }

  lemma EntriesInCut(read: Read, first: nat, last: nat)
    requires first <= last
    ensures Entries(Cut(read, first, last), first, last - first + 1) == Entries(read, first, last - first + 1)
  {
    var cut, all := Entries(Cut(read, first, last), first, last - first + 1), Entries(read, first, last - first + 1);
    forall n | 0 <= n < |all| ensures cut[n] == all[n] {
      EntryInCut(read, first, last, first + n);
    }
  }

  /**
   Publish, read, paginate the records: after every steady history of successful, skipped and crashed runs,
   and at each of their steps, paginating a records route over any published range, in chunks of any size,
   gives exactly the source's final records of the range that their day's metric selects: none lost, none
   repeated, in order.
   */
  lemma PublishReadPaginateRecords(truth: Truth, publicStart: nat, history: seq<Attempt>, listed: seq<Key>, kind: Kind,
                                   first: nat, last: nat, maxDays: int)
    requires SteadyRuns(truth, publicStart, history) && AfterAll(history).manifest.Some?
    requires forall d, k :: Sorted(truth(d, k))
    requires var m := AfterAll(history).manifest.value; m.earliest <= first <= last <= m.latest
    requires maxDays >= 1
    ensures var b := AfterAll(history);
            var d := b.manifest.value.deployment;
            Pages(Chunks(first, last, maxDays), SelectedPage(b, b.manifest.value, listed, kind))
            == Window(Selected(ByDate(truth(d, Metrics)), truth(d, kind)), first, last)
  {
    var b := AfterAll(history);
    var d := b.manifest.value.deployment;
    var selected := Selected(ByDate(truth(d, Metrics)), truth(d, kind));
    ShardsAlwaysTrue(truth, publicStart, history);
    ChunksTile(first, last, maxDays);
    forall c | c in Chunks(first, last, maxDays)
      ensures SelectedPage(b, b.manifest.value, listed, kind)(c) == WindowPage(selected)(c)
    {
      SelectedRead(truth, publicStart, b, listed, kind, c.first, c.last);
    }
    PagesAgree(Chunks(first, last, maxDays), SelectedPage(b, b.manifest.value, listed, kind), WindowPage(selected));
    SelectedSorted(ByDate(truth(d, Metrics)), truth(d, kind));
    WindowPages(selected, first, last, maxDays);
  }

  /**
   Publish, read, paginate the metrics: likewise, paginating the metrics route gives one entry for each day of
   the range, in order, made from the source's final rows.
   */
  lemma PublishReadPaginateMetrics(truth: Truth, publicStart: nat, history: seq<Attempt>, listed: seq<Key>,
                                   includeRecords: bool, first: nat, last: nat, maxDays: int)
    requires SteadyRuns(truth, publicStart, history) && AfterAll(history).manifest.Some?
    requires forall d, k :: Sorted(truth(d, k))
    requires var m := AfterAll(history).manifest.value; m.earliest <= first <= last <= m.latest
    requires maxDays >= 1
    ensures var b := AfterAll(history);
            Pages(Chunks(first, last, maxDays), DailyPage(b, b.manifest.value, listed, includeRecords))
            == Entries(Final(truth, b.manifest.value.deployment, includeRecords), first, last - first + 1)
  {
    var b := AfterAll(history);
    var final := Final(truth, b.manifest.value.deployment, includeRecords);
    ShardsAlwaysTrue(truth, publicStart, history);
    ChunksTile(first, last, maxDays);
    var page, other := DailyPage(b, b.manifest.value, listed, includeRecords), EntryPage(final);
    forall c | c in Chunks(first, last, maxDays) ensures page(c) == other(c) {
      DailyPageRead(truth, publicStart, b, listed, includeRecords, c);
    }
    PagesAgree(Chunks(first, last, maxDays), page, other);
    EntryPages(final, first, last, maxDays);
  }

  lemma DailyPageRead(truth: Truth, publicStart: nat, b: Bucket, listed: seq<Key>, includeRecords: bool, c: Chunk)
    requires ShardsTrue(truth, publicStart, b) && b.manifest.Some? && forall d, k :: Sorted(truth(d, k))
    requires publicStart <= c.first <= c.last <= b.manifest.value.latest
    ensures DailyPage(b, b.manifest.value, listed, includeRecords)(c)
            == EntryPage(Final(truth, b.manifest.value.deployment, includeRecords))(c)
  {
    DailyRead(truth, publicStart, b, listed, includeRecords, c.first, c.last);
  }
}
