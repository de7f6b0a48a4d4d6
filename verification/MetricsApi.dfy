/** Reading published shards back and resolving legacy ranges (apps/metrics-api/src/server.ts). */
module MetricsApi {
  import opened Options
  import opened Calendar
  import opened DatedRows
  import opened Publisher
  import opened PublisherHistories

  /** `Object.keys(manifest.artifacts).find` over the deployment shards of a month. */
  function FindShard(keys: seq<Key>, kind: Kind, month: nat): Option<Key> {
    if keys == [] then None
    else if keys[0].Shard? && keys[0].kind == kind && keys[0].month == month then Some(keys[0])
    else FindShard(keys[1..], kind, month)
  }

  /** `artifactKeyForMonth`; `listed` is the manifest's key order. */
  function ArtifactKeyForMonth(m: Manifest, listed: seq<Key>, kind: Kind, month: nat): Key {
    if Shard(m.deployment, kind, month) in m.artifacts then Shard(m.deployment, kind, month)
    else if Stable(kind, month) in m.artifacts then Stable(kind, month)
    else OrDefault(FindShard(listed, kind, month), Stable(kind, month))
  }

  /** The rows of one month read for a range; a missing artifact reads as no rows. */
  function MonthRows(b: Bucket, m: Manifest, listed: seq<Key>, kind: Kind, month: nat, first: nat,
                     last: nat): seq<Row> {
    var key := ArtifactKeyForMonth(m, listed, kind, month);
    if key in b.objects then Window(b.objects[key], first, last) else []
  }

  function RowsFrom(b: Bucket, m: Manifest, listed: seq<Key>, kind: Kind, month: nat, first: nat, last: nat): seq<Row>
    decreases MonthOf(last) + 1 - month
  {
    if month > MonthOf(last) then []
    else MonthRows(b, m, listed, kind, month, first, last) + RowsFrom(b, m, listed, kind, month + 1, first, last)
  }

  /** `readArtifactRows`. */
  method ReadArtifactRows(b: Bucket, m: Manifest, listed: seq<Key>, kind: Kind, first: nat,
                          last: nat)
    returns (rows: seq<Row>)
    requires first <= last
    ensures rows == RowsFrom(b, m, listed, kind, MonthOf(first), first, last)
  {
    MonthOfMono(first, last);
    var months := Months(MonthOf(first), MonthOf(last));
    ghost var all := RowsFrom(b, m, listed, kind, MonthOf(first), first, last);
    rows := [];
    for n := 0 to |months|
      invariant all == rows + RowsFrom(b, m, listed, kind, MonthOf(first) + n, first, last)
    {
      var monthRows := MonthRows(b, m, listed, kind, months[n], first, last);
      RowsAfter(b, m, listed, kind, months[n], first, last, rows);
      rows := rows + monthRows;
    }
    assert all == rows;
  }

  lemma RowsStep(b: Bucket, m: Manifest, listed: seq<Key>, kind: Kind, month: nat, first: nat, last: nat)
    requires month <= MonthOf(last)
    ensures RowsFrom(b, m, listed, kind, month, first, last)
            == MonthRows(b, m, listed, kind, month, first, last) + RowsFrom(b, m, listed, kind, month + 1, first, last)
  {
  }

  lemma RowsAfter(b: Bucket, m: Manifest, listed: seq<Key>, kind: Kind, month: nat, first: nat, last: nat,
                  done: seq<Row>)
    requires month <= MonthOf(last)
    ensures done + RowsFrom(b, m, listed, kind, month, first, last)
            == done + MonthRows(b, m, listed, kind, month, first, last)
                + RowsFrom(b, m, listed, kind, month + 1, first, last)
  {
    AppendAssociates(done, MonthRows(b, m, listed, kind, month, first, last),
                     RowsFrom(b, m, listed, kind, month + 1, first, last));
  }

  lemma AppendAssociates<T>(a: seq<T>, b: seq<T>, c: seq<T>)
    ensures a + (b + c) == a + b + c
  {
  }

  /** Reading any range inside the published dates returns exactly the final source rows of that range, in order. */
  lemma {:induction false} ReadsFrom(truth: Truth, publicStart: nat, b: Bucket, listed: seq<Key>, kind: Kind,
                                     month: nat,
                                     first: nat, last: nat)
    requires ShardsTrue(truth, publicStart, b) && b.manifest.Some? && Sorted(truth(b.manifest.value.deployment, kind))
    requires publicStart <= first <= last <= b.manifest.value.latest && MonthOf(first) <= month <= MonthOf(last)
    ensures RowsFrom(b, b.manifest.value, listed, kind, month, first, last)
            == Window(truth(b.manifest.value.deployment, kind), Later(first, MonthStart(month)), last)
    decreases MonthOf(last) - month
  {
    var m := b.manifest.value;
    var rows := truth(m.deployment, kind);
    MonthReads(truth, publicStart, b, listed, kind, month, first, last);
    RowsStep(b, m, listed, kind, month, first, last);
    if month < MonthOf(last) {
      ReadsFrom(truth, publicStart, b, listed, kind, month + 1, first, last);
      JoinMonth(rows, first, last, month);
    } else {
      assert RowsFrom(b, m, listed, kind, month + 1, first, last) == [];
    }
  }

  lemma JoinMonth(rows: seq<Row>, first: nat, last: nat, month: nat)
    requires Sorted(rows) && MonthOf(first) <= month < MonthOf(last)
    ensures Window(rows, Later(first, MonthStart(month)), Earlier(last, MonthEnd(month)))
              + Window(rows, Later(first, MonthStart(month + 1)), last)
            == Window(rows, Later(first, MonthStart(month)), last)
  {
    MonthInside(first, last, month);
    WindowSplit(rows, Later(first, MonthStart(month)), MonthEnd(month), last);
  }

  lemma MonthInside(first: nat, last: nat, month: nat)
    requires MonthOf(first) <= month < MonthOf(last)
    ensures Later(first, MonthStart(month)) <= MonthEnd(month) + 1 && MonthEnd(month) <= last
    ensures Later(first, MonthStart(month + 1)) == MonthEnd(month) + 1
            && Earlier(last, MonthEnd(month)) == MonthEnd(month)
  {
    MonthStartMono(month, MonthOf(last));
    MonthStartMono(MonthOf(first), month + 1);
  }

  lemma MonthReads(truth: Truth, publicStart: nat, b: Bucket, listed: seq<Key>, kind: Kind, month: nat, first: nat,
                   last: nat)
    requires ShardsTrue(truth, publicStart, b) && b.manifest.Some?
    requires publicStart <= first <= last <= b.manifest.value.latest && MonthOf(first) <= month <= MonthOf(last)
    ensures MonthRows(b, b.manifest.value, listed, kind, month, first, last)
            == Window(truth(b.manifest.value.deployment, kind), Later(first, MonthStart(month)),
                Earlier(last, MonthEnd(month)))
  {
    var m := b.manifest.value;
    var rows, key := truth(m.deployment, kind), Shard(m.deployment, kind, month);
    MonthOfMono(publicStart, first);
    MonthOfMono(last, m.latest);
    assert key in m.artifacts;
    assert ShardTrue(truth, publicStart, m, kind, month, b.objects[key]);
    NarrowerWindow(b.objects[key], rows, publicStart, m.latest, first, last, MonthStart(month), MonthEnd(month));
  }

  /** Rows that agree on a range of dates, within a month, agree on a narrower one. */
  lemma NarrowerWindow(shard: seq<Row>, rows: seq<Row>, lo: int, hi: int, first: int, last: int, start: int, end: int)
    requires Window(shard, lo, hi) == Window(rows, Later(lo, start), Earlier(hi, end)) && lo <= first && last <= hi
    ensures Window(shard, first, last) == Window(rows, Later(first, start), Earlier(last, end))
  {
    WindowWindow(shard, lo, hi, first, last);
    WindowWindow(rows, Later(lo, start), Earlier(hi, end), first, last);
  }

  // ---------- Legacy ranges ----------

  predicate InRange(day: nat, range: Range) {
    range.start <= day <= range.end
  }

  /**
   The paginated case of `resolveLegacyRange`: `None` answers with no rows; the first check rejects an over-
   long request.
   */
  function ResolveLegacyRange(start: Option<nat>, end: Option<nat>, earliest: nat, latest: nat,
                              maxDays: int): Result<Option<Range>> {
    var first, last := OrDefault(start, earliest), OrDefault(end, latest);
    if last < first then Err("end must be greater than or equal to start")
    else if last - first + 1 > maxDays then Err("Requested range is too long")
    else if last < earliest || first > latest then Ok(None)
    else
      var clampedFirst, clampedLast := Later(first, earliest), Earlier(last, latest);
      if clampedLast < clampedFirst then Err("end must be greater than or equal to start")
      else if clampedLast - clampedFirst + 1 > maxDays then Err("Requested range is too long")
      else Ok(Some(Range(clampedFirst, clampedLast)))
  }

  /** A legacy request within the limit never fails, and its range is exactly the requested days that are published. */
  lemma LegacyRangeIsIntersection(start: Option<nat>, end: Option<nat>, earliest: nat, latest: nat, maxDays: int)
    requires earliest <= latest
    ensures var first, last := OrDefault(start, earliest), OrDefault(end, latest);
            var r := ResolveLegacyRange(start, end, earliest, latest, maxDays);
            && (r.Ok? <==> first <= last && last - first + 1 <= maxDays)
            && (r.Ok? ==> forall day: nat ::
                  (r.value.Some? && InRange(day, r.value.value))
                  <==> (InRange(day, Range(first, last)) && InRange(day, Range(earliest, latest))))
  {
    var first, last := OrDefault(start, earliest), OrDefault(end, latest);
    assert first <= last ==> Earlier(last, latest) - Later(first, earliest) <= last - first;
  }
}
