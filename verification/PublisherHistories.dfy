/**
 Whole histories of non-overlapping publisher runs: successful, skipped or crashed after any store
 operation, with deployment ids changing freely. What holds after every history holds at every
 intermediate step, because a crash may come at any step.
 */
module PublisherHistories {
  import opened Options
  import opened Calendar
  import opened DatedRows
  import opened Publisher
  import opened PublisherGaps

  lemma MonthOfStart(month: nat)
    ensures MonthOf(MonthStart(month)) == month
  {
    MonthUnique(MonthStart(month), month);
  }

  // ---------- No gaps, no strays, nothing missing ----------

  /** Facts about the range of a default-date run that is not skipped. */
  lemma DefaultRange(b: Bucket, i: Input)
    requires Good(b) && DefaultDates(i) && Published(b, i).Some?
    ensures var range := Published(b, i).value;
            && range.start <= range.end == i.latest.value && i.publicStart <= range.start
            && (range.start == i.publicStart || range.start == MonthStart(MonthOf(range.start)))
            && (!HasPublished(b.manifest, i.deployment) ==> range.start == i.publicStart)
            && (HasPublished(b.manifest, i.deployment) ==>
                  && b.manifest.value.deployment == i.deployment
                  && (range.start > i.publicStart ==> MonthOf(range.start) <= MonthOf(b.manifest.value.latest + 1)))
  {
    if HasPublished(b.manifest, i.deployment) {
      var first := MonthStart(MonthOf(b.manifest.value.latest + 1));
      var refresh := MonthStart(PreviousMonth(MonthOf(i.latest.value)));
      MonthOfStart(MonthOf(b.manifest.value.latest + 1));
      MonthOfStart(PreviousMonth(MonthOf(i.latest.value)));
      MonthOfMono(Earlier(refresh, first), first);
    }
  }

  /** A run that overrides no date, or whose dates leave no gap, and whose cleanup lists the store truthfully. */
  ghost predicate GaplessRun(b: Bucket, a: Attempt) {
    && StaleKeys(b, a.input.deployment, a.stale)
    && (DefaultDates(a.input) || (a.input.latest.Some? ==> LeavesNoGap(a.input, b.manifest)))
  }

  ghost predicate GaplessRuns(history: seq<Attempt>) {
    forall n :: 0 <= n < |history| ==> GaplessRun(AfterAll(history[..n]), history[n])
  }

  lemma NewManifestGood(b: Bucket, i: Input, b': Bucket)
    requires Good(b) && Published(b, i).Some? && ManifestOut(b, b', i, Published(b, i).value)
    ensures Good(b') <==> LeavesNoGap(i, b.manifest)
  {
    var m := NewManifest(b, i, Published(b, i).value);
    NoGapExactly(b, i);
    forall key | key in m.artifacts ensures key in b'.objects && Kept(key, i.deployment, m.earliest, m.latest) {
    }
  }

  /** Every step of a gapless run keeps the manifest good. */
  lemma StepKeepsGood(b: Bucket, a: Attempt)
    requires Good(b) && GaplessRun(b, a)
    ensures Good(AfterAttempt(b, a))
  {
    Stages(b, a);
    var i, b' := a.input, AfterAttempt(b, a);
    if Published(b, i).Some? && ManifestOut(b, b', i, Published(b, i).value) {
      NewManifestGood(b, i, b');
      if DefaultDates(i) {
        DefaultLeavesNoGap(b, i);
      }
    }
  }

  /**
   After every history of gapless runs, and at each of their steps, the published manifest lists all
   three shards of its own deployment for every month from its earliest to its latest date, no shard of
   another deployment or month, and only keys that exist in the store.
   */
  lemma {:induction false} ManifestAlwaysGood(history: seq<Attempt>)
    requires GaplessRuns(history)
    ensures Good(AfterAll(history))
  {
    if history == [] {
    } else {
      var n := |history| - 1;
      forall k | 0 <= k < n ensures history[..n][..k] == history[..k] {
      }
      ManifestAlwaysGood(history[..n]);
      StepKeepsGood(AfterAll(history[..n]), history[n]);
    }
  }

  // ---------- Completed runs ----------

  /** The state a completed run leaves. */
  lemma RunToTheEnd(b: Bucket, a: Attempt)
    requires StaleKeys(b, a.input.deployment, a.stale)
    requires Published(b, a.input).Some? && a.completed >= |Plan(b, a.input, a.stale)|
    ensures ManifestOut(b, AfterAttempt(b, a), a.input, Published(b, a.input).value)
    ensures forall key :: key in AfterAttempt(b, a).objects ==> !IsStale(key, a.input.deployment)
  {
    var i := a.input;
    var range := Published(b, i).value;
    var head, deletes := Puts(i, range) + [PutManifest(NewManifest(b, i, range))], Deletes(a.stale);
    var ops := Plan(b, i, a.stale);
    assert ops[..|ops|] == ops;
    ExecuteAppend(b, head, deletes);
    AfterManifest(b, i, range);
    forall op | op in deletes ensures op.Delete? && IsStale(op.key, i.deployment) {
      var j :| 0 <= j < |deletes| && deletes[j] == op;
      assert a.stale[j] in a.stale;
    }
    CleanupKeeps(b, Execute(b, head), i, range, deletes);
    AfterDeletes(Execute(b, head), deletes);
    forall key | IsStale(key, i.deployment) ensures key !in Execute(Execute(b, head), deletes).objects {
      WrittenKey(i, range, key);
      if key in b.objects {
        var j :| 0 <= j < |a.stale| && a.stale[j] == key;
        assert deletes[j] == Delete(key);
      }
    }
  }

  /**
   A completed run removes exactly the shards of other deployments, and its manifest's hashes match
   everything it wrote.
   */
  lemma CompletedRun(b: Bucket, a: Attempt)
    requires StaleKeys(b, a.input.deployment, a.stale)
    requires Published(b, a.input).Some? && a.completed >= |Plan(b, a.input, a.stale)|
    ensures var b', keys := AfterAttempt(b, a), WrittenKeys(a.input, Published(b, a.input).value);
            && b'.manifest == Some(NewManifest(b, a.input, Published(b, a.input).value))
            && (forall key :: key in b'.objects <==>
                  ((key in b.objects || key in keys) && !IsStale(key, a.input.deployment)))
            && (forall key :: key in keys && key in b'.manifest.value.artifacts ==>
                  b'.manifest.value.artifacts[key] == Entry(b'.objects[key], |b'.objects[key]|))
  {
    RunToTheEnd(b, a);
  }

  /** A run that completes keeps the manifest good if and only if its dates leave no gap. */
  lemma CompletedRunGoodExactly(b: Bucket, a: Attempt)
    requires StaleKeys(b, a.input.deployment, a.stale) && Good(b)
    requires Published(b, a.input).Some? && a.completed >= |Plan(b, a.input, a.stale)|
    ensures Good(AfterAttempt(b, a)) <==> LeavesNoGap(a.input, b.manifest)
  {
    RunToTheEnd(b, a);
    NewManifestGood(b, a.input, AfterAttempt(b, a));
  }

  // ---------- What the shards hold ----------

  /** The final rows of each deployment's source. */
  type Truth = (string, Kind) -> seq<Row>

  /** What a run reads agrees with the final rows up to the date its source calls complete. */
  ghost predicate ReadsTruth(truth: Truth, i: Input) {
    i.latest.Some? ==> forall kind, lo: int, hi: int :: hi <= i.latest.value ==>
      Window(i.source(kind), lo, hi) == Window(truth(i.deployment, kind), lo, hi)
  }

  /**
   The run's dates cut no published month short: it starts a month, ends one unless it reaches all that is
   or will be published, and goes on where the last shards of its deployment end.
   */
  predicate CutsNoMonth(i: Input, before: Option<Manifest>)
    requires i.latest.Some?
  {
    var range, newest := PublishRange(i, i.latest.value, before), i.latest.value;
    && (range.start <= i.publicStart || (before.Some? && range.start == MonthStart(MonthOf(range.start))))
    && (before.Some? ==>
          range.end >= before.value.latest || range.end >= newest || range.end == MonthEnd(MonthOf(range.end)))
    && (HasPublished(before, i.deployment) && range.end > before.value.latest && newest > before.value.latest ==>
          MonthOf(range.start) <= MonthOf(before.value.latest + 1))
  }

  /**
   A run of a fixed public start date over a source whose complete date does not move back. Dates may be
   overridden where that leaves no gap and cuts no month short.
   */
  ghost predicate SteadyRun(truth: Truth, publicStart: nat, b: Bucket, a: Attempt) {
    && GaplessRun(b, a) && ReadsTruth(truth, a.input) && a.input.publicStart == publicStart
    && (DefaultDates(a.input) || (a.input.latest.Some? ==> CutsNoMonth(a.input, b.manifest)))
    && (a.input.latest.Some? && b.manifest.Some? && b.manifest.value.deployment == a.input.deployment ==>
          b.manifest.value.latest <= a.input.latest.value)
  }

  lemma DefaultCutsNoMonth(b: Bucket, i: Input)
    requires Good(b) && DefaultDates(i) && Published(b, i).Some?
             && (b.manifest.Some? ==> i.publicStart <= b.manifest.value.latest)
    ensures CutsNoMonth(i, b.manifest)
  {
    DefaultRange(b, i);
    if b.manifest.Some? {
      MonthOfMono(i.publicStart, b.manifest.value.latest + 1);
    }
  }

  lemma SteadyRunCutsNoMonth(truth: Truth, publicStart: nat, b: Bucket, a: Attempt)
    requires ShardsTrue(truth, publicStart, b) && SteadyRun(truth, publicStart, b, a) && Published(b, a.input).Some?
    ensures CutsNoMonth(a.input, b.manifest)
  {
    if DefaultDates(a.input) {
      DefaultCutsNoMonth(b, a.input);
    }
  }

  ghost predicate SteadyRuns(truth: Truth, publicStart: nat, history: seq<Attempt>) {
    forall n :: 0 <= n < |history| ==> SteadyRun(truth, publicStart, AfterAll(history[..n]), history[n])
  }

  /** Within the published dates a shard holds the final rows of its month. */
  ghost predicate ShardTrue(truth: Truth, publicStart: nat, m: Manifest, kind: Kind, month: nat, rows: seq<Row>) {
    Window(rows, publicStart, m.latest)
    == Window(truth(m.deployment, kind), Later(publicStart, MonthStart(month)), Earlier(m.latest, MonthEnd(month)))
  }

  ghost predicate ShardsTrue(truth: Truth, publicStart: nat, b: Bucket) {
    && Good(b)
    && (forall key :: key in b.objects && key.Shard? ==> InMonth(b.objects[key], key.month) == b.objects[key])
    && (b.manifest.Some? ==>
          var m := b.manifest.value;
          && m.earliest == publicStart
          && forall kind, month: nat :: MonthOf(publicStart) <= month <= MonthOf(m.latest) ==>
               ShardTrue(truth, publicStart, m, kind, month, b.objects[Shard(m.deployment, kind, month)]))
  }

  lemma ContentsWindow(i: Input, range: Range, kind: Kind, month: nat)
    ensures Contents(i, range, Shard(i.deployment, kind, month))
            == Window(i.source(kind), Later(range.start, MonthStart(month)), Earlier(range.end, MonthEnd(month)))
    ensures InMonth(Contents(i, range, Shard(i.deployment, kind, month)), month)
            == Contents(i, range, Shard(i.deployment, kind, month))
  {
    var rows := Window(i.source(kind), range.start, range.end);
    WindowWindow(i.source(kind), range.start, range.end, MonthStart(month), MonthEnd(month));
    WindowWindow(rows, MonthStart(month), MonthEnd(month), MonthStart(month), MonthEnd(month));
  }

  /** What a run writes for a month, seen through a manifest. */
  lemma WrittenRows(truth: Truth, publicStart: nat, i: Input, range: Range, latest: nat, kind: Kind, month: nat)
    requires ReadsTruth(truth, i) && i.latest.Some? && latest <= i.latest.value
    ensures Window(Contents(i, range, Shard(i.deployment, kind, month)), publicStart, latest)
            == Window(truth(i.deployment, kind), Later(range.start, Later(publicStart, MonthStart(month))),
                      Earlier(range.end, Earlier(latest, MonthEnd(month))))
  {
    ContentsWindow(i, range, kind, month);
    WindowWindow(i.source(kind), Later(range.start, MonthStart(month)), Earlier(range.end, MonthEnd(month)),
                 publicStart, latest);
  }

  /**
   A shard as any run writes it is true for a manifest of its deployment if and only if the run's range cuts
   off no final row of the month's published days.
   */
  lemma FreshShardExact(truth: Truth, publicStart: nat, i: Input, range: Range, m: Manifest, kind: Kind, month: nat)
    requires ReadsTruth(truth, i) && i.latest.Some? && m.deployment == i.deployment && m.latest <= i.latest.value
    ensures ShardTrue(truth, publicStart, m, kind, month, Contents(i, range, Shard(i.deployment, kind, month)))
            <==> CutsNoRow(truth(i.deployment, kind), Later(publicStart, MonthStart(month)),
                           Earlier(m.latest, MonthEnd(month)), range.start, range.end)
  {
    WrittenRows(truth, publicStart, i, range, m.latest, kind, month);
    WindowCutExact(truth(i.deployment, kind), Later(publicStart, MonthStart(month)), Earlier(m.latest, MonthEnd(month)),
                   range.start, range.end);
  }

  /** An older shard of a month that had fully passed stays true when the published dates extend. */
  lemma OldShardTrue(truth: Truth, publicStart: nat, before: Manifest, m: Manifest, kind: Kind, month: nat,
                     rows: seq<Row>)
    requires ShardTrue(truth, publicStart, before, kind, month, rows) && InMonth(rows, month) == rows
    requires m.deployment == before.deployment && MonthEnd(month) <= before.latest <= m.latest
    ensures ShardTrue(truth, publicStart, m, kind, month, rows)
  {
    WindowWindow(rows, MonthStart(month), MonthEnd(month), publicStart, before.latest);
    WindowWindow(rows, MonthStart(month), MonthEnd(month), publicStart, m.latest);
  }

  lemma StartsBefore(start: nat, publicStart: nat, month: nat)
    requires MonthOf(start) <= month && (start <= publicStart || start == MonthStart(MonthOf(start)))
    ensures start <= Later(publicStart, MonthStart(month))
  {
    if MonthOf(start) < month {
      MonthStartMono(MonthOf(start), month);
    }
  }

  lemma EndsAfter(end: nat, latest: nat, month: nat)
    requires month <= MonthOf(end) && (latest <= end || end == MonthEnd(MonthOf(end)))
    ensures Earlier(latest, MonthEnd(month)) <= end
  {
    if month < MonthOf(end) {
      MonthStartMono(month, MonthOf(end));
    }
  }

  /** A run that cuts no month short writes true shards, for the manifest before it and for its own. */
  lemma WrittenShardTrue(truth: Truth, publicStart: nat, b: Bucket, i: Input, m: Manifest, kind: Kind, month: nat)
    requires ReadsTruth(truth, i) && Published(b, i).Some? && CutsNoMonth(i, b.manifest) && i.publicStart == publicStart
    requires m.deployment == i.deployment && m.latest <= i.latest.value
    requires MonthOf(Published(b, i).value.start) <= month <= MonthOf(Published(b, i).value.end)
    requires b.manifest.None? ==> m.latest <= Published(b, i).value.end
    requires b.manifest.Some? ==> m.latest <= Later(b.manifest.value.latest, Published(b, i).value.end)
    ensures ShardTrue(truth, publicStart, m, kind, month,
            Contents(i, Published(b, i).value, Shard(i.deployment, kind, month)))
  {
    var range := Published(b, i).value;
    StartsBefore(range.start, publicStart, month);
    EndsAfter(range.end, m.latest, month);
    FreshShardExact(truth, publicStart, i, range, m, kind, month);
  }

  /** What `ShardsTrue` says of one published month. */
  lemma TrueInStore(truth: Truth, publicStart: nat, b: Bucket, kind: Kind, month: nat)
    requires ShardsTrue(truth, publicStart, b) && b.manifest.Some?
    requires MonthOf(publicStart) <= month <= MonthOf(b.manifest.value.latest)
    ensures var key := Shard(b.manifest.value.deployment, kind, month);
            && key in b.manifest.value.artifacts && key in b.objects && InMonth(b.objects[key], month) == b.objects[key]
            && ShardTrue(truth, publicStart, b.manifest.value, kind, month, b.objects[key])
  {
    assert Shard(b.manifest.value.deployment, kind, month) in b.manifest.value.artifacts;
  }

  lemma UploadingKeepsTrue(truth: Truth, publicStart: nat, b: Bucket, a: Attempt, b': Bucket)
    requires ShardsTrue(truth, publicStart, b) && SteadyRun(truth, publicStart, b, a) && Published(b, a.input).Some?
    requires Uploading(b, b', a.input, Published(b, a.input).value) && Good(b')
    ensures ShardsTrue(truth, publicStart, b')
  {
    var i, range := a.input, Published(b, a.input).value;
    ShardsInMonth(b, i, range, b');
    if b.manifest.Some? {
      var m := b.manifest.value;
      forall kind, month: nat | MonthOf(publicStart) <= month <= MonthOf(m.latest)
        ensures ShardTrue(truth, publicStart, m, kind, month, b'.objects[Shard(m.deployment, kind, month)])
      {
        var key := Shard(m.deployment, kind, month);
        TrueInStore(truth, publicStart, b, kind, month);
        WrittenKey(i, range, key);
        if b'.objects[key] != b.objects[key] {
          SteadyRunCutsNoMonth(truth, publicStart, b, a);
          WrittenShardTrue(truth, publicStart, b, i, m, kind, month);
        }
      }
    }
  }

  lemma ShardsInMonth(b: Bucket, i: Input, range: Range, b': Bucket)
    requires range.start <= range.end
    requires forall key :: key in b.objects && key.Shard? ==> InMonth(b.objects[key], key.month) == b.objects[key]
    requires forall key :: key in b'.objects ==>
      || (key in b.objects && b'.objects[key] == b.objects[key])
      || (key in WrittenKeys(i, range) && b'.objects[key] == Contents(i, range, key))
    ensures forall key :: key in b'.objects && key.Shard? ==> InMonth(b'.objects[key], key.month) == b'.objects[key]
  {
    forall key | key in b'.objects && key.Shard? ensures InMonth(b'.objects[key], key.month) == b'.objects[key] {
      if !(key in b.objects && b'.objects[key] == b.objects[key]) {
        WrittenKey(i, range, key);
        ContentsWindow(i, range, key.kind, key.month);
      }
    }
  }

  /** The shard of a month before the one after the last published day stays true under a later manifest. */
  lemma KeptShardTrue(truth: Truth, publicStart: nat, b: Bucket, m: Manifest, kind: Kind, month: nat)
    requires ShardsTrue(truth, publicStart, b) && b.manifest.Some?
    requires m.deployment == b.manifest.value.deployment && b.manifest.value.latest <= m.latest
    requires MonthOf(publicStart) <= month < MonthOf(b.manifest.value.latest + 1)
    ensures var key := Shard(m.deployment, kind, month);
            key in b.objects && ShardTrue(truth, publicStart, m, kind, month, b.objects[key])
  {
    var before, key := b.manifest.value, Shard(m.deployment, kind, month);
    MonthAfter(before.latest);
    TrueInStore(truth, publicStart, b, kind, month);
    MonthEndBefore(month, before.latest);
    OldShardTrue(truth, publicStart, before, m, kind, month, b.objects[key]);
  }

  lemma PublishedShardTrue(truth: Truth, publicStart: nat, b: Bucket, a: Attempt, b': Bucket, kind: Kind, month: nat)
    requires ShardsTrue(truth, publicStart, b) && SteadyRun(truth, publicStart, b, a) && Published(b, a.input).Some?
    requires ManifestOut(b, b', a.input, Published(b, a.input).value) && Good(b')
    requires MonthOf(publicStart) <= month <= MonthOf(b'.manifest.value.latest)
             && b'.manifest.value.earliest == publicStart
    ensures ShardTrue(truth, publicStart, b'.manifest.value, kind, month,
            b'.objects[Shard(a.input.deployment, kind, month)])
  {
    var i, range, m := a.input, Published(b, a.input).value, b'.manifest.value;
    var key := Shard(i.deployment, kind, month);
    SteadyRunCutsNoMonth(truth, publicStart, b, a);
    assert key in m.artifacts;
    WrittenKey(i, range, key);
    Listed(b, i, kind, month);
    if MonthOf(range.start) <= month <= MonthOf(range.end) {
      WrittenShardTrue(truth, publicStart, b, i, m, kind, month);
    } else {
      ListedBefore(b.manifest.value, i.deployment, kind, month);
      if b.manifest.value.latest < m.latest {
        LeftMonthPassed(b, i, month);
      }
      StillTrue(truth, publicStart, b, m, kind, month);
    }
  }

  /** A published month that the run does not write again had fully passed if the run publishes later dates. */
  lemma LeftMonthPassed(b: Bucket, i: Input, month: nat)
    requires Published(b, i).Some? && CutsNoMonth(i, b.manifest) && HasPublished(b.manifest, i.deployment)
    requires b.manifest.value.latest < Earlier(Published(b, i).value.end, i.latest.value)
    requires month <= MonthOf(b.manifest.value.latest)
    requires !(MonthOf(Published(b, i).value.start) <= month <= MonthOf(Published(b, i).value.end))
    ensures month < MonthOf(b.manifest.value.latest + 1)
  {
    MonthOfMono(b.manifest.value.latest, Published(b, i).value.end);
  }

  /** A shard that the run does not write again is as true as before. */
  lemma StillTrue(truth: Truth, publicStart: nat, b: Bucket, m: Manifest, kind: Kind, month: nat)
    requires ShardsTrue(truth, publicStart, b) && b.manifest.Some? && m.deployment == b.manifest.value.deployment
    requires b.manifest.value.latest <= m.latest && MonthOf(publicStart) <= month <= MonthOf(b.manifest.value.latest)
    requires b.manifest.value.latest < m.latest ==> month < MonthOf(b.manifest.value.latest + 1)
    ensures var key := Shard(m.deployment, kind, month);
            key in b.objects && ShardTrue(truth, publicStart, m, kind, month, b.objects[key])
  {
    if b.manifest.value.latest < m.latest {
      KeptShardTrue(truth, publicStart, b, m, kind, month);
    } else {
      TrueInStore(truth, publicStart, b, kind, month);
    }
  }

  lemma ManifestOutKeepsTrue(truth: Truth, publicStart: nat, b: Bucket, a: Attempt, b': Bucket)
    requires ShardsTrue(truth, publicStart, b) && SteadyRun(truth, publicStart, b, a) && Published(b, a.input).Some?
    requires ManifestOut(b, b', a.input, Published(b, a.input).value) && Good(b')
    ensures ShardsTrue(truth, publicStart, b')
  {
    var i, range := a.input, Published(b, a.input).value;
    var m := NewManifest(b, i, range);
    ShardsInMonth(b, i, range, b');
    SteadyRunCutsNoMonth(truth, publicStart, b, a);
    forall kind, month: nat | MonthOf(publicStart) <= month <= MonthOf(m.latest)
      ensures ShardTrue(truth, publicStart, m, kind, month, b'.objects[Shard(m.deployment, kind, month)])
    {
      PublishedShardTrue(truth, publicStart, b, a, b', kind, month);
    }
  }

  lemma MonthEndBefore(month: nat, day: nat)
    requires month < MonthOf(day + 1)
    ensures MonthEnd(month) <= day
  {
    MonthStartMono(month, MonthOf(day + 1));
  }

  /** After every steady history, and at each step, the published shards hold the final rows of their months. */
  lemma {:induction false} ShardsAlwaysTrue(truth: Truth, publicStart: nat, history: seq<Attempt>)
    requires SteadyRuns(truth, publicStart, history)
    ensures ShardsTrue(truth, publicStart, AfterAll(history))
  {
    if history == [] {
    } else {
      var n := |history| - 1;
      forall k | 0 <= k < n ensures history[..n][..k] == history[..k] {
      }
      ShardsAlwaysTrue(truth, publicStart, history[..n]);
      var b, a := AfterAll(history[..n]), history[n];
      StepKeepsGood(b, a);
      Stages(b, a);
      if Published(b, a.input).Some? {
        if Uploading(b, AfterAttempt(b, a), a.input, Published(b, a.input).value) {
          UploadingKeepsTrue(truth, publicStart, b, a, AfterAttempt(b, a));
        } else {
          ManifestOutKeepsTrue(truth, publicStart, b, a, AfterAttempt(b, a));
        }
      }
    }
  }

  // ---------- Overrides and shards ----------

  /** What a completed run must do for one published shard, told from its dates, the final rows and its store. */
  ghost predicate KeepsShard(truth: Truth, publicStart: nat, b: Bucket, range: Range, m: Manifest, kind: Kind,
                             month: nat) {
    if MonthOf(range.start) <= month <= MonthOf(range.end) then
      CutsNoRow(truth(m.deployment, kind), Later(publicStart, MonthStart(month)), Earlier(m.latest, MonthEnd(month)),
                range.start, range.end)
    else
      // a shard that is left as it is must hold what is published of its month from now on
      b.manifest.Some? && b.manifest.value.latest < m.latest && month == MonthOf(b.manifest.value.latest + 1) ==>
        var key := Shard(m.deployment, kind, month);
        key in b.objects && ShardTrue(truth, publicStart, m, kind, month, b.objects[key])
  }

  lemma KeptShardExact(truth: Truth, publicStart: nat, b: Bucket, range: Range, m: Manifest, kind: Kind, month: nat)
    requires ShardsTrue(truth, publicStart, b) && b.manifest.Some? && m.deployment == b.manifest.value.deployment
    requires b.manifest.value.latest <= m.latest && MonthOf(publicStart) <= month <= MonthOf(b.manifest.value.latest)
    requires !(MonthOf(range.start) <= month <= MonthOf(range.end))
    ensures var key := Shard(m.deployment, kind, month);
            key in b.objects
            && (ShardTrue(truth, publicStart, m, kind, month, b.objects[key])
                <==> KeepsShard(truth, publicStart, b, range, m, kind, month))
  {
    TrueButNextMonth(truth, publicStart, b, m, kind, month);
  }

  /** Published shards stay true, but for that of the month in which later dates are published. */
  lemma TrueButNextMonth(truth: Truth, publicStart: nat, b: Bucket, m: Manifest, kind: Kind, month: nat)
    requires ShardsTrue(truth, publicStart, b) && b.manifest.Some? && m.deployment == b.manifest.value.deployment
    requires b.manifest.value.latest <= m.latest && MonthOf(publicStart) <= month <= MonthOf(b.manifest.value.latest)
    ensures var key := Shard(m.deployment, kind, month);
            && key in b.objects
            && ((b.manifest.value.latest < m.latest && month == MonthOf(b.manifest.value.latest + 1))
                || ShardTrue(truth, publicStart, m, kind, month, b.objects[key]))
  {
    TrueInStore(truth, publicStart, b, kind, month);
    MonthOfMono(b.manifest.value.latest, b.manifest.value.latest + 1);
    if !(b.manifest.value.latest < m.latest && month == MonthOf(b.manifest.value.latest + 1)) {
      StillTrue(truth, publicStart, b, m, kind, month);
    }
  }

  lemma PublishedShardExact(truth: Truth, publicStart: nat, b: Bucket, i: Input, b': Bucket, kind: Kind, month: nat)
    requires ShardsTrue(truth, publicStart, b) && Published(b, i).Some? && ReadsTruth(truth, i)
    requires ManifestOut(b, b', i, Published(b, i).value) && Good(b')
    requires b.manifest.Some? && b.manifest.value.deployment == i.deployment ==>
               b.manifest.value.latest <= i.latest.value
    requires b'.manifest.value.earliest == publicStart
    requires MonthOf(publicStart) <= month <= MonthOf(b'.manifest.value.latest)
    ensures ShardTrue(truth, publicStart, b'.manifest.value, kind, month, b'.objects[Shard(i.deployment, kind, month)])
            <==> KeepsShard(truth, publicStart, b, Published(b, i).value, b'.manifest.value, kind, month)
  {
    var range, m := Published(b, i).value, b'.manifest.value;
    var key := Shard(i.deployment, kind, month);
    assert key in m.artifacts;
    WrittenKey(i, range, key);
    Listed(b, i, kind, month);
    if MonthOf(range.start) <= month <= MonthOf(range.end) {
      FreshShardExact(truth, publicStart, i, range, m, kind, month);
    } else {
      ListedBefore(b.manifest.value, i.deployment, kind, month);
      KeptShardExact(truth, publicStart, b, range, m, kind, month);
    }
  }

  /**
   Whatever dates it overrides, a completed run over final rows leaves the published shards correct if and only
   if its dates leave no gap, its first publication does not start late, and for every published month its range
   cuts no final row off a shard it writes and a shard it does not write already holds what is newly published.
   */
  lemma CompletedRunShardsExact(truth: Truth, publicStart: nat, b: Bucket, a: Attempt)
    requires ShardsTrue(truth, publicStart, b) && StaleKeys(b, a.input.deployment, a.stale)
    requires ReadsTruth(truth, a.input) && a.input.publicStart == publicStart
    requires Published(b, a.input).Some? && a.completed >= |Plan(b, a.input, a.stale)|
    requires b.manifest.Some? && b.manifest.value.deployment == a.input.deployment ==>
               b.manifest.value.latest <= a.input.latest.value
    ensures var m := NewManifest(b, a.input, Published(b, a.input).value);
            ShardsTrue(truth, publicStart, AfterAttempt(b, a))
            <==> (&& LeavesNoGap(a.input, b.manifest)
                  && (b.manifest.None? ==> Published(b, a.input).value.start <= publicStart)
                  && forall kind, month: nat :: MonthOf(publicStart) <= month <= MonthOf(m.latest) ==>
                       KeepsShard(truth, publicStart, b, Published(b, a.input).value, m, kind, month))
  {
    var i, range, b' := a.input, Published(b, a.input).value, AfterAttempt(b, a);
    var m := NewManifest(b, i, range);
    RunToTheEnd(b, a);
    NewManifestGood(b, i, b');
    ShardsInMonth(b, i, range, b');
    if Good(b') && m.earliest == publicStart {
      forall kind, month: nat | MonthOf(publicStart) <= month <= MonthOf(m.latest)
        ensures ShardTrue(truth, publicStart, m, kind, month, b'.objects[Shard(i.deployment, kind, month)])
                <==> KeepsShard(truth, publicStart, b, range, m, kind, month)
      {
        PublishedShardExact(truth, publicStart, b, i, b', kind, month);
      }
    }
  }

  // ---------- Progress ----------

  /** The run's data reach the public start, are fresh at a handover, and have a metric row for every day. */
  ghost predicate DataReady(b: Bucket, i: Input) {
    && i.latest.Some? && i.publicStart <= i.latest.value
    && (HasPublished(b.manifest, i.deployment) || i.latest.value >= i.today - 1)
    && !MissesDay(i.source(Metrics), i.publicStart, i.latest.value)
  }

  lemma ReadyRunPublishes(b: Bucket, i: Input)
    requires DataReady(b, i) && DefaultDates(i)
    ensures Published(b, i).Some?
  {
    var range := PublishRange(i, i.latest.value, b.manifest);
    var month := MonthOf(i.latest.value);
    if month > 0 {
      MonthStartMono(month - 1, month);
    }
    assert i.publicStart <= range.start <= range.end == i.latest.value;
    forall day: int | range.start <= day <= range.end
        ensures HasDay(Window(i.source(Metrics), range.start, range.end), day) {
      assert HasDay(i.source(Metrics), day);
      var r :| r in i.source(Metrics) && r.date == day;
      WindowMembers(i.source(Metrics), range.start, range.end, r);
    }
  }

  /**
   Progress: whatever happened before, crashes included, a run over ready data that is not interrupted
   publishes every date from the public start to the newest complete one.
   */
  lemma ReadyRunCatchesUp(truth: Truth, publicStart: nat, history: seq<Attempt>, a: Attempt)
    requires SteadyRuns(truth, publicStart, history) && SteadyRun(truth, publicStart, AfterAll(history), a)
    requires DefaultDates(a.input) && DataReady(AfterAll(history), a.input)
             && a.completed >= |Plan(AfterAll(history), a.input, a.stale)|
    ensures var m := AfterAttempt(AfterAll(history), a).manifest;
            m.Some? && m.value.deployment == a.input.deployment && m.value.earliest == publicStart
                && m.value.latest == a.input.latest.value
  {
    var b := AfterAll(history);
    ShardsAlwaysTrue(truth, publicStart, history);
    ReadyRunPublishes(b, a.input);
    RunToTheEnd(b, a);
    DefaultRange(b, a.input);
  }
}
