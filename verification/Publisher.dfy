/**
 `publishMetricsArtifacts` (apps/metrics-publisher/src/publisher.ts): one run turns the rows of a date
 range into month shards, publishes the manifest after them and then deletes the shards of other
 deployments. A run is the list of its store operations; a crash is a prefix of that list.
 */
module Publisher {
  import opened Options
  import opened Calendar
  import opened DatedRows

  datatype Kind = Metrics | TreasuryAssets | OhmSupply

  const KINDS := [Metrics, TreasuryAssets, OhmSupply]
  const SCHEMA_COUNT := 4

  /**
   Object keys below `v2/`: `deployments/<id>/<kind>/daily/<month>.json`, `<kind>/daily/<month>.json`, the
   schemas and others.
   */
  datatype Key = Shard(deployment: string, kind: Kind, month: nat) | Stable(stableKind: Kind, stableMonth: nat)
               | Schema(index: nat) | Other(name: string)

  /** `sha256` stands as the hashed rows themselves. */
  datatype Entry = Entry(sha256: seq<Row>, rowCount: nat)

  datatype Manifest = Manifest(deployment: string, earliest: nat, latest: nat, artifacts: map<Key, Entry>)

  datatype Bucket = Bucket(manifest: Option<Manifest>, objects: map<Key, seq<Row>>)

  /** `latest`: the source's newest complete date, `None` when it is not data-ready. `today`: the run's own clock. */
  datatype Input = Input(deployment: string, publicStart: nat, startDate: Option<nat>, endDate: Option<nat>,
                         latest: Option<nat>, today: nat, source: Kind -> seq<Row>)

  datatype Op = Put(key: Key, rows: seq<Row>) | PutManifest(manifest: Manifest) | Delete(key: Key)

  function Apply(b: Bucket, op: Op): Bucket {
    match op
    case Put(key, rows) => b.(objects := b.objects[key := rows])
    case PutManifest(m) => b.(manifest := Some(m))
    case Delete(key) => b.(objects := b.objects - {key})
  }

  function Execute(b: Bucket, ops: seq<Op>): Bucket {
    if ops == [] then b else Apply(Execute(b, ops[..|ops| - 1]), ops[|ops| - 1])
  }

  // ---------- The plan of a run ----------

  predicate HasPublished(m: Option<Manifest>, deployment: string) {
    m.Some? && exists key :: key in m.value.artifacts && key.Shard? && key.deployment == deployment
  }

  function OrDefault<T>(o: Option<T>, d: T): T {
    if o.Some? then o.value else d
  }

  function PreviousMonth(month: nat): nat {
    if month == 0 then 0 else month - 1
  }

  datatype Range = Range(start: nat, end: nat)

  /** `resolvePublishRange`; the caller fails when the range would be empty. */
  function PublishRange(i: Input, latest: nat, m: Option<Manifest>): Range {
    var end := OrDefault(i.endDate, latest);
    if !HasPublished(m, i.deployment) then Range(OrDefault(i.startDate, i.publicStart), end)
    else
      var firstUnpublishedMonth := MonthStart(MonthOf(m.value.latest + 1));
      var refreshStart := Earlier(MonthStart(PreviousMonth(MonthOf(end))), firstUnpublishedMonth);
      Range(OrDefault(i.startDate, Later(i.publicStart, refreshStart)), end)
  }

  predicate HasDay(rows: seq<Row>, day: nat) {
    exists r :: r in rows && r.date == day
  }

  predicate MissesDay(rows: seq<Row>, start: nat, end: nat) {
    exists day :: start <= day <= end && !HasDay(rows, day)
  }

  /** `hasMissingDailyMetrics`. */
  method HasMissingDailyMetrics(rows: seq<Row>, start: nat, end: nat) returns (missing: bool)
    ensures missing <==> MissesDay(rows, start, end)
  {
    var dates := set r | r in rows :: r.date;
    var cursor := start;
    while cursor <= end
      invariant start <= cursor
      invariant forall day :: start <= day < cursor ==> HasDay(rows, day)
    {
      if cursor !in dates {
        assert !HasDay(rows, cursor);
        return true;
      }
      cursor := cursor + 1;
    }
    return false;
  }

  /** The range a run publishes, or `None` when it is skipped or fails before its first write. */
  ghost function Published(b: Bucket, i: Input): Option<Range> {
    if i.latest.None? then None
    else
      var known := HasPublished(b.manifest, i.deployment);
      var range := PublishRange(i, i.latest.value, b.manifest);
      if !known && i.latest.value < i.today - 1 then None
      else if range.end < range.start then None
      else if known && MissesDay(Window(i.source(Metrics), range.start, range.end), range.start, range.end) then None
      else Some(range)
  }

  /** The contents a run writes under a key. */
  function Contents(i: Input, range: Range, key: Key): seq<Row> {
    if key.Shard? then InMonth(Window(i.source(key.kind), range.start, range.end), key.month) else []
  }

  function PutOf(i: Input, range: Range, key: Key): Op {
    Put(key, Contents(i, range, key))
  }

  /** The keys a run writes, in order: the schemas, then the three shards of each month. */
  function WrittenKeys(i: Input, range: Range): (r: seq<Key>)
    requires range.start <= range.end
  {
    var months := Months(MonthOf(range.start), MonthOf(range.end));
    seq(SCHEMA_COUNT, n requires 0 <= n => Schema(n))
    + seq(3 * |months|, n requires 0 <= n < 3 * |months| => Shard(i.deployment, KINDS[n % 3], months[n / 3]))
  }

  function KeyMonth(key: Key): Option<nat> {
    if key.Shard? then Some(key.month) else if key.Stable? then Some(key.stableMonth) else None
  }

  /** What the two prune functions keep. */
  predicate Kept(key: Key, deployment: string, earliest: nat, latest: nat) {
    && (key.Shard? ==> key.deployment == deployment)
    && (KeyMonth(key).Some? ==> MonthOf(earliest) <= KeyMonth(key).value <= MonthOf(latest))
  }

  function NewManifest(b: Bucket, i: Input, range: Range): Manifest
    requires i.latest.Some? && range.start <= range.end
  {
    var before := if b.manifest.Some? then b.manifest.value.artifacts else map[];
    var earliest := Later(i.publicStart,
        Earlier(if b.manifest.Some? then b.manifest.value.earliest else range.start, range.start));
    var latest := Earlier(Later(if b.manifest.Some? then b.manifest.value.latest else range.end, range.end),
        i.latest.value);
    var written := WrittenKeys(i, range);
    Manifest(i.deployment, earliest, latest,
             map key | key in before.Keys + (set k | k in written) && Kept(key, i.deployment, earliest, latest) ::
               if key in written then Entry(Contents(i, range, key), |Contents(i, range, key)|) else before[key])
  }

  predicate IsStale(key: Key, deployment: string) {
    key.Shard? && key.deployment != deployment
  }

  /** `stale` lists, in any order, the shards of other deployments that the cleanup finds in the store. */
  ghost predicate StaleKeys(b: Bucket, deployment: string, stale: seq<Key>) {
    forall key :: key in stale <==> key in b.objects && IsStale(key, deployment)
  }

  function Puts(i: Input, range: Range): (r: seq<Op>)
    requires range.start <= range.end
    ensures |r| == |WrittenKeys(i, range)|
    ensures forall n :: 0 <= n < |r| ==> r[n] == PutOf(i, range, WrittenKeys(i, range)[n])
  {
    var keys := WrittenKeys(i, range);
    seq(|keys|, n requires 0 <= n < |keys| => PutOf(i, range, keys[n]))
  }

  function Deletes(stale: seq<Key>): (r: seq<Op>)
    ensures |r| == |stale| && forall n :: 0 <= n < |r| ==> r[n] == Delete(stale[n])
  {
    seq(|stale|, n requires 0 <= n < |stale| => Delete(stale[n]))
  }

  /** Every store operation of a run between acquiring and releasing the lock. */
  ghost function Plan(b: Bucket, i: Input, stale: seq<Key>): seq<Op> {
    if Published(b, i).None? then []
    else
      var range := Published(b, i).value;
      Puts(i, range) + [PutManifest(NewManifest(b, i, range))] + Deletes(stale)
  }

  // ---------- Histories ----------

  /** One run: its input, the cleanup listing and the number of operations completed before it ends or crashes. */
  datatype Attempt = Attempt(input: Input, stale: seq<Key>, completed: nat)

  const EMPTY_BUCKET := Bucket(None, map[])

  ghost function AfterAttempt(b: Bucket, a: Attempt): Bucket {
    var ops := Plan(b, a.input, a.stale);
    Execute(b, if a.completed < |ops| then ops[..a.completed] else ops)
  }

  ghost function AfterAll(history: seq<Attempt>): Bucket {
    if history == [] then EMPTY_BUCKET
    else AfterAttempt(AfterAll(history[..|history| - 1]), history[|history| - 1])
  }

  /** Neither date is overridden. */
  predicate DefaultDates(i: Input) {
    i.startDate.None? && i.endDate.None?
  }

  // ---------- What the manifest promises ----------

  ghost predicate ListsEveryMonth(m: Manifest) {
    && m.earliest <= m.latest
    && forall month: nat, kind :: MonthOf(m.earliest) <= month <= MonthOf(m.latest) ==>
        Shard(m.deployment, kind, month) in m.artifacts
  }

  ghost predicate ListsOnlyKept(m: Manifest) {
    forall key :: key in m.artifacts ==> Kept(key, m.deployment, m.earliest, m.latest)
  }

  /** The published manifest has no gaps, lists no other deployment, and every key it lists exists. */
  ghost predicate Good(b: Bucket) {
    b.manifest.Some? ==>
      var m := b.manifest.value;
      ListsEveryMonth(m) && ListsOnlyKept(m) && forall key :: key in m.artifacts ==> key in b.objects
  }

  lemma WrittenKey(i: Input, range: Range, key: Key)
    requires range.start <= range.end
    ensures key in WrittenKeys(i, range) <==>
            (key.Schema? && key.index < SCHEMA_COUNT)
            || (key.Shard? && key.deployment == i.deployment && MonthOf(range.start) <= key.month <= MonthOf(range.end))
  {
    MonthOfMono(range.start, range.end);
    var keys, months := WrittenKeys(i, range), Months(MonthOf(range.start), MonthOf(range.end));
    if key.Schema? && key.index < SCHEMA_COUNT {
      assert keys[key.index] == key;
    }
    if key.Shard? && key.deployment == i.deployment && MonthOf(range.start) <= key.month <= MonthOf(range.end) {
      var n := 3 * (key.month - MonthOf(range.start))
          + (match key.kind case Metrics => 0 case TreasuryAssets => 1 case OhmSupply => 2);
      assert n / 3 == key.month - MonthOf(range.start);
      assert keys[SCHEMA_COUNT + n] == key;
    }
  }

  /** After uploading `keys` the manifest is the old one, and each object is the old one or the uploaded contents. */
  lemma {:induction false} AfterUploads(b: Bucket, contents: Key -> seq<Row>, ops: seq<Op>, keys: seq<Key>)
    requires |ops| == |keys| && forall n :: 0 <= n < |ops| ==> ops[n] == Put(keys[n], contents(keys[n]))
    ensures var b' := Execute(b, ops);
            && b'.manifest == b.manifest && b.objects.Keys <= b'.objects.Keys
            && (forall key :: key in keys ==> key in b'.objects && b'.objects[key] == contents(key))
            && (forall key :: key in b'.objects && key !in keys ==>
                key in b.objects && b'.objects[key] == b.objects[key])
  {
    if ops == [] {
    } else {
      var n := |ops| - 1;
      AfterUploads(b, contents, ops[..n], keys[..n]);
      assert keys == keys[..n] + [keys[n]];
    }
  }

  lemma AfterPuts(b: Bucket, i: Input, range: Range, n: nat)
    requires range.start <= range.end && n <= |Puts(i, range)|
    ensures var b' := Execute(b, Puts(i, range)[..n]);
            && b'.manifest == b.manifest && b.objects.Keys <= b'.objects.Keys
            && (forall key :: key in WrittenKeys(i, range)[..n] ==>
                key in b'.objects && b'.objects[key] == Contents(i, range, key))
            && (forall key :: key in b'.objects && key !in WrittenKeys(i, range)[..n] ==>
                key in b.objects && b'.objects[key] == b.objects[key])
  {
    AfterUploads(b, key => Contents(i, range, key), Puts(i, range)[..n], WrittenKeys(i, range)[..n]);
  }

  /** The cleanup removes exactly the listed keys. */
  lemma {:induction false} AfterDeletes(b: Bucket, ops: seq<Op>)
    requires forall n :: 0 <= n < |ops| ==> ops[n].Delete?
    ensures var b' := Execute(b, ops);
            && b'.manifest == b.manifest
            && (forall key :: key in b'.objects <==> key in b.objects && Delete(key) !in ops)
            && (forall key :: key in b'.objects ==> b'.objects[key] == b.objects[key])
  {
    if ops == [] {
    } else {
      var n := |ops| - 1;
      AfterDeletes(b, ops[..n]);
      assert ops == ops[..n] + [ops[n]];
    }
  }

  lemma {:induction false} ExecuteAppend(b: Bucket, a: seq<Op>, c: seq<Op>)
    ensures Execute(b, a + c) == Execute(Execute(b, a), c)
  {
    if c == [] {
      assert a + c == a;
    } else {
      var n := |c| - 1;
      assert (a + c)[..|a + c| - 1] == a + c[..n];
      ExecuteAppend(b, a, c[..n]);
    }
  }

  /** The run has uploaded some of its keys and not yet replaced the manifest. */
  ghost predicate Uploading(b: Bucket, b': Bucket, i: Input, range: Range)
    requires range.start <= range.end
  {
    && b'.manifest == b.manifest && b.objects.Keys <= b'.objects.Keys
    && forall key :: key in b'.objects ==>
         || (key in b.objects && b'.objects[key] == b.objects[key])
         || (key in WrittenKeys(i, range) && b'.objects[key] == Contents(i, range, key))
  }

  /** The run has uploaded all its keys, replaced the manifest and deleted some stale shards. */
  ghost predicate ManifestOut(b: Bucket, b': Bucket, i: Input, range: Range)
    requires range.start <= range.end && i.latest.Some?
  {
    && b'.manifest == Some(NewManifest(b, i, range))
    && (forall key :: key in WrittenKeys(i, range) ==> key in b'.objects && b'.objects[key] == Contents(i, range, key))
    && (forall key :: key in b.objects && !IsStale(key, i.deployment) ==> key in b'.objects)
    && (forall key :: key in b'.objects && key !in WrittenKeys(i, range) ==>
        key in b.objects && b'.objects[key] == b.objects[key])
  }

  lemma AfterManifest(b: Bucket, i: Input, range: Range)
    requires range.start <= range.end && i.latest.Some?
    ensures ManifestOut(b, Execute(b, Puts(i, range) + [PutManifest(NewManifest(b, i, range))]), i, range)
  {
    var puts, op := Puts(i, range), PutManifest(NewManifest(b, i, range));
    assert (puts + [op])[..|puts|] == puts;
    assert puts[..|puts|] == puts && WrittenKeys(i, range)[..|puts|] == WrittenKeys(i, range);
    AfterPuts(b, i, range, |puts|);
  }

  lemma CleanupKeeps(b: Bucket, b': Bucket, i: Input, range: Range, ops: seq<Op>)
    requires range.start <= range.end && i.latest.Some? && ManifestOut(b, b', i, range)
    requires forall op :: op in ops ==> op.Delete? && IsStale(op.key, i.deployment)
    ensures ManifestOut(b, Execute(b', ops), i, range)
  {
    AfterDeletes(b', ops);
    forall key | key in WrittenKeys(i, range) ensures Delete(key) !in ops {
      WrittenKey(i, range, key);
    }
  }

  /** Before its manifest write the run only uploads. */
  lemma AfterSomePuts(b: Bucket, i: Input, range: Range, n: nat)
    requires range.start <= range.end && n <= |Puts(i, range)|
    ensures Uploading(b, Execute(b, Puts(i, range)[..n]), i, range)
  {
    AfterPuts(b, i, range, n);
    assert forall key :: key in WrittenKeys(i, range)[..n] ==> key in WrittenKeys(i, range);
  }

  /** After its manifest write the run only deletes stale keys. */
  lemma AfterSomeDeletes(b: Bucket, i: Input, range: Range, stale: seq<Key>, head: seq<Op>, n: nat)
    requires range.start <= range.end && i.latest.Some? && StaleKeys(b, i.deployment, stale) && n <= |stale|
    requires head == Puts(i, range) + [PutManifest(NewManifest(b, i, range))]
    ensures ManifestOut(b, Execute(b, head + Deletes(stale)[..n]), i, range)
  {
    var deletes := Deletes(stale)[..n];
    ExecuteAppend(b, head, deletes);
    AfterManifest(b, i, range);
    forall op | op in deletes ensures op.Delete? && IsStale(op.key, i.deployment) {
      var j :| 0 <= j < |deletes| && deletes[j] == op;
      assert stale[j] in stale;
    }
    CleanupKeeps(b, Execute(b, head), i, range, deletes);
  }

  /** At every step a run is uploading or has the manifest out. */
  lemma Stages(b: Bucket, a: Attempt)
    requires StaleKeys(b, a.input.deployment, a.stale)
    ensures var b' := AfterAttempt(b, a);
            var range := Published(b, a.input);
            if range.None? then b' == b
            else Uploading(b, b', a.input, range.value) || ManifestOut(b, b', a.input, range.value)
  {
    var i := a.input;
    var ops := Plan(b, i, a.stale);
    assert ops[..|ops|] == ops;
    var n := if a.completed < |ops| then a.completed else |ops|;
    if Published(b, i).Some? {
      var range := Published(b, i).value;
      var puts, head := Puts(i, range), Puts(i, range) + [PutManifest(NewManifest(b, i, range))];
      if n <= |puts| {
        assert ops[..n] == puts[..n];
        AfterSomePuts(b, i, range, n);
      } else {
        assert ops[..n] == head + Deletes(a.stale)[..n - |head|];
        AfterSomeDeletes(b, i, range, a.stale, head, n - |head|);
      }
    }
  }
}
