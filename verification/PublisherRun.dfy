/**
 The publisher's upload, as the source performs it: loops of store writes that accumulate the manifest's
 artifact table, proved equal to the planned operations of `Publisher`.
 */
module PublisherRun {
  import opened Options
  import opened Calendar
  import opened DatedRows
  import opened Publisher

  /** One more operation of a list. */
  lemma OneMore(b: Bucket, ops: seq<Op>, n: nat)
    requires n < |ops|
    ensures Execute(b, ops[..n + 1]) == Apply(Execute(b, ops[..n]), ops[n])
  {
    assert ops[..n + 1][..n] == ops[..n];
  }

  /** The artifact table after some uploads. */
  ghost function Table(before: map<Key, Entry>, ops: seq<Op>): map<Key, Entry>
    requires forall op :: op in ops ==> op.Put?
  {
    if ops == [] then before
    else
      var last := ops[|ops| - 1];
      Table(before, ops[..|ops| - 1])[last.key := Entry(last.rows, |last.rows|)]
  }

  lemma {:induction false} TableEntries(before: map<Key, Entry>, contents: Key -> seq<Row>, ops: seq<Op>,
                                        keys: seq<Key>)
    requires |ops| == |keys| && forall n :: 0 <= n < |ops| ==> ops[n] == Put(keys[n], contents(keys[n]))
    requires forall op :: op in ops ==> op.Put?
    ensures Table(before, ops).Keys == before.Keys + set key | key in keys
    ensures forall key :: key in keys ==> Table(before, ops)[key] == Entry(contents(key), |contents(key)|)
    ensures forall key :: key in before && key !in keys ==> Table(before, ops)[key] == before[key]
  {
    if ops == [] {
    } else {
      var n := |ops| - 1;
      TableEntries(before, contents, ops[..n], keys[..n]);
      assert keys == keys[..n] + [keys[n]];
    }
  }

  lemma TableOfPuts(before: map<Key, Entry>, i: Input, range: Range, table: map<Key, Entry>, key: Key)
    requires range.start <= range.end && table == Table(before, Puts(i, range))
    ensures key in table <==> key in before || key in WrittenKeys(i, range)
    ensures key in WrittenKeys(i, range) ==> table[key] == Entry(Contents(i, range, key), |Contents(i, range, key)|)
    ensures key in before && key !in WrittenKeys(i, range) ==> table[key] == before[key]
  {
    TableEntries(before, k => Contents(i, range, k), Puts(i, range), WrittenKeys(i, range));
  }

  /** Pruning the run's table gives the manifest's. */
  lemma PrunedTable(b: Bucket, i: Input, range: Range, artifacts: map<Key, Entry>)
    requires range.start <= range.end && i.latest.Some?
    requires artifacts == Table(if b.manifest.Some? then b.manifest.value.artifacts else map[], Puts(i, range))
    ensures var m := NewManifest(b, i, range);
            m.artifacts == map key | key in artifacts && Kept(key, i.deployment, m.earliest, m.latest) :: artifacts[key]
  {
    var before := if b.manifest.Some? then b.manifest.value.artifacts else map[];
    var m := NewManifest(b, i, range);
    forall key
      ensures key in m.artifacts <==> key in artifacts && Kept(key, i.deployment, m.earliest, m.latest)
      ensures key in m.artifacts ==> m.artifacts[key] == artifacts[key]
    {
      TableOfPuts(before, i, range, artifacts, key);
    }
  }

  /** `ops` uploads the schemas and then the three shards of each month. */
  ghost predicate Uploads(i: Input, range: Range, months: seq<nat>, ops: seq<Op>) {
    && |ops| == SCHEMA_COUNT + 3 * |months|
    && (forall op :: op in ops ==> op.Put?)
    && (forall n :: 0 <= n < SCHEMA_COUNT ==> ops[n] == Put(Schema(n), []))
    && (forall n :: 0 <= n < |months| ==> MonthAt(i, range, months[n], ops, FirstPut(n)))
  }

  /** The index of the first write of the `n`-th month. */
  ghost function FirstPut(n: nat): nat {
    SCHEMA_COUNT + 3 * n
  }

  ghost predicate MonthAt(i: Input, range: Range, month: nat, ops: seq<Op>, at: nat) {
    at + 3 <= |ops| && ShardOps(i, range, month, ops[at..at + 3])
  }

  ghost predicate ShardOps(i: Input, range: Range, month: nat, ops: seq<Op>) {
    ops == [PutOf(i, range, Shard(i.deployment, Metrics, month)),
        PutOf(i, range, Shard(i.deployment, TreasuryAssets, month)),
            PutOf(i, range, Shard(i.deployment, OhmSupply, month))]
  }

  ghost predicate ShardAt(i: Input, range: Range, month: nat, ops: seq<Op>, at: nat, kind: Kind) {
    at < |ops| && ops[at] == PutOf(i, range, Shard(i.deployment, kind, month))
  }

  lemma ShardIndex(i: Input, range: Range, months: seq<nat>, n: nat, k: nat, kind: Kind, at: nat)
    requires range.start <= range.end && months == Months(MonthOf(range.start), MonthOf(range.end))
    requires n < |months| && k < 3 && kind == KINDS[k] && at == FirstPut(n) + k
    ensures ShardAt(i, range, months[n], Puts(i, range), at, kind)
  {
    KeyIndex(i, range, months, n, k, 3 * n + k);
  }

  lemma KeyIndex(i: Input, range: Range, months: seq<nat>, n: nat, k: nat, j: nat)
    requires range.start <= range.end && months == Months(MonthOf(range.start), MonthOf(range.end))
    requires n < |months| && k < 3 && j == 3 * n + k
    ensures SCHEMA_COUNT + j < |Puts(i, range)| == |WrittenKeys(i, range)|
    ensures WrittenKeys(i, range)[SCHEMA_COUNT + j] == Shard(i.deployment, KINDS[k], months[n])
    ensures Puts(i, range)[SCHEMA_COUNT + j] == PutOf(i, range, Shard(i.deployment, KINDS[k], months[n]))
  {
    assert j / 3 == n && j % 3 == k;
  }

  lemma ThreeShards(i: Input, range: Range, month: nat, ops: seq<Op>, at: nat)
    requires ShardAt(i, range, month, ops, at, Metrics) && ShardAt(i, range, month, ops, at + 1, TreasuryAssets)
    requires ShardAt(i, range, month, ops, at + 2, OhmSupply)
    ensures MonthAt(i, range, month, ops, at)
  {
    assert ops[at..at + 3] == [ops[at], ops[at + 1], ops[at + 2]];
  }

  lemma MonthPuts(i: Input, range: Range, months: seq<nat>, n: nat)
    requires range.start <= range.end && months == Months(MonthOf(range.start), MonthOf(range.end)) && n < |months|
    ensures MonthAt(i, range, months[n], Puts(i, range), FirstPut(n))
  {
    var at := FirstPut(n);
    ShardIndex(i, range, months, n, 0, Metrics, at);
    ShardIndex(i, range, months, n, 1, TreasuryAssets, at + 1);
    ShardIndex(i, range, months, n, 2, OhmSupply, at + 2);
    ThreeShards(i, range, months[n], Puts(i, range), at);
  }

  lemma PutsAreUploads(i: Input, range: Range)
    requires range.start <= range.end
    ensures Uploads(i, range, Months(MonthOf(range.start), MonthOf(range.end)), Puts(i, range))
  {
    var months := Months(MonthOf(range.start), MonthOf(range.end));
    forall n | 0 <= n < |months| ensures MonthAt(i, range, months[n], Puts(i, range), FirstPut(n)) {
      MonthPuts(i, range, months, n);
    }
  }

  class ArtifactBucket {
    var manifest: Option<Manifest>
    var objects: map<Key, seq<Row>>

    ghost function State(): Bucket
      reads this
    {
      Bucket(manifest, objects)
    }

    constructor ()
      ensures State() == Bucket(None, map[])
    {
      manifest, objects := None, map[];
    }

    /** `writeArtifact`: the `n`-th operation of the run. */
    method WriteArtifact(artifacts: map<Key, Entry>, key: Key, rows: seq<Row>, ghost b: Bucket, ghost ops: seq<Op>,
                         ghost n: nat, ghost before: map<Key, Entry>)
      returns (updated: map<Key, Entry>)
      requires n < |ops| && ops[n] == Put(key, rows) && forall op :: op in ops ==> op.Put?
      requires State() == Execute(b, ops[..n]) && artifacts == Table(before, ops[..n])
      modifies this`objects
      ensures State() == Execute(b, ops[..n + 1]) && updated == Table(before, ops[..n + 1])
    {
      updated := artifacts[key := Entry(rows, |rows|)];
      OneMore(b, ops, n);
      assert ops[..n + 1][..n] == ops[..n];
      objects := objects[key := rows];
    }

    /** `publishMetricsArtifacts` between acquiring and releasing the lock; `stale` is its cleanup listing. */
    method PublishMetricsArtifacts(i: Input) returns (published: bool, stale: seq<Key>)
      modifies this
      ensures published <==> Published(old(State()), i).Some?
      ensures StaleKeys(old(State()), i.deployment, stale)
      ensures State() == Execute(old(State()), Plan(old(State()), i, stale))
    {
      stale := StaleListing(i.deployment);
      published := false;
      if i.latest.None? {
        return;
      }
      var known := HasPublished(manifest, i.deployment);
      if !known && i.latest.value < i.today - 1 {
        return;
      }
      var range := PublishRange(i, i.latest.value, manifest);
      if range.end < range.start {
        return;
      }
      if known {
        var metrics := Window(i.source(Metrics), range.start, range.end);
        var missing := HasMissingDailyMetrics(metrics, range.start, range.end);
        if missing {
          return;
        }
      }
      published := true;
      WriteAll(i, range, stale);
    }

    method WriteAll(i: Input, range: Range, stale: seq<Key>)
      requires range.start <= range.end && i.latest.Some?
      modifies this
      ensures State() == Execute(old(State()), Puts(i, range) + [PutManifest(NewManifest(old(State()), i, range))]
              + Deletes(stale))
    {
      ghost var b := State();
      var artifacts := UploadShards(i, range);
      var earliest := Later(i.publicStart,
          Earlier(if manifest.Some? then manifest.value.earliest else range.start, range.start));
      var latest := Earlier(Later(if manifest.Some? then manifest.value.latest else range.end, range.end),
          i.latest.value);
      PrunedTable(b, i, range, artifacts);
      manifest := Some(Manifest(i.deployment, earliest, latest,
                                map key | key in artifacts
                                    && Kept(key, i.deployment, earliest, latest) :: artifacts[key]));
      ghost var head := Puts(i, range) + [PutManifest(NewManifest(b, i, range))];
      assert head[..|Puts(i, range)|] == Puts(i, range);
      ExecuteAppend(b, head, Deletes(stale));
      DeleteAll(stale);
    }

    /** The keys the cleanup will find stale; the run's own writes are never among them. */
    method StaleListing(deployment: string) returns (stale: seq<Key>)
      ensures StaleKeys(State(), deployment, stale)
    {
      stale := [];
      var rest := objects.Keys;
      while rest != {}
        invariant rest <= objects.Keys
        invariant forall key :: key in stale <==> key in objects && key !in rest && IsStale(key, deployment)
        decreases rest
      {
        var key :| key in rest;
        rest := rest - {key};
        if IsStale(key, deployment) {
          stale := stale + [key];
        }
      }
    }

    method UploadShards(i: Input, range: Range) returns (artifacts: map<Key, Entry>)
      requires range.start <= range.end
      modifies this`objects
      ensures State() == Execute(old(State()), Puts(i, range))
      ensures artifacts == Table(if manifest.Some? then manifest.value.artifacts else map[], Puts(i, range))
    {
      PutsAreUploads(i, range);
      artifacts := UploadAll(i, range, Months(MonthOf(range.start), MonthOf(range.end)), Puts(i, range));
    }

    method UploadAll(i: Input, range: Range, months: seq<nat>, ghost ops: seq<Op>) returns (artifacts: map<Key, Entry>)
      requires Uploads(i, range, months, ops)
      modifies this`objects
      ensures State() == Execute(old(State()), ops)
      ensures artifacts == Table(if manifest.Some? then manifest.value.artifacts else map[], ops)
    {
      ghost var b := State();
      var before := if manifest.Some? then manifest.value.artifacts else map[];
      artifacts := UploadSchemas(before, b, ops);
      artifacts := UploadMonths(artifacts, i, range, months, b, ops, before);
      assert ops[..FirstPut(|months|)] == ops;
    }

    method UploadMonths(schemas: map<Key, Entry>, i: Input, range: Range, months: seq<nat>,
                        ghost b: Bucket, ghost ops: seq<Op>, ghost before: map<Key, Entry>)
      returns (artifacts: map<Key, Entry>)
      requires forall op :: op in ops ==> op.Put?
      requires FirstPut(|months|) <= |ops|
      requires forall n :: 0 <= n < |months| ==> MonthAt(i, range, months[n], ops, FirstPut(n))
      requires State() == Execute(b, ops[..SCHEMA_COUNT]) && schemas == Table(before, ops[..SCHEMA_COUNT])
      modifies this`objects
      ensures State() == Execute(b, ops[..FirstPut(|months|)])
      ensures artifacts == Table(before, ops[..FirstPut(|months|)])
    {
      artifacts := schemas;
      for n := 0 to |months|
        invariant State() == Execute(b, ops[..FirstPut(n)]) && artifacts == Table(before, ops[..FirstPut(n)])
      {
        artifacts := UploadMonth(artifacts, i, range, months[n], b, ops, FirstPut(n), before);
      }
    }

    method UploadSchemas(before: map<Key, Entry>, ghost b: Bucket, ghost ops: seq<Op>)
      returns (artifacts: map<Key, Entry>)
      requires SCHEMA_COUNT <= |ops| && forall op :: op in ops ==> op.Put?
      requires forall n :: 0 <= n < SCHEMA_COUNT ==> ops[n] == Put(Schema(n), [])
      requires State() == b
      modifies this`objects
      ensures State() == Execute(b, ops[..SCHEMA_COUNT]) && artifacts == Table(before, ops[..SCHEMA_COUNT])
    {
      artifacts := before;
      for n := 0 to SCHEMA_COUNT
        invariant State() == Execute(b, ops[..n]) && artifacts == Table(before, ops[..n])
      {
        artifacts := WriteArtifact(artifacts, Schema(n), [], b, ops, n, before);
      }
    }

    /** The three shards of one month. */
    method UploadMonth(artifacts: map<Key, Entry>, i: Input, range: Range, month: nat,
                       ghost b: Bucket, ghost ops: seq<Op>, ghost at: nat, ghost before: map<Key, Entry>)
      returns (updated: map<Key, Entry>)
      requires MonthAt(i, range, month, ops, at) && forall op :: op in ops ==> op.Put?
      requires State() == Execute(b, ops[..at]) && artifacts == Table(before, ops[..at])
      modifies this`objects
      ensures State() == Execute(b, ops[..at + 3]) && updated == Table(before, ops[..at + 3])
    {
      assert ops[at] == ops[at..at + 3][0] && ops[at + 1] == ops[at..at + 3][1] && ops[at + 2] == ops[at..at + 3][2];
      var metrics := Window(i.source(Metrics), range.start, range.end);
      var treasuryAssets := Window(i.source(TreasuryAssets), range.start, range.end);
      var ohmSupply := Window(i.source(OhmSupply), range.start, range.end);
      updated := WriteArtifact(artifacts, Shard(i.deployment, Metrics, month), InMonth(metrics, month), b, ops, at,
          before);
      updated := WriteArtifact(updated, Shard(i.deployment, TreasuryAssets, month), InMonth(treasuryAssets, month),
                               b, ops, at + 1, before);
      updated := WriteArtifact(updated, Shard(i.deployment, OhmSupply, month), InMonth(ohmSupply, month),
                               b, ops, at + 2, before);
    }

    method DeleteAll(stale: seq<Key>)
      modifies this`objects
      ensures State() == Execute(old(State()), Deletes(stale))
    {
      ghost var b := State();
      for n := 0 to |stale|
        invariant State() == Execute(b, Deletes(stale)[..n])
      {
        OneMore(b, Deletes(stale), n);
        objects := objects - {stale[n]};
      }
      assert Deletes(stale)[..|stale|] == Deletes(stale);
    }
  }
}
