/**
 The in-memory artifact store (apps/metrics-publisher/src/artifact-store.ts) and the publisher's
 prefix-based cleanup on its string keys. An entity tag hashes the whole object, taken as injective, so
 it stands as the object itself.
 */
module ArtifactStore {
  import opened Calendar
  import opened Publisher

  const DEPLOYMENTS := "v2/deployments/"

  /** `parseDeploymentId` after trimming. */
  predicate ValidDeploymentId(id: string) {
    id != "" && forall i :: 0 <= i < |id| ==>
      'A' <= id[i] <= 'Z' || 'a' <= id[i] <= 'z' || '0' <= id[i] <= '9' || id[i] in "._-"
  }

  function DeploymentPrefix(id: string): string {
    DEPLOYMENTS + id + "/"
  }

  function KindText(kind: Kind): string {
    match kind case Metrics => "metrics" case TreasuryAssets => "treasury-assets" case OhmSupply => "ohm-supply"
  }

  /** A data key below its deployment's prefix. */
  function Below(kind: Kind, month: nat): string {
    KindText(kind) + "/daily/" + MonthKey(month) + ".json"
  }

  /** `dataKey`. */
  function DataKey(id: string, kind: Kind, month: nat): string {
    DeploymentPrefix(id) + Below(kind, month)
  }

  /** A key the cleanup deletes: below `v2/deployments/` but not below the current deployment. */
  predicate IsStaleText(key: string, id: string) {
    StartsWith(key, DEPLOYMENTS) && !StartsWith(key, DeploymentPrefix(id))
  }

  lemma PrefixNamesDeployment(id: string, other: string, rest: string)
    requires ValidDeploymentId(id) && ValidDeploymentId(other)
    ensures StartsWith(DeploymentPrefix(id) + rest, DeploymentPrefix(other)) <==> id == other
  {
    var key, n := DeploymentPrefix(id) + rest, |DEPLOYMENTS|;
    if StartsWith(key, DeploymentPrefix(other)) {
      assert forall i :: 0 <= i < |DeploymentPrefix(other)| ==> key[i] == DeploymentPrefix(other)[i];
      assert key[n + |id|] == '/' && DeploymentPrefix(other)[n + |other|] == '/';
      assert forall i :: 0 <= i < |id| ==> key[n + i] == id[i];
      assert forall i :: 0 <= i < |other| ==> DeploymentPrefix(other)[n + i] == other[i];
      assert |id| == |other|;
    }
    if id == other {
      assert key[..|DeploymentPrefix(other)|] == DeploymentPrefix(other);
    }
  }

  /**
   Of the data shards, the cleanup deletes exactly those of other deployments, even when one id is a prefix
   of another.
   */
  lemma CleanupSparesOnlyOwnShards(id: string, owner: string, kind: Kind, month: nat)
    requires ValidDeploymentId(id) && ValidDeploymentId(owner)
    ensures IsStaleText(DataKey(owner, kind, month), id) <==> IsStale(Shard(owner, kind, month), id)
  {
    PrefixNamesDeployment(owner, id, Below(kind, month));
    assert DataKey(owner, kind, month)[..|DEPLOYMENTS|] == DEPLOYMENTS;
  }

  /** Different shards have different keys: the string keys stand for the structured ones of `Publisher`. */
  lemma DataKeyInjective(id: string, kind: Kind, month: nat, id': string, kind': Kind, month': nat)
    requires ValidDeploymentId(id) && ValidDeploymentId(id') && month / 12 <= 9999 && month' / 12 <= 9999
    requires DataKey(id, kind, month) == DataKey(id', kind', month')
    ensures id == id' && kind == kind' && month == month'
  {
    var rest, rest' := Below(kind, month), Below(kind', month');
    assert StartsWith(DeploymentPrefix(id) + rest, DeploymentPrefix(id')) by {
      assert DataKey(id', kind', month')[..|DeploymentPrefix(id')|] == DeploymentPrefix(id');
    }
    PrefixNamesDeployment(id, id', rest);
    assert rest == DataKey(id, kind, month)[|DeploymentPrefix(id)|..];
    assert rest' == DataKey(id', kind', month')[|DeploymentPrefix(id)|..];
    BelowInjective(kind, month, kind', month');
  }

  lemma BelowInjective(kind: Kind, month: nat, kind': Kind, month': nat)
    requires month / 12 <= 9999 && month' / 12 <= 9999 && Below(kind, month) == Below(kind', month')
    ensures kind == kind' && month == month'
  {
    var n := |KindText(kind)| + 7;
    assert |Below(kind, month)| == |KindText(kind)| + 19 && |Below(kind', month')| == |KindText(kind')| + 19;
    assert kind == kind';
    assert Below(kind, month)[n..n + 7] == MonthKey(month) && Below(kind', month')[n..n + 7] == MonthKey(month');
    MonthKeyInjective(month, month');
  }

  // ---------- Sorted listings ----------

  lemma {:induction false} LessTransitive(a: string, b: string, c: string)
    requires Less(a, b) && Less(b, c)
    ensures Less(a, c)
  {
    if a != "" && a[0] == b[0] == c[0] {
      LessTransitive(a[1..], b[1..], c[1..]);
    }
  }

  lemma {:induction false} LessTotal(a: string, b: string)
    requires !Less(a, b) && a != b
    ensures Less(b, a)
  {
    if b != "" && a[0] == b[0] {
      assert a == [a[0]] + a[1..] && b == [b[0]] + b[1..];
      LessTotal(a[1..], b[1..]);
    }
  }

  ghost predicate Increasing(keys: seq<string>) {
    forall i, j :: 0 <= i < j < |keys| ==> Less(keys[i], keys[j])
  }

  /** `key` put where it belongs among increasing keys. */
  function Inserted(keys: seq<string>, key: string): seq<string> {
    if keys == [] || Less(key, keys[0]) then [key] + keys else [keys[0]] + Inserted(keys[1..], key)
  }

  lemma {:induction false} InsertedIncreasing(keys: seq<string>, key: string)
    requires Increasing(keys) && key !in keys
    ensures Increasing(Inserted(keys, key)) && forall k :: k in Inserted(keys, key) <==> k in keys || k == key
  {
    if keys == [] {
    } else if Less(key, keys[0]) {
      forall j | 0 < j < |keys| ensures Less(key, keys[j]) {
        LessTransitive(key, keys[0], keys[j]);
      }
    } else {
      LessTotal(key, keys[0]);
      assert keys == [keys[0]] + keys[1..];
      InsertedIncreasing(keys[1..], key);
      assert forall k :: k in Inserted(keys[1..], key) ==> Less(keys[0], k);
    }
  }

  class MemoryArtifactStore<V(==)> {
    var objects: map<string, V>
    var writtenKeys: seq<string>
    var deletedKeys: seq<string>

    constructor ()
      ensures objects == map[] && writtenKeys == [] && deletedKeys == []
    {
      objects, writtenKeys, deletedKeys := map[], [], [];
    }

    method PutJson(key: string, value: V)
      modifies this
      ensures objects == old(objects)[key := value] && writtenKeys == old(writtenKeys) + [key]
              && deletedKeys == old(deletedKeys)
    {
      writtenKeys := writtenKeys + [key];
      objects := objects[key := value];
    }

    method PutJsonIfAbsent(key: string, value: V) returns (written: bool)
      modifies this
      ensures written <==> key !in old(objects)
      ensures objects == if written then old(objects)[key := value] else old(objects)
      ensures writtenKeys == (if written then old(writtenKeys) + [key] else old(writtenKeys))
              && deletedKeys == old(deletedKeys)
    {
      if key in objects {
        return false;
      }
      PutJson(key, value);
      return true;
    }

    method PutJsonIfMatch(key: string, value: V, etag: V) returns (written: bool)
      modifies this
      ensures written <==> key in old(objects) && old(objects)[key] == etag
      ensures objects == if written then old(objects)[key := value] else old(objects)
      ensures writtenKeys == (if written then old(writtenKeys) + [key] else old(writtenKeys))
              && deletedKeys == old(deletedKeys)
    {
      if key !in objects || objects[key] != etag {
        return false;
      }
      PutJson(key, value);
      return true;
    }

    method DeleteJson(key: string)
      modifies this
      ensures objects == old(objects) - {key} && deletedKeys == old(deletedKeys) + [key]
              && writtenKeys == old(writtenKeys)
    {
      deletedKeys := deletedKeys + [key];
      objects := objects - {key};
    }

    method DeleteJsonIfMatch(key: string, etag: V) returns (deleted: bool)
      modifies this
      ensures deleted <==> key in old(objects) && old(objects)[key] == etag
      ensures objects == if deleted then old(objects) - {key} else old(objects)
      ensures deletedKeys == (if deleted then old(deletedKeys) + [key] else old(deletedKeys))
              && writtenKeys == old(writtenKeys)
    {
      if key !in objects || objects[key] != etag {
        return false;
      }
      DeleteJson(key);
      return true;
    }

    /** The keys with a prefix, sorted as strings. */
    method ListKeys(prefix: string) returns (keys: seq<string>)
      ensures forall key :: key in keys <==> key in objects && StartsWith(key, prefix)
      ensures Increasing(keys)
    {
      keys := [];
      var rest := objects.Keys;
      while rest != {}
        invariant rest <= objects.Keys
        invariant forall key :: key in keys <==> key in objects && key !in rest && StartsWith(key, prefix)
        invariant Increasing(keys)
        decreases rest
      {
        var key :| key in rest;
        rest := rest - {key};
        if StartsWith(key, prefix) {
          InsertedIncreasing(keys, key);
          keys := Inserted(keys, key);
        }
      }
    }

    /** `cleanupHistoricalDeploymentArtifacts`. */
    method CleanupHistoricalDeploymentArtifacts(id: string) returns (stale: seq<string>)
      modifies this
      ensures forall key :: key in stale <==> key in old(objects) && IsStaleText(key, id)
      ensures forall key :: key in objects <==> key in old(objects) && !IsStaleText(key, id)
      ensures forall key :: key in objects ==> objects[key] == old(objects)[key]
      ensures deletedKeys == old(deletedKeys) + stale && writtenKeys == old(writtenKeys)
    {
      var keys := ListKeys(DEPLOYMENTS);
      stale := [];
      for n := 0 to |keys|
        invariant forall key :: key in stale <==> key in keys[..n] && !StartsWith(key, DeploymentPrefix(id))
      {
        if !StartsWith(keys[n], DeploymentPrefix(id)) {
          stale := stale + [keys[n]];
        }
      }
      for n := 0 to |stale|
        invariant forall key :: key in objects <==> key in old(objects) && key !in stale[..n]
        invariant forall key :: key in objects ==> objects[key] == old(objects)[key]
        invariant deletedKeys == old(deletedKeys) + stale[..n] && writtenKeys == old(writtenKeys)
      {
        DeleteJson(stale[n]);
      }
    }
  }
}
