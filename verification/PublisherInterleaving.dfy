/**
 Runs that interleave (apps/metrics-publisher/src/publisher.ts): each reads the manifest, takes the lock,
 plans its uploads from the manifest it has read and performs them one by one, among the steps of all
 others. When every run writes within its lease, and plans from a manifest that is still the stored one, the
 lock makes the runs act one after another, so what holds of sequential histories holds here.
 */
module PublisherInterleaving {
  import opened Options
  import opened Publisher
  import opened PublisherHistories
  import opened PublisherRun
  import L = PublisherLock

  /** What a run is going to do, and how many of its store operations it has done. */
  datatype Job = Job(plan: seq<Op>, done: nat)

  datatype Joint = Joint(lock: L.World, bucket: Bucket, seen: map<L.RunId, Option<Manifest>>, jobs: map<L.RunId, Job>)

  datatype Event =
    | Locking(step: L.Event)                                // any step of the lock, the start of a run among them
    | ReadManifest(id: L.RunId)                             // before the lock is taken
    | Begin(id: L.RunId, input: Input, stale: seq<Key>)     // the range is resolved and the rows are fetched
    | Store(id: L.RunId)                                    // the run's next upload, manifest write or deletion

  ghost function Next(j: Joint, e: Event): Joint {
    match e
    case Locking(step) => j.(lock := L.Next(j.lock, step))
    case ReadManifest(id) => if id in j.jobs then j else j.(seen := j.seen[id := j.bucket.manifest])
    case Begin(id, input, stale) =>
      if L.Holds(j.lock, id) && id in j.seen && id !in j.jobs
      then j.(jobs := j.jobs[id := Job(Plan(Bucket(j.seen[id], map[]), input, stale), 0)])
      else j
    case Store(id) =>
      if L.Holds(j.lock, id) && id in j.jobs && j.jobs[id].done < |j.jobs[id].plan|
      then j.(bucket := Apply(j.bucket, j.jobs[id].plan[j.jobs[id].done]),
              jobs := j.jobs[id := j.jobs[id].(done := j.jobs[id].done + 1)])
      else j
  }

  ghost function Execute(events: seq<Event>): Joint {
    if events == [] then Joint(L.START, EMPTY_BUCKET, map[], map[])
    else Next(Execute(events[..|events| - 1]), events[|events| - 1])
  }

  /** A condition on the store a run finds, its input and its cleanup listing. */
  type Condition = (Bucket, Input, seq<Key>) -> bool

  /**
   The step keeps to the lease: no harmful delete of the lock, and a run plans and writes only within its
   lease. It plans from a manifest that is still the stored one, and its input meets `ok`.
   */
  ghost predicate KeepsLease(j: Joint, e: Event, ok: Condition) {
    match e
    case Locking(step) => !L.Harmful(j.lock, step)
    case ReadManifest(_) => true
    case Begin(id, input, stale) =>
      L.Holds(j.lock, id) && id in j.seen && id !in j.jobs ==>
        !L.Expired(j.lock, id) && j.seen[id] == j.bucket.manifest && ok(j.bucket, input, stale)
    case Store(id) => L.Holds(j.lock, id) && id in j.jobs ==> !L.Expired(j.lock, id)
  }

  ghost predicate AllKeepLease(events: seq<Event>, ok: Condition) {
    forall n :: 0 <= n < |events| ==> KeepsLease(Execute(events[..n]), events[n], ok)
  }

  // ---------- The sequential history ----------

  /** `found` are the states before, between and after the steps, each linked to the next. */
  ghost predicate Linked<S, T>(history: seq<T>, found: seq<S>, link: (S, T, S) -> bool) {
    |found| == |history| + 1 && forall n :: 0 <= n < |history| ==> link(found[n], history[n], found[n + 1])
  }

  lemma LinkedMore<S, T>(history: seq<T>, found: seq<S>, a: T, b: S, link: (S, T, S) -> bool)
    requires Linked(history, found, link) && link(found[|history|], a, b)
    ensures Linked(history + [a], found + [b], link)
  {
    var h, f := history + [a], found + [b];
    forall n | 0 <= n < |h| ensures link(f[n], h[n], f[n + 1]) {
      if n < |history| {
        assert link(found[n], history[n], found[n + 1]);
      }
    }
  }

  lemma LinkedFront<S, T>(history: seq<T>, found: seq<S>, k: nat, link: (S, T, S) -> bool)
    requires Linked(history, found, link) && k <= |history|
    ensures Linked(history[..k], found[..k + 1], link)
  {
    var h, f := history[..k], found[..k + 1];
    forall n | 0 <= n < |h| ensures link(f[n], h[n], f[n + 1]) {
      assert link(found[n], history[n], found[n + 1]);
    }
  }

  /** What holds at the start and is kept by every link holds along the whole chain. */
  lemma {:induction false} LinkedReach<S(!new), T(!new)>(history: seq<T>, found: seq<S>, link: (S, T, S) -> bool,
                                                         reached: (seq<T>, S) -> bool, n: nat)
    requires Linked(history, found, link) && n <= |history| && reached([], found[0])
    requires forall front, a, b, b' :: reached(front, b) && link(b, a, b') ==> reached(front + [a], b')
    ensures reached(history[..n], found[n])
  {
    if n == 0 {
      assert history[..n] == [];
    } else {
      LinkedReach(history, found, link, reached, n - 1);
      assert history[..n] == history[..n - 1] + [history[n - 1]];
      assert link(found[n - 1], history[n - 1], found[n]);
    }
  }

  /** The attempt, on the store `b`, leaves `b'`. */
  ghost predicate Ran(b: Bucket, a: Attempt, b': Bucket) {
    b' == AfterAttempt(b, a)
  }

  ghost function Runs(ok: Condition): (Bucket, Attempt, Bucket) -> bool {
    (b, a, b') => Ran(b, a, b') && ok(b, a.input, a.stale)
  }

  /** The stores before, between and after the attempts, each of which met the condition on the store it found. */
  ghost predicate Trace(history: seq<Attempt>, found: seq<Bucket>, ok: Condition) {
    Linked(history, found, Runs(ok)) && found[0] == EMPTY_BUCKET
  }

  /** The run's lease still lets it write. */
  predicate MayWrite(j: Joint, id: L.RunId) {
    L.Holds(j.lock, id) && !L.Expired(j.lock, id)
  }

  /** A run that has begun has once held the lock and will not take it again. */
  predicate Began(w: L.World, id: L.RunId) {
    id in w.runs && (L.Holds(w, id) || w.runs[id].phase.Stopped?)
  }

  /** `owners` are the runs that have begun, in order; of these only the last can still write. */
  ghost predicate Owners(j: Joint, owners: seq<L.RunId>) {
    && (forall id :: id in j.jobs <==> id in owners)
    && (forall id :: id in owners ==> Began(j.lock, id))
    && (forall k :: 0 <= k < |owners| - 1 ==> !MayWrite(j, owners[k]))
  }

  /** The run is as far with its plan as the attempt. */
  ghost predicate AtWork(j: Joint, before: Bucket, a: Attempt, id: L.RunId) {
    && id in j.jobs && j.jobs[id] == Job(Plan(before, a.input, a.stale), a.completed)
    && a.completed <= |j.jobs[id].plan|
  }

  /** The store is what the attempts leave, made one after another by the owners; the last may be at work. */
  ghost predicate Sequential(j: Joint, history: seq<Attempt>, found: seq<Bucket>, owners: seq<L.RunId>, ok: Condition) {
    && Trace(history, found, ok) && Owners(j, owners) && |owners| == |history|
    && j.bucket == found[|history|]
    && (history != [] ==> AtWork(j, found[|history| - 1], history[|history| - 1], owners[|owners| - 1]))
  }

  // ---------- Steps of the lock ----------

  /** Leases only run out, and a run that has stopped holding the lock never holds it again. */
  lemma StaysBegun(w: L.World, step: L.Event, id: L.RunId)
    requires Began(w, id)
    ensures Began(L.Next(w, step), id)
    ensures L.Holds(L.Next(w, step), id) ==> L.Holds(w, id)
    ensures L.Expired(w, id) ==> L.Expired(L.Next(w, step), id)
  {
  }

  lemma LockStep(j: Joint, step: L.Event, owners: seq<L.RunId>)
    requires Owners(j, owners)
    ensures Owners(Next(j, Locking(step)), owners)
  {
    var j' := Next(j, Locking(step));
    forall id | id in owners ensures Began(j'.lock, id) && (MayWrite(j', id) ==> MayWrite(j, id)) {
      StaysBegun(j.lock, step, id);
    }
  }

  // ---------- A run begins ----------

  /** A run's plan depends on the manifest alone. */
  lemma PlanFromManifest(b: Bucket, i: Input, stale: seq<Key>)
    ensures Plan(Bucket(b.manifest, map[]), i, stale) == Plan(b, i, stale)
  {
    assert Published(Bucket(b.manifest, map[]), i) == Published(b, i);
    if Published(b, i).Some? {
      var range := Published(b, i).value;
      assert NewManifest(Bucket(b.manifest, map[]), i, range) == NewManifest(b, i, range);
    }
  }

  lemma NothingDone(b: Bucket, a: Attempt)
    requires a.completed == 0
    ensures Ran(b, a, b)
  {
  }

  /** Two runs are never both within their lease. */
  lemma OneWriter(j: Joint, id: L.RunId, other: L.RunId)
    requires L.Valid(j.lock) && MayWrite(j, id) && id != other
    ensures !MayWrite(j, other)
  {
    assert L.RunValid(j.lock, id) && (other in j.lock.runs ==> L.RunValid(j.lock, other));
  }

  lemma BegunOwners(j: Joint, j': Joint, id: L.RunId, owners: seq<L.RunId>)
    requires L.Valid(j.lock) && Owners(j, owners) && MayWrite(j, id) && id !in j.jobs
    requires j'.lock == j.lock && j'.jobs.Keys == j.jobs.Keys + {id}
    ensures Owners(j', owners + [id])
  {
    forall k | 0 <= k < |owners| ensures (owners + [id])[k] == owners[k] && !MayWrite(j', owners[k]) {
      assert owners[k] in owners;
      OneWriter(j, id, owners[k]);
    }
  }

  lemma BeginStep(j: Joint, id: L.RunId, input: Input, stale: seq<Key>, history: seq<Attempt>, found: seq<Bucket>,
                  owners: seq<L.RunId>, ok: Condition)
    requires L.Valid(j.lock) && Sequential(j, history, found, owners, ok)
    requires MayWrite(j, id) && id in j.seen && id !in j.jobs
    requires j.seen[id] == j.bucket.manifest && ok(j.bucket, input, stale)
    ensures Sequential(Next(j, Begin(id, input, stale)), history + [Attempt(input, stale, 0)], found + [j.bucket],
                       owners + [id], ok)
  {
    var a, j' := Attempt(input, stale, 0), Next(j, Begin(id, input, stale));
    NothingDone(j.bucket, a);
    LinkedMore(history, found, a, j.bucket, Runs(ok));
    BegunJob(j, id, input, stale);
    BegunOwners(j, j', id, owners);
    SequentialMore(j', history, found, owners, a, id, ok);
  }

  lemma BegunJob(j: Joint, id: L.RunId, input: Input, stale: seq<Key>)
    requires L.Holds(j.lock, id) && id in j.seen && id !in j.jobs && j.seen[id] == j.bucket.manifest
    ensures var j' := Next(j, Begin(id, input, stale));
            && j'.lock == j.lock && j'.bucket == j.bucket && j'.jobs.Keys == j.jobs.Keys + {id}
            && AtWork(j', j.bucket, Attempt(input, stale, 0), id)
  {
    PlanFromManifest(j.bucket, input, stale);
  }

  lemma SequentialMore(j: Joint, history: seq<Attempt>, found: seq<Bucket>, owners: seq<L.RunId>, a: Attempt,
                       id: L.RunId, ok: Condition)
    requires Trace(history + [a], found + [j.bucket], ok) && Owners(j, owners + [id])
    requires |owners| == |history| && found[|history|] == j.bucket && AtWork(j, j.bucket, a, id)
    ensures Sequential(j, history + [a], found + [j.bucket], owners + [id], ok)
  {
  }

  // ---------- A run writes ----------

  /** The run that writes is the last to have begun. */
  lemma LastOwner(j: Joint, id: L.RunId, owners: seq<L.RunId>)
    requires Owners(j, owners) && id in j.jobs && MayWrite(j, id)
    ensures owners != [] && owners[|owners| - 1] == id
  {
    var k :| 0 <= k < |owners| && owners[k] == id;
  }

  lemma OneMoreDone(b: Bucket, a: Attempt, b': Bucket)
    requires a.completed < |Plan(b, a.input, a.stale)| && Ran(b, a, b')
    ensures Ran(b, a.(completed := a.completed + 1), Apply(b', Plan(b, a.input, a.stale)[a.completed]))
  {
    NextOp(b, Plan(b, a.input, a.stale), a.completed);
  }

  lemma NextOp(b: Bucket, ops: seq<Op>, n: nat)
    requires n < |ops|
    ensures Publisher.Execute(b, if n + 1 < |ops| then ops[..n + 1] else ops)
            == Apply(Publisher.Execute(b, ops[..n]), ops[n])
  {
    OneMore(b, ops, n);
    assert ops[..|ops|] == ops;
  }

  lemma TraceLast(history: seq<Attempt>, found: seq<Bucket>, a: Attempt, b: Bucket, ok: Condition)
    requires Trace(history, found, ok) && history != [] && Ran(found[|history| - 1], a, b)
    requires a.input == history[|history| - 1].input && a.stale == history[|history| - 1].stale
    ensures Trace(history[..|history| - 1] + [a], found[..|history|] + [b], ok)
  {
    var k := |history| - 1;
    assert Runs(ok)(found[k], history[k], found[k + 1]);
    LinkedFront(history, found, k, Runs(ok));
    LinkedMore(history[..k], found[..k + 1], a, b, Runs(ok));
  }

  lemma RanAt(history: seq<Attempt>, found: seq<Bucket>, ok: Condition, n: nat)
    requires Trace(history, found, ok) && n < |history|
    ensures Ran(found[n], history[n], found[n + 1]) && ok(found[n], history[n].input, history[n].stale)
  {
    assert Runs(ok)(found[n], history[n], found[n + 1]);
  }

  lemma SameOwners(j: Joint, j': Joint, owners: seq<L.RunId>)
    requires Owners(j, owners) && j'.lock == j.lock && j'.jobs.Keys == j.jobs.Keys
    ensures Owners(j', owners)
  {
  }

  lemma StoreStep(j: Joint, id: L.RunId, history: seq<Attempt>, found: seq<Bucket>, owners: seq<L.RunId>, ok: Condition)
    returns (history': seq<Attempt>, found': seq<Bucket>)
    requires Sequential(j, history, found, owners, ok) && history != [] && owners[|owners| - 1] == id
    requires L.Holds(j.lock, id) && j.jobs[id].done < |j.jobs[id].plan|
    ensures Sequential(Next(j, Store(id)), history', found', owners, ok)
  {
    var k := |history| - 1;
    var b, a, j' := found[k], history[k], Next(j, Store(id));
    history', found' := history[..k] + [a.(completed := a.completed + 1)], found[..k + 1] + [j'.bucket];
    RanAt(history, found, ok, k);
    OneMoreDone(b, a, j.bucket);
    TraceLast(history, found, a.(completed := a.completed + 1), j'.bucket, ok);
    SameOwners(j, j', owners);
    Forward(j, id, b, a);
  }

  lemma Forward(j: Joint, id: L.RunId, before: Bucket, a: Attempt)
    requires AtWork(j, before, a, id) && L.Holds(j.lock, id) && a.completed < |j.jobs[id].plan|
    ensures AtWork(Next(j, Store(id)), before, a.(completed := a.completed + 1), id)
    ensures Next(j, Store(id)).bucket == Apply(j.bucket, Plan(before, a.input, a.stale)[a.completed])
  {
  }

  // ---------- Every step ----------

  lemma BeginCase(j: Joint, id: L.RunId, input: Input, stale: seq<Key>, history: seq<Attempt>, found: seq<Bucket>,
                  owners: seq<L.RunId>, ok: Condition)
    returns (history': seq<Attempt>, found': seq<Bucket>, owners': seq<L.RunId>)
    requires L.Valid(j.lock) && Sequential(j, history, found, owners, ok)
    requires KeepsLease(j, Begin(id, input, stale), ok)
    ensures Sequential(Next(j, Begin(id, input, stale)), history', found', owners', ok)
  {
    if L.Holds(j.lock, id) && id in j.seen && id !in j.jobs {
      history', found', owners' := history + [Attempt(input, stale, 0)], found + [j.bucket], owners + [id];
      BeginStep(j, id, input, stale, history, found, owners, ok);
    } else {
      history', found', owners' := history, found, owners;
    }
  }

  lemma StoreCase(j: Joint, id: L.RunId, history: seq<Attempt>, found: seq<Bucket>, owners: seq<L.RunId>, ok: Condition)
    returns (history': seq<Attempt>, found': seq<Bucket>)
    requires Sequential(j, history, found, owners, ok) && KeepsLease(j, Store(id), ok)
    ensures Sequential(Next(j, Store(id)), history', found', owners, ok)
  {
    if L.Holds(j.lock, id) && id in j.jobs && j.jobs[id].done < |j.jobs[id].plan| {
      LastOwner(j, id, owners);
      history', found' := StoreStep(j, id, history, found, owners, ok);
    } else {
      history', found' := history, found;
    }
  }

  lemma Step(j: Joint, e: Event, history: seq<Attempt>, found: seq<Bucket>, owners: seq<L.RunId>, ok: Condition)
    returns (history': seq<Attempt>, found': seq<Bucket>, owners': seq<L.RunId>)
    requires L.Valid(j.lock) && KeepsLease(j, e, ok) && Sequential(j, history, found, owners, ok)
    ensures Sequential(Next(j, e), history', found', owners', ok)
  {
    match e {
      case Locking(step) =>
        LockStep(j, step, owners);
        return history, found, owners;
      case ReadManifest(id) =>
        SameOwners(j, Next(j, e), owners);
        return history, found, owners;
      case Begin(id, input, stale) =>
        history', found', owners' := BeginCase(j, id, input, stale, history, found, owners, ok);
        return;
      case Store(id) =>
        history', found' := StoreCase(j, id, history, found, owners, ok);
        return history', found', owners;
    }
  }

  /** The lock's part of an interleaving is an interleaving of the lock. */
  lemma {:induction false} LockAlwaysValid(events: seq<Event>, ok: Condition)
    requires AllKeepLease(events, ok)
    ensures L.Valid(Execute(events).lock)
  {
    if events == [] {
    } else {
      var n := |events| - 1;
      forall k | 0 <= k < n ensures events[..n][..k] == events[..k] {
      }
      LockAlwaysValid(events[..n], ok);
      assert KeepsLease(Execute(events[..n]), events[n], ok);
      if events[n].Locking? {
        L.StepValid(Execute(events[..n]).lock, events[n].step);
      }
    }
  }

  /**
   Interleaved runs that keep to their leases act as a sequential history: the store is what some sequence
   of attempts leaves that run one after another, each meeting the condition on the store it finds.
   */
  lemma {:induction false} ActsSequentially(events: seq<Event>, ok: Condition)
    returns (history: seq<Attempt>, found: seq<Bucket>, owners: seq<L.RunId>)
    requires AllKeepLease(events, ok)
    ensures Sequential(Execute(events), history, found, owners, ok)
  {
    if events == [] {
      history, found, owners := [], [EMPTY_BUCKET], [];
    } else {
      var n := |events| - 1;
      forall k | 0 <= k < n ensures events[..n][..k] == events[..k] {
      }
      history, found, owners := ActsSequentially(events[..n], ok);
      LockAlwaysValid(events[..n], ok);
      history, found, owners := Step(Execute(events[..n]), events[n], history, found, owners, ok);
    }
  }

  lemma TraceIsAfterAll(history: seq<Attempt>, found: seq<Bucket>, ok: Condition, n: nat)
    requires Trace(history, found, ok) && n <= |history|
    ensures found[n] == AfterAll(history[..n])
  {
    var reached := (front: seq<Attempt>, b: Bucket) => b == AfterAll(front);
    forall front, a, b, b' | reached(front, b) && Runs(ok)(b, a, b') ensures reached(front + [a], b') {
      OneMoreAttempt(front, a, front + [a], b');
    }
    LinkedReach(history, found, Runs(ok), reached, n);
  }

  lemma OneMoreAttempt(front: seq<Attempt>, a: Attempt, history: seq<Attempt>, b: Bucket)
    requires history == front + [a] && Ran(AfterAll(front), a, b)
    ensures b == AfterAll(history)
  {
    assert history[..|front|] == front;
  }

  // ---------- What carries over ----------

  /** Under the lock the stored manifest is good at every step of every interleaving of gapless runs. */
  lemma LockedManifestAlwaysGood(events: seq<Event>)
    requires AllKeepLease(events, (b, i, stale) => GaplessRun(b, Attempt(i, stale, 0)))
    ensures Good(Execute(events).bucket)
  {
    var ok: Condition := (b, i, stale) => GaplessRun(b, Attempt(i, stale, 0));
    var history, found, owners := ActsSequentially(events, ok);
    forall n | 0 <= n < |history| ensures GaplessRun(AfterAll(history[..n]), history[n]) {
      TraceIsAfterAll(history, found, ok, n);
      RanAt(history, found, ok, n);
    }
    ManifestAlwaysGood(history);
    TraceIsAfterAll(history, found, ok, |history|);
    assert history[..|history|] == history;
  }

  /** Under the lock the published shards hold the final rows at every step of every interleaving of steady runs. */
  lemma LockedShardsAlwaysTrue(truth: Truth, publicStart: nat, events: seq<Event>)
    requires AllKeepLease(events, (b, i, stale) => SteadyRun(truth, publicStart, b, Attempt(i, stale, 0)))
    ensures ShardsTrue(truth, publicStart, Execute(events).bucket)
  {
    var ok: Condition := (b, i, stale) => SteadyRun(truth, publicStart, b, Attempt(i, stale, 0));
    var history, found, owners := ActsSequentially(events, ok);
    forall n | 0 <= n < |history| ensures SteadyRun(truth, publicStart, AfterAll(history[..n]), history[n]) {
      TraceIsAfterAll(history, found, ok, n);
      RanAt(history, found, ok, n);
    }
    ShardsAlwaysTrue(truth, publicStart, history);
    TraceIsAfterAll(history, found, ok, |history|);
    assert history[..|history|] == history;
  }
}
