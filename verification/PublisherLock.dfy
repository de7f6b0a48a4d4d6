/**
 The publisher's lease lock (apps/metrics-publisher/src/publisher.ts): any number of runs acquire and
 release one lock object through conditional writes (RFC 9110, sections 13.1.1 and 13.1.2), interleaved
 at every store operation. An entity tag is a hash of the whole lock object, taken as injective, so a
 conditional write compares the object itself.
 */
module PublisherLock {
  import opened Options

  type RunId = nat

  datatype Lock = Lock(runId: RunId, expiresAt: int)

  /** Where a run stands: the next store operation it will perform. */
  datatype Phase =
    | Putting                     // putJsonIfAbsent
    | Reading                     // readPublisherLock after a refused put
    | Replacing(seen: Lock)       // putJsonIfMatch on an expired lock
    | PuttingAgain                // putJsonIfAbsent, the expired lock having been read without an entity tag
    | Verifying                   // readPublisherLock after a successful replacement
    | Held                        // publishing
    | Releasing                   // readPublisherLock in releasePublisherLock
    | Deleting(own: Lock)         // deleteJsonIfMatch
    | DeletingBlind               // deleteJson, the own lock having been read without an entity tag
    | Stopped                     // skipped, released or crashed

  datatype Run = Run(now: int, ttl: nat, phase: Phase)
  {
    function LockOf(id: RunId): Lock {
      Lock(id, now + ttl)
    }
  }

  /** `writes` logs the runs in the order in which they wrote the lock object. */
  datatype World = World(clock: int, lock: Option<Lock>, runs: map<RunId, Run>, writes: seq<RunId>)

  datatype Event =
    | Tick(elapsed: nat)
    | Start(id: RunId, ttl: nat)
    | Operate(id: RunId, etag: bool)   // the run's next store operation; `etag`: a read returns an entity tag
    | Finish(id: RunId)                // publishing ends, the `finally` block starts
    | Crash(id: RunId)

  function Write(w: World, id: RunId, next: Phase): World
    requires id in w.runs
  {
    World(w.clock, Some(w.runs[id].LockOf(id)), w.runs[id := w.runs[id].(phase := next)], w.writes + [id])
  }

  function Goto(w: World, id: RunId, next: Phase): World
    requires id in w.runs
  {
    w.(runs := w.runs[id := w.runs[id].(phase := next)])
  }

  function Operation(w: World, id: RunId, etag: bool): World
    requires id in w.runs
  {
    var run := w.runs[id];
    match run.phase
    case Putting => if w.lock.None? then Write(w, id, Held) else Goto(w, id, Reading)
    case Reading =>
      if w.lock.None? || w.lock.value.expiresAt > run.now then Goto(w, id, Stopped)
      else if etag then Goto(w, id, Replacing(w.lock.value)) else Goto(w, id, PuttingAgain)
    case Replacing(seen) => if w.lock == Some(seen) then Write(w, id, Verifying) else Goto(w, id, Stopped)
    case PuttingAgain => if w.lock.None? then Write(w, id, Verifying) else Goto(w, id, Stopped)
    case Verifying => if w.lock.Some? && w.lock.value.runId == id then Goto(w, id, Held) else Goto(w, id, Stopped)
    case Releasing =>
      if w.lock.None? || w.lock.value.runId != id then Goto(w, id, Stopped)
      else if etag then Goto(w, id, Deleting(w.lock.value)) else Goto(w, id, DeletingBlind)
    case Deleting(own) => Goto(if w.lock == Some(own) then w.(lock := None) else w, id, Stopped)
    case DeletingBlind => Goto(w.(lock := None), id, Stopped)
    case _ => w
  }

  function Next(w: World, e: Event): World {
    match e
    case Tick(elapsed) => w.(clock := w.clock + elapsed)
    case Start(id, ttl) => if id in w.runs || ttl < 1 then w else w.(runs := w.runs[id := Run(w.clock, ttl, Putting)])
    case Operate(id, etag) => if id in w.runs then Operation(w, id, etag) else w
    case Finish(id) => if id in w.runs && w.runs[id].phase.Held? then Goto(w, id, Releasing) else w
    case Crash(id) => if id in w.runs then Goto(w, id, Stopped) else w
  }

  const START := World(0, None, map[], [])

  function Execute(events: seq<Event>): World {
    if events == [] then START else Next(Execute(events[..|events| - 1]), events[|events| - 1])
  }

  /** The run has acquired the lock and not finished releasing it. */
  predicate Holds(w: World, id: RunId) {
    id in w.runs && (var p := w.runs[id].phase; p.Held? || p.Releasing? || p.Deleting? || p.DeletingBlind?)
  }

  predicate Expired(w: World, id: RunId)
    requires id in w.runs
  {
    w.runs[id].LockOf(id).expiresAt <= w.clock
  }

  /** `a` wrote the lock object before `b` did. */
  ghost predicate Older(w: World, a: RunId, b: RunId) {
    exists i, j :: 0 <= i < j < |w.writes| && w.writes[i] == a && w.writes[j] == b
  }

  /** The step deletes the lock object without a condition. */
  predicate BlindDelete(w: World, e: Event) {
    e.Operate? && e.id in w.runs && w.runs[e.id].phase.DeletingBlind?
  }

  /** The step blindly deletes the lock of another run that holds it within its lease. */
  predicate Harmful(w: World, e: Event) {
    && BlindDelete(w, e) && w.lock.Some? && w.lock.value.runId != e.id
    && Holds(w, w.lock.value.runId) && !Expired(w, w.lock.value.runId)
  }

  predicate NoHarm(events: seq<Event>) {
    forall i :: 0 <= i < |events| ==> !Harmful(Execute(events[..i]), events[i])
  }

  predicate Wrote(p: Phase) {
    p.Verifying? || p.Held? || p.Releasing? || p.Deleting? || p.DeletingBlind?
  }

  ghost predicate RunValid(w: World, id: RunId)
    requires id in w.runs
  {
    var run := w.runs[id];
    && run.now <= w.clock
    && (Wrote(run.phase) ==> id in w.writes)
    && (Holds(w, id) ==> w.lock == Some(run.LockOf(id)) || Expired(w, id))
    && (!Wrote(run.phase) && !run.phase.Stopped? ==> id !in w.writes)
    && (run.phase.Replacing? ==> run.phase.seen.expiresAt <= run.now)
    && (run.phase.Deleting? ==> run.phase.own == run.LockOf(id))
  }

  ghost predicate Valid(w: World) {
    && (forall i :: 0 <= i < |w.writes| ==> w.writes[i] in w.runs)
    && (forall i, j :: 0 <= i < j < |w.writes| ==> w.writes[i] != w.writes[j])
    && (w.lock.Some? ==> w.writes != [] && (var id := w.writes[|w.writes| - 1]; w.lock.value == w.runs[id].LockOf(id)))
    && (forall id :: id in w.runs ==> RunValid(w, id))
  }

  lemma WriteValid(w: World, id: RunId, next: Phase)
    requires Valid(w) && id in w.runs && id !in w.writes && (next.Verifying? || next.Held?)
    requires w.lock.Some? ==> w.lock.value.expiresAt <= w.clock
    ensures Valid(Write(w, id, next))
  {
    var w' := Write(w, id, next);
    forall other | other in w'.runs ensures RunValid(w', other) {
      assert RunValid(w, other);
    }
  }

  lemma GotoValid(w: World, id: RunId, next: Phase)
    requires Valid(w) && id in w.runs
    requires next.Stopped? || (Wrote(next) <==> Wrote(w.runs[id].phase))
    requires w.runs[id].phase.Stopped? ==> next.Stopped?
    requires next.Replacing? ==> next.seen.expiresAt <= w.runs[id].now
    requires next.Deleting? ==> next.own == w.runs[id].LockOf(id)
    requires next.Stopped? || (next.Held? ==> w.lock == Some(w.runs[id].LockOf(id)) || Holds(w, id))
    requires next.Releasing? || next.Deleting? || next.DeletingBlind? ==> Holds(w, id)
    ensures Valid(Goto(w, id, next))
  {
    forall other | other in w.runs ensures RunValid(Goto(w, id, next), other) {
      assert RunValid(w, other);
    }
  }

  /** The lock may go when no other run holds it within its lease. */
  lemma RemoveValid(w: World, id: RunId)
    requires Valid(w) && id in w.runs
    requires w.lock.Some? && w.lock.value.runId != id && Holds(w, w.lock.value.runId) ==> Expired(w, w.lock.value.runId)
    ensures Valid(Goto(w.(lock := None), id, Stopped))
  {
    var w' := Goto(w.(lock := None), id, Stopped);
    forall other | other in w'.runs ensures RunValid(w', other) {
      assert RunValid(w, other);
    }
  }

  lemma OperationValid(w: World, id: RunId, etag: bool)
    requires Valid(w) && id in w.runs && !Harmful(w, Operate(id, etag))
    ensures Valid(Operation(w, id, etag))
  {
    var run := w.runs[id];
    assert RunValid(w, id);
    match run.phase
    case Putting =>
      if w.lock.None? { WriteValid(w, id, Held); } else { GotoValid(w, id, Reading); }
    case Reading =>
      if w.lock.None? || w.lock.value.expiresAt > run.now { GotoValid(w, id, Stopped); }
      else { GotoValid(w, id, if etag then Replacing(w.lock.value) else PuttingAgain); }
    case Replacing(seen) =>
      if w.lock == Some(seen) { WriteValid(w, id, Verifying); } else { GotoValid(w, id, Stopped); }
    case PuttingAgain =>
      if w.lock.None? { WriteValid(w, id, Verifying); } else { GotoValid(w, id, Stopped); }
    case Verifying =>
      GotoValid(w, id, if w.lock.Some? && w.lock.value.runId == id then Held else Stopped);
    case Releasing =>
      if w.lock.None? || w.lock.value.runId != id { GotoValid(w, id, Stopped); }
      else { GotoValid(w, id, if etag then Deleting(w.lock.value) else DeletingBlind); }
    case Deleting(own) =>
      if w.lock == Some(own) { RemoveValid(w, id); } else { GotoValid(w, id, Stopped); }
    case DeletingBlind =>
      RemoveValid(w, id);
    case _ =>
  }

  lemma StepValid(w: World, e: Event)
    requires Valid(w) && !Harmful(w, e)
    ensures Valid(Next(w, e))
  {
    match e
    case Operate(id, etag) => if id in w.runs { OperationValid(w, id, etag); }
    case Finish(id) => if id in w.runs && w.runs[id].phase.Held? { GotoValid(w, id, Releasing); }
    case Crash(id) => if id in w.runs { GotoValid(w, id, Stopped); }
    case _ =>
      forall id | id in Next(w, e).runs ensures RunValid(Next(w, e), id) {
        assert id in w.runs ==> RunValid(w, id);
      }
  }

  lemma {:induction false} AlwaysValid(events: seq<Event>)
    requires NoHarm(events)
    ensures Valid(Execute(events))
  {
    if events == [] {
    } else {
      var n := |events| - 1;
      forall i | 0 <= i < n ensures events[..n][..i] == events[..i] {
      }
      AlwaysValid(events[..n]);
      StepValid(Execute(events[..n]), events[n]);
    }
  }

  lemma ExclusionOfValid(w: World, a: RunId, b: RunId)
    requires Valid(w) && a != b && Holds(w, a) && Holds(w, b)
    ensures if Older(w, a, b) then Expired(w, a) else Older(w, b, a) && Expired(w, b)
  {
    assert RunValid(w, a) && RunValid(w, b);
    var i :| 0 <= i < |w.writes| && w.writes[i] == a;
    var j :| 0 <= j < |w.writes| && w.writes[j] == b;
    assert i < j ==> Older(w, a, b);
    assert j < i ==> Older(w, b, a);
  }

  /**
   Mutual exclusion of leases: in every interleaving of any number of runs, with or without entity tags,
   without a harmful delete, when two runs hold the lock at the same moment, the lease of the one that took
   it first has already expired on the true clock.
   */
  lemma LeaseMutualExclusion(events: seq<Event>, a: RunId, b: RunId)
    requires NoHarm(events)
    requires a != b && Holds(Execute(events), a) && Holds(Execute(events), b)
    ensures var w := Execute(events);
            if Older(w, a, b) then Expired(w, a) else Older(w, b, a) && Expired(w, b)
  {
    AlwaysValid(events);
    ExclusionOfValid(Execute(events), a, b);
  }

  /**
   Uninterrupted, a run acquires the lock if and only if it is absent, or it is expired and the read of it
   comes with an entity tag: an abandoned lock that is read without one is never taken over.
   */
  lemma UninterruptedAcquire(w: World, id: RunId, tag: bool, others: (bool, bool, bool))
    requires id in w.runs && w.runs[id].phase.Putting?
    ensures var read := Operation(Operation(w, id, others.0), id, tag);
            var done := Operation(Operation(read, id, others.1), id, others.2);
            Holds(done, id) <==> w.lock.None? || (w.lock.value.expiresAt <= w.runs[id].now && tag)
  {
  }

  /** Without a harmful delete before it, a step other than a blind delete only removes its own run's lock. */
  lemma OnlyOwnLockRemoved(events: seq<Event>, e: Event)
    requires NoHarm(events)
    requires Execute(events).lock.Some? && Next(Execute(events), e).lock != Execute(events).lock
    ensures e.Operate? && e.id in Execute(events).runs
    ensures Next(Execute(events), e).lock.None? ==>
              Execute(events).lock.value.runId == e.id || BlindDelete(Execute(events), e)
    ensures Next(Execute(events), e).lock.Some? ==> Execute(events).lock.value.expiresAt <= Execute(events).clock
  {
    AlwaysValid(events);
    LockChange(Execute(events), e);
  }

  lemma LockChange(w: World, e: Event)
    requires Valid(w) && w.lock.Some? && Next(w, e).lock != w.lock
    ensures e.Operate? && e.id in w.runs
    ensures if Next(w, e).lock.None? then w.lock.value.runId == e.id || BlindDelete(w, e)
            else w.lock.value.expiresAt <= w.clock
  {
    assert e.Operate? && e.id in w.runs ==> RunValid(w, e.id);
  }

  // ---------- Blind deletes ----------

  /** The invariant survives a blind delete if and only if it is not harmful. */
  lemma BlindDeleteExact(w: World, e: Event)
    requires Valid(w) && BlindDelete(w, e)
    ensures Valid(Next(w, e)) <==> !Harmful(w, e)
  {
    if Harmful(w, e) {
      var owner := w.lock.value.runId;
      assert owner in w.runs && !RunValid(Next(w, e), owner);
    } else {
      StepValid(w, e);
    }
  }

  /**
   Every harmful delete breaks exclusion: any run started next holds the lock as well, and neither lease has
   expired.
   */
  lemma HarmfulDeleteBreaksExclusion(events: seq<Event>, e: Event, id: RunId, ttl: nat)
    requires NoHarm(events) && Harmful(Execute(events), e) && id !in Execute(events).runs && ttl >= 1
    ensures var w, owner := Execute(events + [e, Start(id, ttl), Operate(id, true)]), Execute(events).lock.value.runId;
            owner != id && Holds(w, owner) && Holds(w, id) && !Expired(w, owner) && !Expired(w, id)
  {
    AlwaysValid(events);
    ThreeMore(events, e, Start(id, ttl), Operate(id, true));
    NextTakes(Execute(events), e, id, ttl);
  }

  lemma ThreeMore(events: seq<Event>, a: Event, b: Event, c: Event)
    ensures Execute(events + [a, b, c]) == Next(Next(Next(Execute(events), a), b), c)
  {
    var one := Push(events, a);
    var two := Push(one, b);
    var three := Push(two, c);
    assert three == events + [a, b, c];
  }

  lemma NextTakes(w: World, e: Event, id: RunId, ttl: nat)
    requires Valid(w) && Harmful(w, e) && id !in w.runs && ttl >= 1
    ensures var w', owner := Next(Next(Next(w, e), Start(id, ttl)), Operate(id, true)), w.lock.value.runId;
            owner != id && Holds(w', owner) && Holds(w', id) && !Expired(w', owner) && !Expired(w', id)
  {
    assert RunValid(w, e.id) && RunValid(w, w.lock.value.runId);
  }

  lemma Push(events: seq<Event>, e: Event) returns (longer: seq<Event>)
    ensures longer == events + [e] && Execute(longer) == Next(Execute(events), e)
  {
    longer := events + [e];
    assert longer[..|events|] == events;
  }

  /** Run 1 has read its own lock without an entity tag and stalls, its lease expires, and run 2 takes the lock over. */
  lemma StalledRelease() returns (events: seq<Event>)
    ensures Execute(events) == World(1, Some(Lock(2, 10)), map[1 := Run(0, 1, DeletingBlind), 2 := Run(1, 9, Held)],
            [1, 2])
  {
    events := FirstHolds();
    events := Push(events, Finish(1));
    events := Push(events, Operate(1, false));
    events := Push(events, Tick(1));
    assert Execute(events) == World(1, Some(Lock(1, 1)), map[1 := Run(0, 1, DeletingBlind)], [1]);
    events := TakenOver(events);
  }

  lemma FirstHolds() returns (events: seq<Event>)
    ensures Execute(events) == World(0, Some(Lock(1, 1)), map[1 := Run(0, 1, Held)], [1])
  {
    events := Push([], Start(1, 1));
    events := Push(events, Operate(1, true));
  }

  lemma TakenOver(before: seq<Event>) returns (events: seq<Event>)
    requires Execute(before) == World(1, Some(Lock(1, 1)), map[1 := Run(0, 1, DeletingBlind)], [1])
    ensures Execute(events) == World(1, Some(Lock(2, 10)), map[1 := Run(0, 1, DeletingBlind), 2 := Run(1, 9, Held)],
            [1, 2])
  {
    events := RivalReads(before);
    events := Push(events, Operate(2, true));
    events := Push(events, Operate(2, true));
  }

  lemma RivalReads(before: seq<Event>) returns (events: seq<Event>)
    requires Execute(before) == World(1, Some(Lock(1, 1)), map[1 := Run(0, 1, DeletingBlind)], [1])
    ensures Execute(events)
            == World(1, Some(Lock(1, 1)),
                     map[1 := Run(0, 1, DeletingBlind), 2 := Run(1, 9, Replacing(Lock(1, 1)))], [1])
  {
    events := Push(before, Start(2, 9));
    events := Push(events, Operate(2, true));
    events := Push(events, Operate(2, true));
  }

  /**
   A harmful delete does occur: run 1 deletes the lock of run 2 blindly and run 3 acquires it while the lease
   of run 2 is still unexpired.
   */
  lemma BlindReleaseBreaksExclusion() returns (events: seq<Event>)
    ensures !NoHarm(events)
    ensures var w := Execute(events); Holds(w, 2) && Holds(w, 3) && !Expired(w, 2) && !Expired(w, 3)
  {
    var before := StalledRelease();
    var deleted := Push(before, Operate(1, true));
    events := ThirdTakes(deleted);
    assert events[..|before|] == before && events[|before|] == Operate(1, true);
    assert Harmful(Execute(events[..|before|]), events[|before|]);
  }

  lemma ThirdTakes(before: seq<Event>) returns (events: seq<Event>)
    requires Execute(before) == World(1, None, map[1 := Run(0, 1, Stopped), 2 := Run(1, 9, Held)], [1, 2])
    ensures events == before + [Start(3, 9), Operate(3, true)]
    ensures var w := Execute(events); Holds(w, 2) && Holds(w, 3) && !Expired(w, 2) && !Expired(w, 3)
  {
    events := Push(before, Start(3, 9));
    events := Push(events, Operate(3, true));
  }
}
