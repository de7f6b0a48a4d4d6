/**
 Which runs publish a manifest without missing months (apps/metrics-publisher/src/publisher.ts): an exact
 condition on the run's dates and the previous manifest's, for every combination of date overrides.
 */
module PublisherGaps {
  import opened Options
  import opened Calendar
  import opened DatedRows
  import opened Publisher

  // ---------- The condition ----------

  /** The dates between which the new manifest claims to be complete are in order. */
  predicate DatesOrdered(publicStart: nat, newest: nat, range: Range, before: Option<Manifest>) {
    publicStart <= newest &&
    match before
    case None => publicStart <= range.end && range.start <= newest
    case Some(m) => publicStart <= Later(m.latest, range.end) && (m.earliest <= newest || range.start <= newest)
  }

  /**
   No month is missing before the range. A deployment without shards must start in or before the first
   month to be published; one with shards may also continue them, or leave a gap after all complete data.
   */
  predicate StartsInTime(known: bool, publicStart: nat, newest: nat, range: Range, before: Option<Manifest>) {
    before.Some? ==>
      var first := MonthOf(range.start);
      || first <= MonthOf(publicStart)
      || (if known then first <= MonthOf(before.value.latest) + 1 || MonthOf(newest) <= MonthOf(before.value.latest)
          else first <= MonthOf(before.value.earliest))
  }

  /** No month is missing after the range. */
  predicate EndsInTime(known: bool, publicStart: nat, newest: nat, range: Range, before: Option<Manifest>) {
    before.Some? ==>
      var last := MonthOf(range.end);
      || MonthOf(newest) <= last
      || (if known then MonthOf(before.value.earliest) <= last + 1
          || MonthOf(before.value.earliest) <= MonthOf(publicStart)
          else MonthOf(before.value.latest) <= last)
  }

  /** The condition under which a run leaves no gap, told from its input and the manifest before it. */
  predicate LeavesNoGap(i: Input, before: Option<Manifest>)
    requires i.latest.Some?
  {
    var range, known := PublishRange(i, i.latest.value, before), HasPublished(before, i.deployment);
    && DatesOrdered(i.publicStart, i.latest.value, range, before)
    && StartsInTime(known, i.publicStart, i.latest.value, range, before)
    && EndsInTime(known, i.publicStart, i.latest.value, range, before)
  }

  // ---------- Months ----------

  lemma MonthOfLater(a: nat, b: nat)
    ensures MonthOf(Later(a, b)) == Later(MonthOf(a), MonthOf(b))
            && MonthOf(Earlier(a, b)) == Earlier(MonthOf(a), MonthOf(b))
  {
    if a <= b {
      MonthOfMono(a, b);
    } else {
      MonthOfMono(b, a);
    }
  }

  predicate Within(month: nat, first: nat, last: nat) {
    first <= month <= last
  }

  /** The months `s..e` cover `x..y` if and only if they reach as far on both sides. */
  lemma OneSpanCovers(s: nat, e: nat, x: nat, y: nat)
    requires x <= y
    ensures (forall month: nat :: Within(month, x, y) ==> Within(month, s, e)) <==> s <= x && y <= e
  {
    assert Within(x, x, y) && Within(y, x, y);
    forall month: nat | s <= x && y <= e && Within(month, x, y) ensures Within(month, s, e) {
    }
  }

  /**
   The months `s..e` and `a..z` cover months between their outer ends if and only if none of these is in a
   gap between them.
   */
  lemma TwoSpansCover(s: nat, e: nat, a: nat, z: nat, x: nat, y: nat)
    requires s <= e && a <= z && Earlier(a, s) <= x <= y <= Later(z, e)
    ensures (forall month: nat :: Within(month, x, y) ==> Within(month, s, e) || Within(month, a, z))
            <==> (s <= z + 1 || y <= z || s <= x) && (a <= e + 1 || y <= e || a <= x)
  {
    if !(s <= z + 1 || y <= z || s <= x) {
      assert Within(Later(x, z + 1), x, y);
    }
    if !(a <= e + 1 || y <= e || a <= x) {
      assert Within(Later(x, e + 1), x, y);
    }
    forall month: nat | (s <= z + 1 || y <= z || s <= x) && (a <= e + 1 || y <= e || a <= x) && Within(month, x, y)
      ensures Within(month, s, e) || Within(month, a, z)
    {
    }
  }

  // ---------- The new manifest ----------

  /** A manifest without gaps or strays lists a shard of its deployment exactly for each of its months. */
  lemma ListedBefore(m: Manifest, deployment: string, kind: Kind, month: nat)
    requires ListsEveryMonth(m) && ListsOnlyKept(m)
    ensures Shard(deployment, kind, month) in m.artifacts
            <==> deployment == m.deployment && Within(month, MonthOf(m.earliest), MonthOf(m.latest))
    ensures HasPublished(Some(m), deployment) <==> deployment == m.deployment
  {
    MonthOfMono(m.earliest, m.latest);
    assert Shard(m.deployment, Metrics, MonthOf(m.earliest)) in m.artifacts;
  }

  /** The new manifest lists a shard of one of its months exactly if the run writes it or the same deployment had it. */
  lemma Listed(b: Bucket, i: Input, kind: Kind, month: nat)
    requires Good(b) && Published(b, i).Some?
    ensures var m, range := NewManifest(b, i, Published(b, i).value), Published(b, i).value;
            Within(month, MonthOf(m.earliest), MonthOf(m.latest)) ==>
              (Shard(i.deployment, kind, month) in m.artifacts
               <==> Within(month, MonthOf(range.start), MonthOf(range.end))
                    || (HasPublished(b.manifest, i.deployment)
                        && Within(month, MonthOf(b.manifest.value.earliest), MonthOf(b.manifest.value.latest))))
  {
    WrittenKey(i, Published(b, i).value, Shard(i.deployment, kind, month));
    if b.manifest.Some? {
      ListedBefore(b.manifest.value, i.deployment, kind, month);
    }
  }

  /** The months that must be listed, and those that are. */
  ghost predicate MonthsCovered(b: Bucket, i: Input)
    requires Published(b, i).Some?
  {
    var m, range := NewManifest(b, i, Published(b, i).value), Published(b, i).value;
    forall month: nat :: Within(month, MonthOf(m.earliest), MonthOf(m.latest)) ==>
      Within(month, MonthOf(range.start), MonthOf(range.end))
      || (HasPublished(b.manifest, i.deployment)
          && Within(month, MonthOf(b.manifest.value.earliest), MonthOf(b.manifest.value.latest)))
  }

  lemma ListsEveryCoveredMonth(b: Bucket, i: Input)
    requires Good(b) && Published(b, i).Some?
    ensures var m := NewManifest(b, i, Published(b, i).value);
            ListsEveryMonth(m) <==> m.earliest <= m.latest && MonthsCovered(b, i)
  {
    var m := NewManifest(b, i, Published(b, i).value);
    forall month: nat, kind ensures
      Within(month, MonthOf(m.earliest), MonthOf(m.latest)) ==>
        (Shard(m.deployment, kind, month) in m.artifacts
         <==> Within(month, MonthOf(Published(b, i).value.start), MonthOf(Published(b, i).value.end))
              || (HasPublished(b.manifest, i.deployment)
                  && Within(month, MonthOf(b.manifest.value.earliest), MonthOf(b.manifest.value.latest))))
    {
      Listed(b, i, kind, month);
    }
    if ListsEveryMonth(m) {
      forall month: nat | Within(month, MonthOf(m.earliest), MonthOf(m.latest))
        ensures Within(month, MonthOf(Published(b, i).value.start), MonthOf(Published(b, i).value.end))
                || (HasPublished(b.manifest, i.deployment)
                    && Within(month, MonthOf(b.manifest.value.earliest), MonthOf(b.manifest.value.latest)))
      {
        assert Shard(m.deployment, Metrics, month) in m.artifacts;
      }
    }
  }

  /** The first and last month of the new manifest. */
  lemma NewMonths(b: Bucket, i: Input)
    requires Good(b) && Published(b, i).Some?
    ensures var range, m := Published(b, i).value, NewManifest(b, i, Published(b, i).value);
            var s, e := MonthOf(range.start), MonthOf(range.end);
            var a := if b.manifest.Some? then MonthOf(b.manifest.value.earliest) else s;
            var z := if b.manifest.Some? then MonthOf(b.manifest.value.latest) else e;
            && s <= e && (b.manifest.Some? ==> a <= z)
            && MonthOf(m.earliest) == Later(MonthOf(i.publicStart), Earlier(a, s))
            && MonthOf(m.latest) == Earlier(Later(z, e), MonthOf(i.latest.value))
  {
    var range := Published(b, i).value;
    var earliest := if b.manifest.Some? then b.manifest.value.earliest else range.start;
    var latest := if b.manifest.Some? then b.manifest.value.latest else range.end;
    MonthOfMono(range.start, range.end);
    if b.manifest.Some? {
      MonthOfMono(earliest, latest);
    }
    MonthOfLater(earliest, range.start);
    MonthOfLater(i.publicStart, Earlier(earliest, range.start));
    MonthOfLater(latest, range.end);
    MonthOfLater(Later(latest, range.end), i.latest.value);
  }

  lemma CoveredExactly(b: Bucket, i: Input)
    requires Good(b) && Published(b, i).Some?
    requires var m := NewManifest(b, i, Published(b, i).value); m.earliest <= m.latest
    ensures var range, known := Published(b, i).value, HasPublished(b.manifest, i.deployment);
            MonthsCovered(b, i) <==> StartsInTime(known, i.publicStart, i.latest.value, range, b.manifest)
                                     && EndsInTime(known, i.publicStart, i.latest.value, range, b.manifest)
  {
    var range, m := Published(b, i).value, NewManifest(b, i, Published(b, i).value);
    var s, e, x, y := MonthOf(range.start), MonthOf(range.end), MonthOf(m.earliest), MonthOf(m.latest);
    MonthOfMono(m.earliest, m.latest);
    NewMonths(b, i);
    if HasPublished(b.manifest, i.deployment) {
      TwoSpansCover(s, e, MonthOf(b.manifest.value.earliest), MonthOf(b.manifest.value.latest), x, y);
    } else {
      OneSpanCovers(s, e, x, y);
    }
  }

  /**
   Whatever dates are overridden and whichever deployment publishes, the new manifest has no gap if and
   only if the run's dates, the public start, the newest complete date and the previous manifest's dates
   meet the condition.
   */
  lemma NoGapExactly(b: Bucket, i: Input)
    requires Good(b) && Published(b, i).Some?
    ensures ListsEveryMonth(NewManifest(b, i, Published(b, i).value)) <==> LeavesNoGap(i, b.manifest)
  {
    var range, m := Published(b, i).value, NewManifest(b, i, Published(b, i).value);
    assert m.earliest <= m.latest <==> DatesOrdered(i.publicStart, i.latest.value, range, b.manifest);
    ListsEveryCoveredMonth(b, i);
    if m.earliest <= m.latest {
      CoveredExactly(b, i);
    }
  }

  /** A run without overrides that publishes at all always meets the condition. */
  lemma DefaultLeavesNoGap(b: Bucket, i: Input)
    requires Good(b) && Published(b, i).Some? && DefaultDates(i)
    ensures LeavesNoGap(i, b.manifest)
  {
    var range := PublishRange(i, i.latest.value, b.manifest);
    DefaultDatesInTime(HasPublished(b.manifest, i.deployment), i.publicStart, i.latest.value, range, b.manifest);
    if HasPublished(b.manifest, i.deployment) {
      var refresh := MonthStart(PreviousMonth(MonthOf(i.latest.value)));
      StartsSoon(i.publicStart, refresh, b.manifest.value.latest);
    }
  }

  /** A range that ends at the newest complete day, or even starts at the public start, meets the other parts. */
  lemma DefaultDatesInTime(known: bool, publicStart: nat, newest: nat, range: Range, before: Option<Manifest>)
    requires publicStart <= range.start <= range.end == newest
    ensures DatesOrdered(publicStart, newest, range, before) && EndsInTime(known, publicStart, newest, range, before)
    ensures range.start == publicStart ==> StartsInTime(known, publicStart, newest, range, before)
  {
  }

  /** A range that refreshes the month before, or starts right after what is published, leaves no gap before it. */
  lemma StartsSoon(publicStart: nat, refresh: nat, latest: nat)
    ensures var start := Later(publicStart, Earlier(refresh, MonthStart(MonthOf(latest + 1))));
            MonthOf(start) <= MonthOf(publicStart) || MonthOf(start) <= MonthOf(latest) + 1
  {
    var next := MonthOf(latest + 1);
    MonthUnique(MonthStart(next), next);
    MonthOfLater(publicStart, Earlier(refresh, MonthStart(next)));
    MonthOfLater(refresh, MonthStart(next));
    MonthAfter(latest);
  }

  lemma MonthAfter(day: nat)
    ensures MonthOf(day + 1) <= MonthOf(day) + 1
  {
    if MonthOf(day) + 1 < MonthOf(day + 1) {
      MonthStartMono(MonthOf(day) + 1, MonthOf(day + 1));
    }
  }
}
