/**
 * Properties of the greedy scheduler, proved about its specification `Run`.
 *
 * `At(env, order, k)` is the loop's state before the `k`-th id of the order.
 * The step lemmas say what one iteration does; the run lemmas combine them
 * into what the whole walk guarantees: pinned tasks untouched, every placed
 * start after its dependencies, its channel's earlier tasks and its channel's
 * holds, change records exactly for the dates that moved, and errors for the
 * tasks left where they were.
 */
module ScheduleProperties {
  import opened Types
  import opened DateUtils
  import opened CalendarProperties
  import opened Scheduler
  import Dag

  // ---------------------------------------------------------------------------
  // Set-up loops
  // ---------------------------------------------------------------------------

  /** The seeded watermark of a channel is the latest end of a regulatory hold on it. */
  lemma {:induction false} SeedHoldsFacts(tasks: seq<SettlementTask>)
    ensures forall i :: 0 <= i < |tasks| && tasks[i].isRegulatoryHold ==>
      tasks[i].settlementChannelId in SeedHolds(tasks) && tasks[i].endDate <= SeedHolds(tasks)[tasks[i].settlementChannelId]
    ensures forall c :: c in SeedHolds(tasks) ==>
      (exists i :: 0 <= i < |tasks| && tasks[i].isRegulatoryHold &&
         tasks[i].settlementChannelId == c && tasks[i].endDate == SeedHolds(tasks)[c])
  {
    if tasks != [] {
      var n := |tasks| - 1;
      var init := tasks[..n];
      var t := tasks[n];
      SeedHoldsFacts(init);
      assert forall i :: 0 <= i < n ==> init[i] == tasks[i];
      var m0 := SeedHolds(init);
      var m := SeedHolds(tasks);
      forall c | c in m
        ensures (exists i :: 0 <= i < |tasks| && tasks[i].isRegulatoryHold &&
                   tasks[i].settlementChannelId == c && tasks[i].endDate == m[c])
      {
        if t.isRegulatoryHold && c == t.settlementChannelId && (c !in m0 || t.endDate > m0[c]) {
          assert tasks[n].endDate == m[c];
        } else {
          var i :| 0 <= i < n && init[i].isRegulatoryHold && init[i].settlementChannelId == c && init[i].endDate == m0[c];
          assert tasks[i] == init[i];
        }
      }
    }
  }

  /** Each known channel's blackouts are its own windows, parsed; a later channel with the same id wins. */
  lemma {:induction false} ChannelBlackoutsFacts(channels: seq<SettlementChannel>)
    ensures ChannelBlackouts(channels).Keys == ChannelMap(channels).Keys
    ensures forall c :: c in ChannelBlackouts(channels) ==>
      ChannelBlackouts(channels)[c] == ParseBlackoutWindows(ChannelMap(channels)[c].blackoutWindows)
  {
    if channels != [] {
      ChannelBlackoutsFacts(channels[..|channels| - 1]);
    }
  }

  /** The dependency loop yields the latest of the original start and the recorded ends of the listed dependencies. */
  lemma {:induction false} DependencyEndFacts(start: Instant, deps: seq<Id>, endTimes: map<Id, Instant>)
    ensures start <= DependencyEnd(start, deps, endTimes)
    ensures forall d :: d in deps && d in endTimes ==> endTimes[d] <= DependencyEnd(start, deps, endTimes)
    ensures DependencyEnd(start, deps, endTimes) == start ||
      exists d :: d in deps && d in endTimes && endTimes[d] == DependencyEnd(start, deps, endTimes)
  {
    if deps != [] {
      var init := deps[..|deps| - 1];
      DependencyEndFacts(start, init, endTimes);
      assert forall x :: x in deps <==> x in init || x == deps[|deps| - 1];
    }
  }

  // ---------------------------------------------------------------------------
  // Reasons and change records
  // ---------------------------------------------------------------------------

  /** The dependency clauses name exactly the dependencies that end after the original start. */
  lemma {:induction false} DepReasonsFacts(tasks: seq<SettlementTask>, deps: seq<Id>, origStart: Instant, endTimes: map<Id, Instant>)
    ensures forall k :: 0 <= k < |DepReasons(tasks, deps, origStart, endTimes)| ==>
      DepReasons(tasks, deps, origStart, endTimes)[k].DependencyLater?
    ensures forall ref :: DependencyLater(ref) in DepReasons(tasks, deps, origStart, endTimes) <==>
      exists d :: d in deps && d in endTimes && endTimes[d] > origStart && DepRef(tasks, d) == ref
  {
    if deps != [] {
      var init := deps[..|deps| - 1];
      DepReasonsFacts(tasks, init, origStart, endTimes);
      assert forall x :: x in deps <==> x in init || x == deps[|deps| - 1];
    }
  }

  /**
   * A reason is never empty; it has a dependency clause per late dependency, the
   * channel clause iff the watermark is after the original start, the hours
   * clause iff snapping moved the start, and is "cascading" alone otherwise.
   */
  lemma ReasonsFacts(tasks: seq<SettlementTask>, t: SettlementTask, earliest: Instant, channelAvail: Option<Instant>,
                     start: Instant, endTimes: map<Id, Instant>)
    ensures Reasons(tasks, t, earliest, channelAvail, start, endTimes) != []
    ensures forall ref :: DependencyLater(ref) in Reasons(tasks, t, earliest, channelAvail, start, endTimes) <==>
      exists d :: d in t.dependsOnTaskIds && d in endTimes && endTimes[d] > t.startDate && DepRef(tasks, d) == ref
    ensures ChannelOccupied in Reasons(tasks, t, earliest, channelAvail, start, endTimes) <==>
      channelAvail.Some? && channelAvail.value > t.startDate
    ensures SnappedToHours in Reasons(tasks, t, earliest, channelAvail, start, endTimes) <==> start > earliest
    ensures Reasons(tasks, t, earliest, channelAvail, start, endTimes) == [Cascading] <==>
      (forall d :: d in t.dependsOnTaskIds && d in endTimes ==> endTimes[d] <= t.startDate) &&
      !(channelAvail.Some? && channelAvail.value > t.startDate) && start <= earliest
    ensures Cascading in Reasons(tasks, t, earliest, channelAvail, start, endTimes) <==>
      Reasons(tasks, t, earliest, channelAvail, start, endTimes) == [Cascading]
  {
    var deps := DepReasons(tasks, t.dependsOnTaskIds, t.startDate, endTimes);
    DepReasonsFacts(tasks, t.dependsOnTaskIds, t.startDate, endTimes);
    assert Cascading !in deps;
    if deps != [] {
      assert DependencyLater(deps[0].depRef) in deps;
    }
    forall d | d in t.dependsOnTaskIds && d in endTimes && endTimes[d] > t.startDate
      ensures DependencyLater(DepRef(tasks, d)) in deps
    {
    }
  }

  /**
   * The change records of a placed task: every record is about that task, has
   * a non-empty reason and a delta of new minus old; there is a start record
   * iff the start moved and an end record iff the end moved.
   */
  lemma ChangesFacts(tasks: seq<SettlementTask>, id: Id, t: SettlementTask, earliest: Instant,
                     channelAvail: Option<Instant>, s: Instant, e: Instant, endTimes: map<Id, Instant>)
    ensures forall r :: r in Changes(tasks, id, t, earliest, channelAvail, s, e, endTimes) ==>
      r.taskId == id && r.taskReference == t.taskReference && r.reason != [] &&
      r.deltaMinutes == r.newValue - r.oldValue &&
      (r.field == StartField ==> r.oldValue == t.startDate && r.newValue == s) &&
      (r.field == EndField ==> r.oldValue == t.endDate && r.newValue == e)
    ensures (exists r :: r in Changes(tasks, id, t, earliest, channelAvail, s, e, endTimes) && r.field == StartField) <==>
      s != t.startDate
    ensures (exists r :: r in Changes(tasks, id, t, earliest, channelAvail, s, e, endTimes) && r.field == EndField) <==>
      e != t.endDate
  {
    ReasonsFacts(tasks, t, earliest, channelAvail, s, endTimes);
    var cs := Changes(tasks, id, t, earliest, channelAvail, s, e, endTimes);
    if s != t.startDate {
      assert cs[0] in cs && cs[0].field == StartField;
    }
    if e != t.endDate {
      assert cs[|cs| - 1] in cs && cs[|cs| - 1].field == EndField;
    }
  }

  // ---------------------------------------------------------------------------
  // One step
  // ---------------------------------------------------------------------------

  /**
   * A placed task starts at an available instant at or after its original
   * start, the recorded end of each listed dependency and its channel's
   * watermark; it ends where the duration walk from that start ends, not before it.
   */
  lemma PlacedBounds(env: Env, t: SettlementTask, st: State, earliest: Instant, s: Instant, e: Instant)
    requires FateOf(env, t, st) == Placed(earliest, s, e)
    ensures t.settlementChannelId in env.channelMap && !t.isRegulatoryHold
    ensures earliest == Earliest(t, st)
    ensures t.startDate <= s
    ensures forall d :: d in t.dependsOnTaskIds && d in st.endTimes ==> st.endTimes[d] <= s
    ensures t.settlementChannelId in st.nextAvailable ==> st.nextAvailable[t.settlementChannelId] <= s
    ensures var hours := env.channelMap[t.settlementChannelId].operatingHours;
      var bs := BlackoutsFor(env, t.settlementChannelId);
      NextSlotFrom(earliest, hours, bs, MaxDays) == Some(s) && IsAvailable(s, hours, bs) &&
      EndDate(s, EffectiveDuration(t), hours, bs, MaxDays) == Some(e)
    ensures earliest <= s <= e
  {
    var hours := env.channelMap[t.settlementChannelId].operatingHours;
    var bs := BlackoutsFor(env, t.settlementChannelId);
    DependencyEndFacts(t.startDate, t.dependsOnTaskIds, st.endTimes);
    NextSlotSound(earliest, hours, bs, MaxDays, s);
    EndDateBounds(s, EffectiveDuration(t), hours, bs, MaxDays, e);
  }

  /** The state after task `id`'s step, spelled out by its fate. */
  lemma StepEffect(env: Env, st: State, id: Id)
    requires id in env.taskMap
    ensures var t := env.taskMap[id];
      var f := FateOf(env, t, st);
      var next := Step(env, st, id);
      next.updated == (if f.Placed? then st.updated[id := t.(startDate := f.start, endDate := f.end)] else st.updated) &&
      next.endTimes == st.endTimes[id := FallbackEnd(t, f)] &&
      next.changes == st.changes + Records(env, st, id, f) &&
      next.errors == st.errors + ErrorsOf(t, f)
  {
    var t := env.taskMap[id];
    match FateOf(env, t, st)
    case OnUnknownChannel =>
    case Pinned(_, _) =>
    case NoSlotFound(_) =>
    case NoEndFound(_, _) =>
    case Placed(_, _, _) =>
  }

  /** The end recorded for a task's dependents: its new end, its own end, or where the walk stopped. */
  function FallbackEnd(t: SettlementTask, f: Fate): Instant
  {
    match f
    case OnUnknownChannel => t.endDate
    case Pinned(_, _) => t.endDate
    case NoSlotFound(earliest) => earliest
    case NoEndFound(_, s) => s
    case Placed(_, _, e) => e
  }

  /** The change records a step emits. */
  function Records(env: Env, st: State, id: Id, f: Fate): seq<ScheduleChange>
    requires id in env.taskMap
  {
    var t := env.taskMap[id];
    if f.Placed? then Changes(env.tasks, id, t, f.earliest, Lookup(st.nextAvailable, t.settlementChannelId), f.start, f.end, st.endTimes)
    else []
  }

  /** The errors a step emits. */
  function ErrorsOf(t: SettlementTask, f: Fate): seq<ScheduleError>
  {
    match f
    case OnUnknownChannel => [UnknownChannel(t.taskReference, t.settlementChannelId)]
    case Pinned(name, overlaps) => if overlaps then [HoldInBlackout(t.taskReference, name)] else []
    case NoSlotFound(_) => [NoSlot(t.taskReference)]
    case NoEndFound(_, _) => [NoEnd(t.taskReference)]
    case Placed(_, _, _) => []
  }

  /** A step never lowers a channel's watermark, and a placed task moves its channel's watermark to its end. */
  lemma StepWatermark(env: Env, st: State, id: Id)
    requires id in env.taskMap
    ensures forall c :: c in st.nextAvailable ==>
      c in Step(env, st, id).nextAvailable && st.nextAvailable[c] <= Step(env, st, id).nextAvailable[c]
    ensures FateOf(env, env.taskMap[id], st).Placed? ==>
      Step(env, st, id).nextAvailable[env.taskMap[id].settlementChannelId] == FateOf(env, env.taskMap[id], st).end
  {
    var t := env.taskMap[id];
    match FateOf(env, t, st)
    case Placed(earliest, s, e) =>
      PlacedBounds(env, t, st, earliest, s, e);
    case _ =>
  }

  // ---------------------------------------------------------------------------
  // The walk
  // ---------------------------------------------------------------------------

  /** The state before the `k`-th id of the order. */
  function At(env: Env, order: seq<Id>, k: nat): State
    requires Known(env, order) && k <= |order|
  {
    Run(env, order[..k])
  }

  /** The fate of the `k`-th id of the order. */
  function FateAt(env: Env, order: seq<Id>, k: nat): Fate
    requires Known(env, order) && k < |order|
  {
    FateOf(env, env.taskMap[order[k]], At(env, order, k))
  }

  /** The state after the `k`-th id is the step of that id from the state before it. */
  lemma AtNext(env: Env, order: seq<Id>, k: nat)
    requires Known(env, order) && k < |order|
    ensures At(env, order, k + 1) == Step(env, At(env, order, k), order[k])
  {
    assert order[..k + 1][..k] == order[..k];
  }

  /** The walk over a prefix of the order, seen from a longer prefix. */
  lemma AtPrefix(env: Env, order: seq<Id>, m: nat, k: nat)
    requires Known(env, order) && k <= m <= |order|
    ensures Known(env, order[..m]) && At(env, order[..m], k) == At(env, order, k)
  {
    assert order[..m][..k] == order[..k];
  }

  /** Watermarks never decrease along the walk. */
  lemma {:induction false} WatermarkMonotone(env: Env, order: seq<Id>, k: nat)
    requires Known(env, order) && k <= |order|
    ensures forall c :: c in At(env, order, k).nextAvailable ==>
      c in Run(env, order).nextAvailable && At(env, order, k).nextAvailable[c] <= Run(env, order).nextAvailable[c]
    decreases |order|
  {
    if k == |order| {
      assert order[..k] == order;
    } else {
      var init := order[..|order| - 1];
      AtPrefix(env, order, |order| - 1, k);
      WatermarkMonotone(env, init, k);
      StepWatermark(env, Run(env, init), order[|order| - 1]);
    }
  }

  /** The change records and the errors only grow along the walk. */
  lemma {:induction false} OutputsGrow(env: Env, order: seq<Id>, k: nat)
    requires Known(env, order) && k <= |order|
    ensures At(env, order, k).changes <= Run(env, order).changes
    ensures At(env, order, k).errors <= Run(env, order).errors
    decreases |order|
  {
    if k == |order| {
      assert order[..k] == order;
    } else {
      var init := order[..|order| - 1];
      AtPrefix(env, order, |order| - 1, k);
      OutputsGrow(env, init, k);
      StepEffect(env, Run(env, init), order[|order| - 1]);
    }
  }

  /** A task whose id does not occur again keeps its copy and its recorded end. */
  lemma {:induction false} Frame(env: Env, order: seq<Id>, k: nat, id: Id)
    requires Known(env, order) && k <= |order|
    requires id !in order[k..]
    ensures id in At(env, order, k).endTimes <==> id in Run(env, order).endTimes
    ensures id in At(env, order, k).endTimes ==> At(env, order, k).endTimes[id] == Run(env, order).endTimes[id]
    ensures id in At(env, order, k).updated <==> id in Run(env, order).updated
    ensures id in At(env, order, k).updated ==> At(env, order, k).updated[id] == Run(env, order).updated[id]
    decreases |order|
  {
    if k == |order| {
      assert order[..k] == order;
    } else {
      var init := order[..|order| - 1];
      AtPrefix(env, order, |order| - 1, k);
      assert id !in init[k..] by {
        assert forall x :: x in init[k..] ==> x in order[k..];
      }
      Frame(env, init, k, id);
      assert order[|order| - 1] in order[k..];
      StepEffect(env, Run(env, init), order[|order| - 1]);
    }
  }

  // ---------------------------------------------------------------------------
  // What the walk guarantees
  // ---------------------------------------------------------------------------

  /** Regulatory holds keep their copies unchanged, and no change record names one. */
  lemma {:induction false} PinnedUntouched(env: Env, order: seq<Id>)
    requires Known(env, order)
    ensures forall id :: id in env.taskMap && env.taskMap[id].isRegulatoryHold ==>
      id in Run(env, order).updated && Run(env, order).updated[id] == env.taskMap[id]
    ensures forall i :: 0 <= i < |Run(env, order).changes| ==>
      Run(env, order).changes[i].taskId in env.taskMap &&
      !env.taskMap[Run(env, order).changes[i].taskId].isRegulatoryHold
  {
    if order != [] {
      var init := order[..|order| - 1];
      var id := order[|order| - 1];
      var st := Run(env, init);
      var t := env.taskMap[id];
      var f := FateOf(env, t, st);
      PinnedUntouched(env, init);
      StepEffect(env, st, id);
      if f.Placed? {
        PlacedBounds(env, t, st, f.earliest, f.start, f.end);
        var avail := Lookup(st.nextAvailable, t.settlementChannelId);
        ChangesFacts(env.tasks, id, t, f.earliest, avail, f.start, f.end, st.endTimes);
        var next := Run(env, order);
        forall i | |st.changes| <= i < |next.changes|
          ensures next.changes[i].taskId == id
        {
          assert next.changes[i] in Records(env, st, id, f);
        }
      }
    }
  }

  /** Every regulatory hold's end is at or below its channel's watermark, all along the walk. */
  lemma HoldsBelowWatermark(env: Env, order: seq<Id>, k: nat)
    requires Known(env, order) && k <= |order|
    ensures forall i :: 0 <= i < |env.tasks| && env.tasks[i].isRegulatoryHold ==>
      env.tasks[i].settlementChannelId in At(env, order, k).nextAvailable &&
      env.tasks[i].endDate <= At(env, order, k).nextAvailable[env.tasks[i].settlementChannelId]
  {
    SeedHoldsFacts(env.tasks);
    AtPrefix(env, order, k, 0);
    WatermarkMonotone(env, order[..k], 0);
    assert order[..k][..0] == [];
  }

  /** A placed task starts at or after the end of every regulatory hold on its channel. */
  lemma PlacedAfterHolds(env: Env, order: seq<Id>, k: nat, i: nat)
    requires Known(env, order) && k < |order| && i < |env.tasks|
    requires FateAt(env, order, k).Placed?
    requires env.tasks[i].isRegulatoryHold
    requires env.tasks[i].settlementChannelId == env.taskMap[order[k]].settlementChannelId
    ensures env.tasks[i].endDate <= FateAt(env, order, k).start
  {
    var f := FateAt(env, order, k);
    HoldsBelowWatermark(env, order, k);
    PlacedBounds(env, env.taskMap[order[k]], At(env, order, k), f.earliest, f.start, f.end);
  }

  /** Two placed tasks on one channel do not overlap: the later one starts at or after the earlier one's end. */
  lemma PlacedNoOverlap(env: Env, order: seq<Id>, j: nat, k: nat)
    requires Known(env, order) && j < k < |order|
    requires FateAt(env, order, j).Placed? && FateAt(env, order, k).Placed?
    requires env.taskMap[order[j]].settlementChannelId == env.taskMap[order[k]].settlementChannelId
    ensures FateAt(env, order, j).end <= FateAt(env, order, k).start
  {
    var c := env.taskMap[order[j]].settlementChannelId;
    var fk := FateAt(env, order, k);
    AtNext(env, order, j);
    StepWatermark(env, At(env, order, j), order[j]);
    AtPrefix(env, order, k, j + 1);
    WatermarkMonotone(env, order[..k], j + 1);
    PlacedBounds(env, env.taskMap[order[k]], At(env, order, k), fk.earliest, fk.start, fk.end);
  }

  /** A placed start is its own next slot, however the channel's slots overlap. */
  lemma PlacedAtSlot(env: Env, order: seq<Id>, k: nat)
    requires Known(env, order) && k < |order|
    requires FateAt(env, order, k).Placed?
    ensures var t := env.taskMap[order[k]];
      var f := FateAt(env, order, k);
      NextSlotFrom(f.start, env.channelMap[t.settlementChannelId].operatingHours, BlackoutsFor(env, t.settlementChannelId), MaxDays)
        == Some(f.start)
  {
    var t := env.taskMap[order[k]];
    var f := FateAt(env, order, k);
    PlacedBounds(env, t, At(env, order, k), f.earliest, f.start, f.end);
    NextSlotIdempotent(f.earliest, env.channelMap[t.settlementChannelId].operatingHours,
      BlackoutsFor(env, t.settlementChannelId), MaxDays, f.start, MaxDays);
  }

  /**
   * With non-overlapping slots a placed start is its own next slot, and the
   * available minutes from it to the placed end are the task's prep plus duration.
   */
  lemma PlacedRoundTrip(env: Env, order: seq<Id>, k: nat)
    requires Known(env, order) && k < |order|
    requires FateAt(env, order, k).Placed?
    requires Regular(env.channelMap[env.taskMap[order[k]].settlementChannelId].operatingHours)
    ensures var t := env.taskMap[order[k]];
      var hours := env.channelMap[t.settlementChannelId].operatingHours;
      var bs := BlackoutsFor(env, t.settlementChannelId);
      var f := FateAt(env, order, k);
      NextSlotFrom(f.start, hours, bs, MaxDays) == Some(f.start) &&
      CountAvailable(f.start, f.end, hours, bs) == Max(EffectiveDuration(t), 0)
  {
    var t := env.taskMap[order[k]];
    var hours := env.channelMap[t.settlementChannelId].operatingHours;
    var bs := BlackoutsFor(env, t.settlementChannelId);
    var f := FateAt(env, order, k);
    PlacedBounds(env, t, At(env, order, k), f.earliest, f.start, f.end);
    PlacedAtSlot(env, order, k);
    RoundTrip(f.start, EffectiveDuration(t), hours, bs, MaxDays, f.end);
  }

  /**
   * With each id once in the order, a task's final copy carries its placed
   * dates, or is the original when it was not placed, and the end recorded for
   * its dependents is its placed end, its own end or where the walk stopped.
   */
  lemma FinalOfTask(env: Env, order: seq<Id>, k: nat)
    requires Known(env, order) && Dag.Distinct(order) && k < |order|
    ensures var t := env.taskMap[order[k]];
      var f := FateAt(env, order, k);
      var fin := Run(env, order);
      order[k] in fin.endTimes && fin.endTimes[order[k]] == FallbackEnd(t, f) &&
      order[k] in fin.updated &&
      fin.updated[order[k]] == (if f.Placed? then t.(startDate := f.start, endDate := f.end) else t)
  {
    var id := order[k];
    AtNext(env, order, k);
    StepEffect(env, At(env, order, k), id);
    assert id !in order[k + 1..];
    Frame(env, order, k + 1, id);
    AtPrefix(env, order, k, 0);
    assert id !in order[..k][0..];
    Frame(env, order[..k], 0, id);
    assert order[..k][..0] == [];
  }

  /** The errors of a task's step are among the final errors. */
  lemma ErrorsReach(env: Env, order: seq<Id>, k: nat)
    requires Known(env, order) && k < |order|
    ensures forall x :: x in ErrorsOf(env.taskMap[order[k]], FateAt(env, order, k)) ==> x in Run(env, order).errors
  {
    var t := env.taskMap[order[k]];
    var f := FateAt(env, order, k);
    AtNext(env, order, k);
    StepEffect(env, At(env, order, k), order[k]);
    OutputsGrow(env, order, k + 1);
    var mid := At(env, order, k + 1).errors;
    var fin := Run(env, order).errors;
    assert mid == At(env, order, k).errors + ErrorsOf(t, f);
    forall x | x in ErrorsOf(t, f) ensures x in fin {
      var i :| 0 <= i < |ErrorsOf(t, f)| && ErrorsOf(t, f)[i] == x;
      assert mid[|At(env, order, k).errors| + i] == x;
      assert fin[|At(env, order, k).errors| + i] == x;
    }
  }

  /**
   * A task that is not placed gets its error: an unknown channel, a hold
   * overlapping a blackout, no slot or no end within the scan.
   */
  lemma ErrorsOfTask(env: Env, order: seq<Id>, k: nat)
    requires Known(env, order) && k < |order|
    ensures var t := env.taskMap[order[k]];
      var f := FateAt(env, order, k);
      var errors := Run(env, order).errors;
      (f.OnUnknownChannel? ==> UnknownChannel(t.taskReference, t.settlementChannelId) in errors) &&
      (f.Pinned? && f.overlapsBlackout ==> HoldInBlackout(t.taskReference, f.channelName) in errors) &&
      (f.NoSlotFound? ==> NoSlot(t.taskReference) in errors) &&
      (f.NoEndFound? ==> NoEnd(t.taskReference) in errors)
  {
    var t := env.taskMap[order[k]];
    var f := FateAt(env, order, k);
    ErrorsReach(env, order, k);
    if f.Pinned? && f.overlapsBlackout {
      assert HoldInBlackout(t.taskReference, f.channelName) in ErrorsOf(t, f);
    }
  }

  /** The change records naming a task. */
  function ChangesFor(cs: seq<ScheduleChange>, id: Id): (r: seq<ScheduleChange>)
    ensures forall c :: c in r <==> c in cs && c.taskId == id
  {
    if cs == [] then []
    else (if cs[0].taskId == id then [cs[0]] else []) + ChangesFor(cs[1..], id)
  }

  lemma {:induction false} ChangesForConcat(a: seq<ScheduleChange>, b: seq<ScheduleChange>, id: Id)
    ensures ChangesFor(a + b, id) == ChangesFor(a, id) + ChangesFor(b, id)
  {
    if a != [] {
      assert (a + b)[1..] == a[1..] + b;
      ChangesForConcat(a[1..], b, id);
    } else {
      assert a + b == b;
    }
  }

  lemma {:induction false} ChangesForAll(cs: seq<ScheduleChange>, id: Id, x: Id)
    requires forall c :: c in cs ==> c.taskId == id
    ensures ChangesFor(cs, x) == if x == id then cs else []
  {
    if cs != [] {
      ChangesForAll(cs[1..], id, x);
    }
  }

  /** The records a step adds are all about its own task. */
  lemma StepRecords(env: Env, order: seq<Id>, x: Id)
    requires Known(env, order) && order != []
    ensures var init := order[..|order| - 1];
      var id := order[|order| - 1];
      ChangesFor(Run(env, order).changes, x) ==
        ChangesFor(Run(env, init).changes, x) +
        (if x == id then Records(env, Run(env, init), id, FateOf(env, env.taskMap[id], Run(env, init))) else [])
  {
    var init := order[..|order| - 1];
    var id := order[|order| - 1];
    var st := Run(env, init);
    var t := env.taskMap[id];
    var f := FateOf(env, t, st);
    StepEffect(env, st, id);
    ChangesForConcat(st.changes, Records(env, st, id, f), x);
    if f.Placed? {
      ChangesFacts(env.tasks, id, t, f.earliest, Lookup(st.nextAvailable, t.settlementChannelId), f.start, f.end, st.endTimes);
    }
    ChangesForAll(Records(env, st, id, f), id, x);
  }

  /**
   * With each id once in the order, the change records naming a task are
   * exactly those of its own step (see `ChangesFacts`); a task outside the
   * order has none.
   */
  lemma {:induction false} ChangesOfTask(env: Env, order: seq<Id>)
    requires Known(env, order) && Dag.Distinct(order)
    ensures forall k :: 0 <= k < |order| ==>
      ChangesFor(Run(env, order).changes, order[k]) == Records(env, At(env, order, k), order[k], FateAt(env, order, k))
    ensures forall x :: x !in order ==> ChangesFor(Run(env, order).changes, x) == []
  {
    if order != [] {
      var n := |order| - 1;
      var init := order[..n];
      assert Dag.Distinct(init);
      ChangesOfTask(env, init);
      forall x | x !in order ensures ChangesFor(Run(env, order).changes, x) == [] {
        StepRecords(env, order, x);
      }
      forall k | 0 <= k < |order|
        ensures ChangesFor(Run(env, order).changes, order[k]) == Records(env, At(env, order, k), order[k], FateAt(env, order, k))
      {
        StepRecords(env, order, order[k]);
        AtPrefix(env, order, n, k);
        if k < n {
          assert init[k] == order[k] && order[k] != order[n];
        } else {
          assert order[n] !in init;
          assert order[..n] == init;
        }
      }
    }
  }

  /** The task index of an environment is the map of its own task list, whose ids are distinct. */
  predicate Indexed(env: Env)
  {
    env.taskMap == TaskMap(env.tasks) && DistinctIds(env.tasks)
  }

  /**
   * On a topological order, every known dependency of a placed task comes
   * before it, and the end recorded for that dependency is at or before the
   * placed start.
   */
  lemma DependencyBeforePlaced(env: Env, order: seq<Id>, j: nat, k: nat)
    requires Known(env, order) && Indexed(env)
    requires Dag.Distinct(order) && Dag.Topological(env.tasks, order)
    requires j < |order| && k < |order|
    requires order[j] in env.taskMap[order[k]].dependsOnTaskIds
    requires FateAt(env, order, k).Placed?
    ensures j < k
    ensures FallbackEnd(env.taskMap[order[j]], FateAt(env, order, j)) <= FateAt(env, order, k).start
  {
    var a := order[j];
    var t := env.taskMap[order[k]];
    DependencyEarlier(env, order, j, k);
    AtNext(env, order, j);
    StepEffect(env, At(env, order, j), a);
    AtPrefix(env, order, k, j + 1);
    assert a !in order[..k][j + 1..];
    Frame(env, order[..k], j + 1, a);
    var fk := FateAt(env, order, k);
    PlacedBounds(env, t, At(env, order, k), fk.earliest, fk.start, fk.end);
  }

  /** On a topological order with each id once, a dependency sits before its dependent. */
  lemma DependencyEarlier(env: Env, order: seq<Id>, j: nat, k: nat)
    requires Known(env, order) && Indexed(env)
    requires Dag.Distinct(order) && Dag.Topological(env.tasks, order)
    requires j < |order| && k < |order|
    requires order[j] in env.taskMap[order[k]].dependsOnTaskIds
    ensures j < k
  {
    var tasks := env.tasks;
    var a := order[j];
    var i :| 0 <= i < |tasks| && tasks[i].id == order[k];
    assert tasks[i] == env.taskMap[order[k]];
    assert a in Dag.Ids(tasks);
    assert Dag.DependsOn(tasks, order[k], a);
    assert a in order[..k];
    var j' :| 0 <= j' < k && order[j'] == a;
    assert j' == j;
  }

  /**
   * In the output, a placed task starts at or after the new end of each
   * dependency that was placed or pinned.
   */
  lemma DependencyInOutput(env: Env, order: seq<Id>, j: nat, k: nat)
    requires Known(env, order) && Indexed(env)
    requires Dag.Distinct(order) && Dag.Topological(env.tasks, order)
    requires j < |order| && k < |order|
    requires order[j] in env.taskMap[order[k]].dependsOnTaskIds
    requires FateAt(env, order, k).Placed?
    requires FateAt(env, order, j).Placed? || FateAt(env, order, j).Pinned?
    ensures order[j] in Run(env, order).updated && order[k] in Run(env, order).updated &&
      Run(env, order).updated[order[j]].endDate <= Run(env, order).updated[order[k]].startDate
  {
    DependencyBeforePlaced(env, order, j, k);
    FinalOfTask(env, order, j);
    FinalOfTask(env, order, k);
  }
}
