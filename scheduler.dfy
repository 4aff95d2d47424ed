/**
 * The greedy earliest-fit scheduler.
 *
 * The tasks are walked in the dependency sorter's order. Two maps travel
 * along: the per-channel "next available" watermark and the per-task final
 * end. Regulatory holds stay where they are. Every other task starts at the
 * first available instant at or after the latest of its original start, the
 * ends of its dependencies and its channel's watermark, and ends where the
 * duration walk of the calendar ends.
 *
 * The specification is the fold `Run` of one `Step` per id of the order; the
 * method `ScheduleTasks` is proved to compute it.
 */
module Scheduler {
  import opened Types
  import opened DateUtils
  import Dag

  // ---------------------------------------------------------------------------
  // Output records
  // ---------------------------------------------------------------------------

  datatype Field = StartField | EndField

  /** One clause of a change record's reason (`buildReason` joins them with "; "). */
  datatype Reason =
    | DependencyLater(depRef: string)   // a dependency completes later than the original start
    | ChannelOccupied                   // the channel is occupied by an earlier task
    | SnappedToHours                    // moved to the next operating-hours window
    | Cascading                         // none of the above

  /** A change to one date of one task; `deltaMinutes` is new minus old. */
  datatype ScheduleChange = ScheduleChange(
    taskId: Id,
    taskReference: string,
    field: Field,
    oldValue: Instant,
    newValue: Instant,
    deltaMinutes: int,
    reason: seq<Reason>)

  /** The scheduler's error messages, by kind. */
  datatype ScheduleError =
    | UnknownChannel(taskReference: string, channelId: Id)
    | HoldInBlackout(taskReference: string, channelName: string)
    | NoSlot(taskReference: string)
    | NoEnd(taskReference: string)

  datatype ScheduleResult = ScheduleResult(
    updatedTasks: seq<SettlementTask>,
    changes: seq<ScheduleChange>,
    errors: seq<ScheduleError>)

  /** `scheduleTasks` returns a result, or the sorter's `CycleError` propagates out of it. */
  datatype Outcome = Scheduled(result: ScheduleResult) | Cycle(cycle: seq<Id>)

  /** The loop's mutable state. */
  datatype State = State(
    nextAvailable: map<Id, Instant>,
    endTimes: map<Id, Instant>,
    updated: map<Id, SettlementTask>,
    changes: seq<ScheduleChange>,
    errors: seq<ScheduleError>)

  /** The lookup maps built before the loop, with the task list `buildReason` searches. */
  datatype Env = Env(
    tasks: seq<SettlementTask>,
    taskMap: map<Id, SettlementTask>,
    channelMap: map<Id, SettlementChannel>,
    channelBlackouts: map<Id, seq<Interval>>)

  // ---------------------------------------------------------------------------
  // Specification of the set-up loops
  // ---------------------------------------------------------------------------

  function Lookup(m: map<Id, Instant>, k: Id): (r: Option<Instant>)
    ensures r.Some? <==> k in m
    ensures r.Some? ==> r.value == m[k]
  {
    if k in m then Some(m[k]) else None
  }

  /** Move channel `c`'s watermark up to `x`; it never moves down. */
  function Raise(m: map<Id, Instant>, c: Id, x: Instant): (r: map<Id, Instant>)
    ensures r.Keys == m.Keys + {c}
    ensures c in m ==> r[c] == Max(m[c], x)
    ensures c !in m ==> r[c] == x
    ensures forall k :: k in m && k != c ==> r[k] == m[k]
  {
    if c !in m || x > m[c] then m[c := x] else m
  }

  /** The pre-seeded watermarks: each regulatory hold raises its channel's watermark to its end. */
  function SeedHolds(tasks: seq<SettlementTask>): map<Id, Instant>
  {
    if tasks == [] then map[]
    else
      var t := tasks[|tasks| - 1];
      var m0 := SeedHolds(tasks[..|tasks| - 1]);
      if t.isRegulatoryHold then Raise(m0, t.settlementChannelId, t.endDate) else m0
  }

  /** The per-channel blackout intervals; a later channel with the same id replaces an earlier one. */
  function ChannelBlackouts(channels: seq<SettlementChannel>): map<Id, seq<Interval>>
  {
    if channels == [] then map[]
    else
      var ch := channels[|channels| - 1];
      ChannelBlackouts(channels[..|channels| - 1])[ch.id := ParseBlackoutWindows(ch.blackoutWindows)]
  }

  /** The lookup maps of the inputs. */
  function MakeEnv(tasks: seq<SettlementTask>, channels: seq<SettlementChannel>): Env
  {
    Env(tasks, TaskMap(tasks), ChannelMap(channels), ChannelBlackouts(channels))
  }

  // ---------------------------------------------------------------------------
  // Specification of one step
  // ---------------------------------------------------------------------------

  /** The dependency loop: the latest recorded end among the dependencies, or `start` when none is later. */
  function DependencyEnd(start: Instant, deps: seq<Id>, endTimes: map<Id, Instant>): Instant
  {
    if deps == [] then start
    else
      var d := deps[|deps| - 1];
      var e0 := DependencyEnd(start, deps[..|deps| - 1], endTimes);
      if d in endTimes && endTimes[d] > e0 then endTimes[d] else e0
  }

  /** The earliest start a task may take: its dependencies' latest end, raised to its channel's watermark. */
  function Earliest(t: SettlementTask, st: State): Instant
  {
    var e := DependencyEnd(t.startDate, t.dependsOnTaskIds, st.endTimes);
    var c := t.settlementChannelId;
    if c in st.nextAvailable && st.nextAvailable[c] > e then st.nextAvailable[c] else e
  }

  /** What happens to a task at its step. */
  datatype Fate =
    | OnUnknownChannel
    | Pinned(channelName: string, overlapsBlackout: bool)
    | NoSlotFound(earliest: Instant)
    | NoEndFound(earliest: Instant, start: Instant)
    | Placed(earliest: Instant, start: Instant, end: Instant)

  /** `channelBlackouts.get(channelId) ?? []`. */
  function BlackoutsFor(env: Env, c: Id): seq<Interval>
  {
    if c in env.channelBlackouts then env.channelBlackouts[c] else []
  }

  function FateOf(env: Env, t: SettlementTask, st: State): Fate
  {
    var c := t.settlementChannelId;
    if c !in env.channelMap then OnUnknownChannel
    else
      var hours := env.channelMap[c].operatingHours;
      var bs := BlackoutsFor(env, c);
      if t.isRegulatoryHold then Pinned(env.channelMap[c].name, OverlapsBlackout(t.startDate, t.endDate, bs))
      else
        var earliest := Earliest(t, st);
        match NextSlotFrom(earliest, hours, bs, MaxDays)
        case None => NoSlotFound(earliest)
        case Some(s) =>
          match EndDate(s, EffectiveDuration(t), hours, bs, MaxDays)
          case None => NoEndFound(earliest, s)
          case Some(e) => Placed(earliest, s, e)
  }

  /**
   * `allTasks.find(t => t.docId === depId)?.data.taskReference ?? depId`:
   * the reference of the first task with that id, else the id itself.
   */
  function DepRef(tasks: seq<SettlementTask>, depId: Id): (r: string)
    ensures (forall i :: 0 <= i < |tasks| ==> tasks[i].id != depId) ==> r == depId
    ensures forall i :: 0 <= i < |tasks| && tasks[i].id == depId && (forall j :: 0 <= j < i ==> tasks[j].id != depId) ==>
      r == tasks[i].taskReference
  {
    if tasks == [] then depId
    else if tasks[0].id == depId then tasks[0].taskReference
    else
      var r := DepRef(tasks[1..], depId);
      assert forall i :: 1 <= i < |tasks| ==> tasks[1..][i - 1] == tasks[i];
      r
  }

  /** The dependency clauses of a reason: one per listed dependency (repeats included) that ends after `origStart`. */
  function DepReasons(tasks: seq<SettlementTask>, deps: seq<Id>, origStart: Instant, endTimes: map<Id, Instant>): seq<Reason>
  {
    if deps == [] then []
    else
      var d := deps[|deps| - 1];
      var rs0 := DepReasons(tasks, deps[..|deps| - 1], origStart, endTimes);
      if d in endTimes && endTimes[d] > origStart then rs0 + [DependencyLater(DepRef(tasks, d))] else rs0
  }

  /** The clauses of a change record's reason, "cascading" when no other applies. */
  function Reasons(tasks: seq<SettlementTask>, t: SettlementTask, earliest: Instant, channelAvail: Option<Instant>,
                   start: Instant, endTimes: map<Id, Instant>): seq<Reason>
  {
    var rs := DepReasons(tasks, t.dependsOnTaskIds, t.startDate, endTimes)
      + (if channelAvail.Some? && channelAvail.value > t.startDate then [ChannelOccupied] else [])
      + (if start > earliest then [SnappedToHours] else []);
    if rs == [] then [Cascading] else rs
  }

  /** The change records of a placed task: a start record iff the start moved, an end record iff the end moved. */
  function Changes(tasks: seq<SettlementTask>, id: Id, t: SettlementTask, earliest: Instant, channelAvail: Option<Instant>,
                   s: Instant, e: Instant, endTimes: map<Id, Instant>): seq<ScheduleChange>
  {
    var reason := Reasons(tasks, t, earliest, channelAvail, s, endTimes);
    (if s != t.startDate then [ScheduleChange(id, t.taskReference, StartField, t.startDate, s, s - t.startDate, reason)] else [])
    + (if e != t.endDate then [ScheduleChange(id, t.taskReference, EndField, t.endDate, e, e - t.endDate, reason)] else [])
  }

  /** The effect on the loop's state of a task's fate. */
  function Apply(tasks: seq<SettlementTask>, st: State, id: Id, t: SettlementTask, fate: Fate): State
  {
    match fate
    case OnUnknownChannel =>
      st.(errors := st.errors + [UnknownChannel(t.taskReference, t.settlementChannelId)],
          endTimes := st.endTimes[id := t.endDate])
    case Pinned(name, overlaps) =>
      st.(errors := st.errors + (if overlaps then [HoldInBlackout(t.taskReference, name)] else []),
          nextAvailable := Raise(st.nextAvailable, t.settlementChannelId, t.endDate),
          endTimes := st.endTimes[id := t.endDate])
    case NoSlotFound(earliest) =>
      st.(errors := st.errors + [NoSlot(t.taskReference)], endTimes := st.endTimes[id := earliest])
    case NoEndFound(_, s) =>
      st.(errors := st.errors + [NoEnd(t.taskReference)], endTimes := st.endTimes[id := s])
    case Placed(earliest, s, e) =>
      st.(changes := st.changes + Changes(tasks, id, t, earliest, Lookup(st.nextAvailable, t.settlementChannelId), s, e, st.endTimes),
          updated := st.updated[id := t.(startDate := s, endDate := e)],
          nextAvailable := st.nextAvailable[t.settlementChannelId := e],
          endTimes := st.endTimes[id := e])
  }

  /** One iteration of the scheduling loop, for the task with id `id`. */
  function Step(env: Env, st: State, id: Id): State
    requires id in env.taskMap
  {
    var t := env.taskMap[id];
    Apply(env.tasks, st, id, t, FateOf(env, t, st))
  }

  /** Every id of the order names a task (`taskMap.get(taskId)!`). */
  predicate Known(env: Env, order: seq<Id>)
  {
    forall k :: 0 <= k < |order| ==> order[k] in env.taskMap
  }

  /** The state before the loop: seeded watermarks, no ends yet, a copy of every task. */
  function Init(env: Env): State
  {
    State(SeedHolds(env.tasks), map[], env.taskMap, [], [])
  }

  /** The loop over `order`: one `Step` per id. */
  function Run(env: Env, order: seq<Id>): State
    requires Known(env, order)
  {
    if order == [] then Init(env)
    else Step(env, Run(env, order[..|order| - 1]), order[|order| - 1])
  }

  /** A step replaces at most the copy of its own task, by one with new dates. */
  lemma StepUpdated(env: Env, st: State, id: Id)
    requires id in env.taskMap
    ensures Step(env, st, id).updated ==
      match FateOf(env, env.taskMap[id], st)
      case Placed(_, s, e) => st.updated[id := env.taskMap[id].(startDate := s, endDate := e)]
      case _ => st.updated
  {
  }

  /** Every step keeps one copy per task id, each carrying its own id. */
  lemma {:induction false} RunUpdated(env: Env, order: seq<Id>)
    requires Known(env, order)
    requires forall id :: id in env.taskMap ==> env.taskMap[id].id == id
    ensures Run(env, order).updated.Keys == env.taskMap.Keys
    ensures forall id :: id in Run(env, order).updated ==> Run(env, order).updated[id].id == id
  {
    if order != [] {
      RunUpdated(env, order[..|order| - 1]);
      StepUpdated(env, Run(env, order[..|order| - 1]), order[|order| - 1]);
    }
  }

  /** The result for `order`: the updated copies in that order, the change records and the errors. */
  function Schedule(tasks: seq<SettlementTask>, channels: seq<SettlementChannel>, order: seq<Id>): ScheduleResult
    requires Known(MakeEnv(tasks, channels), order)
  {
    var env := MakeEnv(tasks, channels);
    var st := Run(env, order);
    RunUpdated(env, order);
    ScheduleResult(seq(|order|, i requires 0 <= i < |order| => st.updated[order[i]]), st.changes, st.errors)
  }

  // ---------------------------------------------------------------------------
  // scheduleTasks
  // ---------------------------------------------------------------------------

  /** The pre-seeding loop over the regulatory holds. */
  method SeedHoldWatermarks(tasks: seq<SettlementTask>) returns (channelNextAvailable: map<Id, Instant>)
    ensures channelNextAvailable == SeedHolds(tasks)
  {
    channelNextAvailable := map[];
    for i := 0 to |tasks|
      invariant channelNextAvailable == SeedHolds(tasks[..i])
    {
      assert tasks[..i + 1][..i] == tasks[..i];
      var task := tasks[i];
      if !task.isRegulatoryHold {
        continue;
      }
      var channelId := task.settlementChannelId;
      var holdEnd := task.endDate;
      if channelId !in channelNextAvailable || holdEnd > channelNextAvailable[channelId] {
        channelNextAvailable := channelNextAvailable[channelId := holdEnd];
      }
    }
    assert tasks[..|tasks|] == tasks;
  }

  /** The copying loop: one copy per id, a later task replacing an earlier one. */
  method CloneTasks(tasks: seq<SettlementTask>) returns (updatedTasks: map<Id, SettlementTask>)
    ensures updatedTasks == TaskMap(tasks)
  {
    updatedTasks := map[];
    for i := 0 to |tasks|
      invariant updatedTasks == TaskMap(tasks[..i])
    {
      assert tasks[..i + 1][..i] == tasks[..i];
      updatedTasks := updatedTasks[tasks[i].id := tasks[i]];
    }
    assert tasks[..|tasks|] == tasks;
  }

  /** The loop parsing each channel's blackout windows. */
  method BuildChannelBlackouts(channels: seq<SettlementChannel>) returns (channelBlackouts: map<Id, seq<Interval>>)
    ensures channelBlackouts == ChannelBlackouts(channels)
  {
    channelBlackouts := map[];
    for i := 0 to |channels|
      invariant channelBlackouts == ChannelBlackouts(channels[..i])
    {
      assert channels[..i + 1][..i] == channels[..i];
      channelBlackouts := channelBlackouts[channels[i].id := ParseBlackoutWindows(channels[i].blackoutWindows)];
    }
    assert channels[..|channels|] == channels;
  }

  /** The dependency loop of one step. */
  method LatestDependencyEnd(originalStart: Instant, deps: seq<Id>, taskEndTimes: map<Id, Instant>)
    returns (earliest: Instant)
    ensures earliest == DependencyEnd(originalStart, deps, taskEndTimes)
  {
    earliest := originalStart;
    for k := 0 to |deps|
      invariant earliest == DependencyEnd(originalStart, deps[..k], taskEndTimes)
    {
      assert deps[..k + 1][..k] == deps[..k];
      var depId := deps[k];
      if depId in taskEndTimes && taskEndTimes[depId] > earliest {
        earliest := taskEndTimes[depId];
      }
    }
    assert deps[..|deps|] == deps;
  }

  /** `buildReason`. */
  method BuildReason(allTasks: seq<SettlementTask>, task: SettlementTask, earliest: Instant,
                     channelAvail: Option<Instant>, effectiveStart: Instant, taskEndTimes: map<Id, Instant>)
    returns (reasons: seq<Reason>)
    ensures reasons == Reasons(allTasks, task, earliest, channelAvail, effectiveStart, taskEndTimes)
  {
    var deps := task.dependsOnTaskIds;
    reasons := [];
    for k := 0 to |deps|
      invariant reasons == DepReasons(allTasks, deps[..k], task.startDate, taskEndTimes)
    {
      assert deps[..k + 1][..k] == deps[..k];
      var depId := deps[k];
      if depId in taskEndTimes && taskEndTimes[depId] > task.startDate {
        reasons := reasons + [DependencyLater(DepRef(allTasks, depId))];
      }
    }
    assert deps[..|deps|] == deps;
    if channelAvail.Some? && channelAvail.value > task.startDate {
      reasons := reasons + [ChannelOccupied];
    }
    if effectiveStart > earliest {
      reasons := reasons + [SnappedToHours];
    }
    if |reasons| == 0 {
      reasons := [Cascading];
    }
  }

  /** The two change-record pushes of a placed task. */
  method RecordChanges(tasks: seq<SettlementTask>, taskId: Id, original: SettlementTask, earliest: Instant,
                       channelAvail: Option<Instant>, start: Instant, end: Instant, taskEndTimes: map<Id, Instant>,
                       changes0: seq<ScheduleChange>)
    returns (changes: seq<ScheduleChange>)
    ensures changes == changes0 + Changes(tasks, taskId, original, earliest, channelAvail, start, end, taskEndTimes)
  {
    changes := changes0;
    if start != original.startDate {
      var reason := BuildReason(tasks, original, earliest, channelAvail, start, taskEndTimes);
      changes := changes + [ScheduleChange(taskId, original.taskReference, StartField, original.startDate, start,
                                           start - original.startDate, reason)];
    }
    if end != original.endDate {
      var reason := BuildReason(tasks, original, earliest, channelAvail, start, taskEndTimes);
      changes := changes + [ScheduleChange(taskId, original.taskReference, EndField, original.endDate, end,
                                           end - original.endDate, reason)];
    }
  }

  /** The body of the scheduling loop, for the task with id `taskId`. */
  method ScheduleOne(allTasks: seq<SettlementTask>, taskMap: map<Id, SettlementTask>,
                     channelMap: map<Id, SettlementChannel>, channelBlackouts: map<Id, seq<Interval>>,
                     st: State, taskId: Id)
    returns (next: State)
    requires taskId in taskMap
    ensures next == Step(Env(allTasks, taskMap, channelMap, channelBlackouts), st, taskId)
  {
    ghost var env := Env(allTasks, taskMap, channelMap, channelBlackouts);
    var channelNextAvailable, taskEndTimes, updatedTasks, changes, errors :=
      st.nextAvailable, st.endTimes, st.updated, st.changes, st.errors;
    var original := taskMap[taskId];
    var channelId := original.settlementChannelId;
    if channelId !in channelMap {
      assert FateOf(env, original, st) == OnUnknownChannel;
      errors := errors + [UnknownChannel(original.taskReference, channelId)];
      taskEndTimes := taskEndTimes[taskId := original.endDate];
      return State(channelNextAvailable, taskEndTimes, updatedTasks, changes, errors);
    }
    var channel := channelMap[channelId];
    var blackouts := if channelId in channelBlackouts then channelBlackouts[channelId] else [];
    var operatingHours := channel.operatingHours;

    if original.isRegulatoryHold {
      assert FateOf(env, original, st) == Pinned(channel.name, OverlapsBlackout(original.startDate, original.endDate, blackouts));
      if OverlapsBlackout(original.startDate, original.endDate, blackouts) {
        errors := errors + [HoldInBlackout(original.taskReference, channel.name)];
      }
      if channelId !in channelNextAvailable || original.endDate > channelNextAvailable[channelId] {
        channelNextAvailable := channelNextAvailable[channelId := original.endDate];
      }
      taskEndTimes := taskEndTimes[taskId := original.endDate];
      return State(channelNextAvailable, taskEndTimes, updatedTasks, changes, errors);
    }
    next := PlaceTask(allTasks, taskMap, channelMap, channelBlackouts, st, taskId);
  }

  /** The part of the loop body for a task that is not a hold and whose channel is known: record its fate. */
  method PlaceTask(allTasks: seq<SettlementTask>, taskMap: map<Id, SettlementTask>,
                   channelMap: map<Id, SettlementChannel>, channelBlackouts: map<Id, seq<Interval>>,
                   st: State, taskId: Id)
    returns (next: State)
    requires taskId in taskMap
    requires taskMap[taskId].settlementChannelId in channelMap && !taskMap[taskId].isRegulatoryHold
    ensures next == Step(Env(allTasks, taskMap, channelMap, channelBlackouts), st, taskId)
  {
    var channelNextAvailable, taskEndTimes, updatedTasks, changes, errors :=
      st.nextAvailable, st.endTimes, st.updated, st.changes, st.errors;
    var original := taskMap[taskId];
    var channelId := original.settlementChannelId;
    var fate := PlacementOf(allTasks, taskMap, channelMap, channelBlackouts, st, taskId);
    if fate.NoSlotFound? {
      errors := errors + [NoSlot(original.taskReference)];
      taskEndTimes := taskEndTimes[taskId := fate.earliest];
      return State(channelNextAvailable, taskEndTimes, updatedTasks, changes, errors);
    }
    if fate.NoEndFound? {
      errors := errors + [NoEnd(original.taskReference)];
      taskEndTimes := taskEndTimes[taskId := fate.start];
      return State(channelNextAvailable, taskEndTimes, updatedTasks, changes, errors);
    }
    var earliest, start, end := fate.earliest, fate.start, fate.end;
    var channelAvail := Lookup(channelNextAvailable, channelId);
    changes := RecordChanges(allTasks, taskId, original, earliest, channelAvail, start, end, taskEndTimes, changes);
    updatedTasks := updatedTasks[taskId := original.(startDate := start, endDate := end)];
    channelNextAvailable := channelNextAvailable[channelId := end];
    taskEndTimes := taskEndTimes[taskId := end];
    return State(channelNextAvailable, taskEndTimes, updatedTasks, changes, errors);
  }

  /** The earliest start, the first operating slot from it, and the end the duration reaches from that slot. */
  method PlacementOf(allTasks: seq<SettlementTask>, taskMap: map<Id, SettlementTask>,
                     channelMap: map<Id, SettlementChannel>, channelBlackouts: map<Id, seq<Interval>>,
                     st: State, taskId: Id)
    returns (fate: Fate)
    requires taskId in taskMap
    requires taskMap[taskId].settlementChannelId in channelMap && !taskMap[taskId].isRegulatoryHold
    ensures fate == FateOf(Env(allTasks, taskMap, channelMap, channelBlackouts), taskMap[taskId], st)
    ensures fate.NoSlotFound? || fate.NoEndFound? || fate.Placed?
  {
    ghost var env := Env(allTasks, taskMap, channelMap, channelBlackouts);
    var original := taskMap[taskId];
    var channelId := original.settlementChannelId;
    var channel := channelMap[channelId];
    var blackouts := if channelId in channelBlackouts then channelBlackouts[channelId] else [];
    var operatingHours := channel.operatingHours;

    var effectiveDuration := (if original.prepTimeMinutes.Some? then original.prepTimeMinutes.value else 0)
      + original.durationMinutes;
    var earliest := LatestDependencyEnd(original.startDate, original.dependsOnTaskIds, st.endTimes);
    var channelAvail := Lookup(st.nextAvailable, channelId);
    if channelAvail.Some? && channelAvail.value > earliest {
      earliest := channelAvail.value;
    }
    assert earliest == Earliest(original, st);
    assert effectiveDuration == EffectiveDuration(original);

    var effectiveStart := FindNextOperatingSlot(earliest, operatingHours, blackouts, MaxDays);
    if effectiveStart.None? {
      return NoSlotFound(earliest);
    }
    var start := effectiveStart.value;
    var effectiveEnd := ComputeEndDate(start, effectiveDuration, operatingHours, blackouts, MaxDays);
    if effectiveEnd.None? {
      return NoEndFound(earliest, start);
    }
    return Placed(earliest, start, effectiveEnd.value);
  }

  /**
   * What the order handed to the walk satisfies: it lists each task id once,
   * every dependency before its dependent, ties picked by earliest start, and
   * each of its ids names a task.
   */
  ghost predicate Planned(tasks: seq<SettlementTask>, channels: seq<SettlementChannel>, order: seq<Id>)
  {
    DistinctIds(tasks) && Dag.Distinct(order) && multiset(order) == multiset(TaskIds(tasks)) &&
    Dag.Topological(tasks, order) && Dag.GreedyByStart(tasks, order) &&
    Known(MakeEnv(tasks, channels), order)
  }

  /** A permutation of the task ids that is a greedy topological order is a plan. */
  lemma PlannedFromSort(tasks: seq<SettlementTask>, channels: seq<SettlementChannel>, order: seq<Id>)
    requires DistinctIds(tasks) && Dag.Distinct(order) && multiset(order) == multiset(TaskIds(tasks))
    requires Dag.Topological(tasks, order) && Dag.GreedyByStart(tasks, order)
    ensures Planned(tasks, channels, order)
  {
    forall k | 0 <= k < |order| ensures order[k] in TaskMap(tasks) {
      assert order[k] in multiset(TaskIds(tasks));
      var i :| 0 <= i < |tasks| && TaskIds(tasks)[i] == order[k];
    }
  }

  /** Copies taken in the order's sequence, each carrying its own id, carry the order's ids. */
  lemma CopiesIds(env: Env, order: seq<Id>, ts: seq<SettlementTask>)
    requires Known(env, order)
    requires forall id :: id in Run(env, order).updated ==> Run(env, order).updated[id].id == id
    requires |ts| == |order|
    requires forall k :: 0 <= k < |order| ==> order[k] in Run(env, order).updated && ts[k] == Run(env, order).updated[order[k]]
    ensures TaskIds(ts) == order
  {
  }

  /** The updated tasks carry the ids of the order, in that order. */
  lemma {:induction false} ScheduleIds(tasks: seq<SettlementTask>, channels: seq<SettlementChannel>, order: seq<Id>)
    requires Known(MakeEnv(tasks, channels), order)
    ensures TaskIds(Schedule(tasks, channels, order).updatedTasks) == order
  {
    var env := MakeEnv(tasks, channels);
    RunUpdated(env, order);
    CopiesIds(env, order, Schedule(tasks, channels, order).updatedTasks);
  }


  /** The pre-seeding, the copying and the scheduling loop over the sorted ids. */
  method PlaceAll(tasks: seq<SettlementTask>, taskMap: map<Id, SettlementTask>,
                  channelMap: map<Id, SettlementChannel>, channelBlackouts: map<Id, seq<Interval>>,
                  sortedIds: seq<Id>)
    returns (st: State)
    requires taskMap == TaskMap(tasks)
    requires Known(Env(tasks, taskMap, channelMap, channelBlackouts), sortedIds)
    ensures st == Run(Env(tasks, taskMap, channelMap, channelBlackouts), sortedIds)
  {
    ghost var env := Env(tasks, taskMap, channelMap, channelBlackouts);
    var channelNextAvailable := SeedHoldWatermarks(tasks);
    var updatedTasks := CloneTasks(tasks);
    st := State(channelNextAvailable, map[], updatedTasks, [], []);
    for i := 0 to |sortedIds|
      invariant st == Run(env, sortedIds[..i])
    {
      assert sortedIds[..i + 1][..i] == sortedIds[..i];
      st := ScheduleOne(tasks, taskMap, channelMap, channelBlackouts, st, sortedIds[i]);
    }
    assert sortedIds[..|sortedIds|] == sortedIds;
  }

  /** The loop over the sorted ids, and the updated copies collected in that order. */
  method ScheduleInOrder(tasks: seq<SettlementTask>, channels: seq<SettlementChannel>,
                         taskMap: map<Id, SettlementTask>, channelMap: map<Id, SettlementChannel>,
                         channelBlackouts: map<Id, seq<Interval>>, sortedIds: seq<Id>)
    returns (result: ScheduleResult)
    requires taskMap == TaskMap(tasks) && channelMap == ChannelMap(channels)
    requires channelBlackouts == ChannelBlackouts(channels)
    requires Known(MakeEnv(tasks, channels), sortedIds)
    ensures result == Schedule(tasks, channels, sortedIds)
    ensures TaskIds(result.updatedTasks) == sortedIds
  {
    ghost var env := MakeEnv(tasks, channels);
    var st := PlaceAll(tasks, taskMap, channelMap, channelBlackouts, sortedIds);
    RunUpdated(env, sortedIds);
    result := ScheduleResult(seq(|sortedIds|, i requires 0 <= i < |sortedIds| => st.updated[sortedIds[i]]),
                             st.changes, st.errors);
    ScheduleIds(tasks, channels, sortedIds);
  }

  /** The topological sort, read as a plan when it succeeds and as a cycle report when it does not. */
  method SortTasks(tasks: seq<SettlementTask>, channels: seq<SettlementChannel>) returns (sorted: Dag.SortResult)
    ensures sorted.Sorted? ==> Planned(tasks, channels, sorted.order)
    ensures sorted.CycleError? ==> tasks != [] && !(DistinctIds(tasks) && Dag.HasOrder(tasks))
    ensures sorted.CycleError? && sorted.cycle != [] ==> Dag.Stuck(tasks, Dag.Elems(sorted.cycle))
  {
    ghost var emitted;
    sorted, emitted := Dag.TopologicalSort(tasks);
    if sorted.Sorted? {
      PlannedFromSort(tasks, channels, sorted.order);
    }
  }

  /**
   * `scheduleTasks`: sort, then place each task in turn. The order taken is
   * the sorter's: a dependency-respecting, earliest-start-first permutation of
   * the task ids, recoverable from the updated tasks, and the result is the
   * specification `Schedule` of that order.
   */
  method ScheduleTasks(tasks: seq<SettlementTask>, channels: seq<SettlementChannel>) returns (out: Outcome)
    ensures tasks == [] ==> out == Scheduled(ScheduleResult([], [], []))
    ensures out.Scheduled? ==>
      var order := TaskIds(out.result.updatedTasks);
      Planned(tasks, channels, order) && out.result == Schedule(tasks, channels, order)
    ensures out.Cycle? ==> tasks != [] && !(DistinctIds(tasks) && Dag.HasOrder(tasks))
    ensures out.Cycle? && out.cycle != [] ==> Dag.Stuck(tasks, Dag.Elems(out.cycle))
  {
    if |tasks| == 0 {
      return Scheduled(ScheduleResult([], [], []));
    }
    var channelMap := ChannelMap(channels);
    var taskMap := TaskMap(tasks);
    var channelBlackouts := BuildChannelBlackouts(channels);

    var sorted := SortTasks(tasks, channels);
    if sorted.CycleError? {
      return Cycle(sorted.cycle);
    }
    var sortedIds := sorted.order;
    var result := ScheduleInOrder(tasks, channels, taskMap, channelMap, channelBlackouts, sortedIds);
    assert TaskIds(result.updatedTasks) == sortedIds;
    return Scheduled(result);
  }
}
