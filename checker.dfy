/**
 * The post-reflow constraint check (reflow/constraint-checker.ts): five
 * checks over the scheduled tasks, each a loop that pushes violations, run in
 * a fixed order. Every check is a method proved equal to a function saying
 * which violations it reports and in which order; what those functions mean
 * is proved in module CheckerProperties.
 */
module Checker {
  import opened Types
  import opened DateUtils

  /**
   * What a violation is about. The message text is left out; the values it
   * mentions (the other task's reference, the expected and found minutes,
   * the original and new dates of a moved hold) are kept.
   */
  datatype Kind =
    | DependencyViolated(upstreamReference: string)
    | ChannelOverlap(previousReference: string)
    | StartOutsideHours
    | DurationOutsideHours(expected: int, found: int)
    | BlackoutOverlap
    | HoldMoved(originalStart: Instant, originalEnd: Instant, newStart: Instant, newEnd: Instant)

  datatype Violation = Violation(kind: Kind, taskId: Id, taskReference: string)

  /** The place of a kind in the report: dependencies, channel overlaps, operating hours, blackouts, moved holds. */
  function Rank(k: Kind): nat
  {
    match k
    case DependencyViolated(_) => 0
    case ChannelOverlap(_) => 1
    case StartOutsideHours => 2
    case DurationOutsideHours(_, _) => 2
    case BlackoutOverlap => 3
    case HoldMoved(_, _, _, _) => 4
  }

  /** The violations a per-task check finds, task by task in list order. */
  function Collect(tasks: seq<SettlementTask>, f: SettlementTask -> seq<Violation>): seq<Violation>
  {
    if tasks == [] then []
    else Collect(tasks[..|tasks| - 1], f) + f(tasks[|tasks| - 1])
  }

  // ---------------------------------------------------------------------------
  // checkDependencies
  // ---------------------------------------------------------------------------

  /** The violations of task `t` against the upstream ids `deps`: a known upstream ending after `t` starts. */
  function UpstreamViolations(t: SettlementTask, deps: seq<Id>, taskMap: map<Id, SettlementTask>): seq<Violation>
  {
    if deps == [] then []
    else
      var d := deps[|deps| - 1];
      UpstreamViolations(t, deps[..|deps| - 1], taskMap) +
      (if d in taskMap && t.startDate < taskMap[d].endDate
       then [Violation(DependencyViolated(taskMap[d].taskReference), t.id, t.taskReference)]
       else [])
  }

  function DependencyViolations(tasks: seq<SettlementTask>, taskMap: map<Id, SettlementTask>): seq<Violation>
  {
    Collect(tasks, (t: SettlementTask) => UpstreamViolations(t, t.dependsOnTaskIds, taskMap))
  }

  method CheckDependencies(tasks: seq<SettlementTask>, taskMap: map<Id, SettlementTask>) returns (violations: seq<Violation>)
    ensures violations == DependencyViolations(tasks, taskMap)
  {
    violations := [];
    for i := 0 to |tasks|
      invariant violations == DependencyViolations(tasks[..i], taskMap)
    {
      assert tasks[..i + 1][..i] == tasks[..i];
      var vs := CheckUpstreams(tasks[i], taskMap);
      violations := violations + vs;
    }
    assert tasks[..|tasks|] == tasks;
  }

  /** The inner loop of `checkDependencies`, over one task's upstream ids. */
  method CheckUpstreams(task: SettlementTask, taskMap: map<Id, SettlementTask>) returns (vs: seq<Violation>)
    ensures vs == UpstreamViolations(task, task.dependsOnTaskIds, taskMap)
  {
    vs := [];
    var deps := task.dependsOnTaskIds;
    for j := 0 to |deps|
      invariant vs == UpstreamViolations(task, deps[..j], taskMap)
    {
      assert deps[..j + 1][..j] == deps[..j];
      var depId := deps[j];
      if depId !in taskMap {
        continue;
      }
      var upstream := taskMap[depId];
      if task.startDate < upstream.endDate {
        vs := vs + [Violation(DependencyViolated(upstream.taskReference), task.id, task.taskReference)];
      }
    }
    assert deps[..|deps|] == deps;
  }

  // ---------------------------------------------------------------------------
  // checkChannelOverlaps
  // ---------------------------------------------------------------------------

  /** The channel ids of the tasks in order of first appearance: the key order of the `byChannel` map. */
  function ChannelOrder(tasks: seq<SettlementTask>): seq<Id>
  {
    if tasks == [] then []
    else
      var ks := ChannelOrder(tasks[..|tasks| - 1]);
      var c := tasks[|tasks| - 1].settlementChannelId;
      if c in ks then ks else ks + [c]
  }

  /** The tasks on channel `c`, in list order. */
  function OnChannel(tasks: seq<SettlementTask>, c: Id): seq<SettlementTask>
  {
    if tasks == [] then []
    else
      OnChannel(tasks[..|tasks| - 1], c) +
      (if tasks[|tasks| - 1].settlementChannelId == c then [tasks[|tasks| - 1]] else [])
  }

  /** Inserts `x` after every task that starts no later than it. */
  function InsertByStart(x: SettlementTask, s: seq<SettlementTask>): seq<SettlementTask>
  {
    if s == [] then [x]
    else if x.startDate < s[0].startDate then [x] + s
    else [s[0]] + InsertByStart(x, s[1..])
  }

  /** The stable sort by start date that `Array.prototype.sort` performs with the start comparator. */
  function SortByStartDate(s: seq<SettlementTask>): seq<SettlementTask>
  {
    if s == [] then []
    else InsertByStart(s[|s| - 1], SortByStartDate(s[..|s| - 1]))
  }

  /** Consecutive pairs of a sorted group: the later task is flagged when the earlier one ends after it starts. */
  function PairViolations(s: seq<SettlementTask>): seq<Violation>
  {
    if |s| < 2 then []
    else
      var current := s[|s| - 2];
      var next := s[|s| - 1];
      PairViolations(s[..|s| - 1]) +
      (if current.endDate > next.startDate
       then [Violation(ChannelOverlap(current.taskReference), next.id, next.taskReference)]
       else [])
  }

  /** The pair violations of each channel in `keys`, channel by channel. */
  function GroupViolations(tasks: seq<SettlementTask>, keys: seq<Id>): seq<Violation>
  {
    if keys == [] then []
    else
      GroupViolations(tasks, keys[..|keys| - 1]) +
      PairViolations(SortByStartDate(OnChannel(tasks, keys[|keys| - 1])))
  }

  function OverlapViolations(tasks: seq<SettlementTask>): seq<Violation>
  {
    GroupViolations(tasks, ChannelOrder(tasks))
  }

  /** A channel missing from the key order has no tasks. */
  lemma {:induction false} AbsentChannel(tasks: seq<SettlementTask>, c: Id)
    requires c !in ChannelOrder(tasks)
    ensures OnChannel(tasks, c) == []
  {
    if tasks != [] {
      AbsentChannel(tasks[..|tasks| - 1], c);
    }
  }

  /** The grouping loop: `byChannel` maps each key, in first-appearance order, to its tasks in list order. */
  method GroupByChannel(tasks: seq<SettlementTask>) returns (byChannel: map<Id, seq<SettlementTask>>, keys: seq<Id>)
    ensures keys == ChannelOrder(tasks)
    ensures forall c :: c in keys <==> c in byChannel
    ensures forall c :: c in byChannel ==> byChannel[c] == OnChannel(tasks, c)
  {
    byChannel := map[];
    keys := [];
    for i := 0 to |tasks|
      invariant keys == ChannelOrder(tasks[..i])
      invariant forall c :: c in keys <==> c in byChannel
      invariant forall c :: c in byChannel ==> byChannel[c] == OnChannel(tasks[..i], c)
    {
      assert tasks[..i + 1][..i] == tasks[..i];
      var channelId := tasks[i].settlementChannelId;
      if channelId !in byChannel {
        AbsentChannel(tasks[..i], channelId);
        byChannel := byChannel[channelId := []];
        keys := keys + [channelId];
      }
      byChannel := byChannel[channelId := byChannel[channelId] + [tasks[i]]];
    }
    assert tasks[..|tasks|] == tasks;
  }

  /** The index loop over consecutive pairs of one sorted group. */
  method CheckSortedPairs(sorted: seq<SettlementTask>) returns (vs: seq<Violation>)
    ensures vs == PairViolations(sorted)
  {
    vs := [];
    var i := 0;
    while i < |sorted| - 1
      invariant 0 <= i && (|sorted| > 0 ==> i < |sorted|)
      invariant |sorted| > 0 ==> vs == PairViolations(sorted[..i + 1])
      invariant |sorted| == 0 ==> vs == []
    {
      assert sorted[..i + 2][..i + 1] == sorted[..i + 1];
      var currentEnd := sorted[i].endDate;
      var nextStart := sorted[i + 1].startDate;
      if currentEnd > nextStart {
        vs := vs + [Violation(ChannelOverlap(sorted[i].taskReference), sorted[i + 1].id, sorted[i + 1].taskReference)];
      }
      i := i + 1;
    }
    if |sorted| > 0 {
      assert sorted[..i + 1] == sorted;
    }
  }

  method CheckChannelOverlaps(tasks: seq<SettlementTask>) returns (violations: seq<Violation>)
    ensures violations == OverlapViolations(tasks)
  {
    var byChannel, keys := GroupByChannel(tasks);
    violations := [];
    for k := 0 to |keys|
      invariant violations == GroupViolations(tasks, keys[..k])
    {
      assert keys[..k + 1][..k] == keys[..k];
      var sorted := SortByStartDate(byChannel[keys[k]]);
      var vs := CheckSortedPairs(sorted);
      violations := violations + vs;
    }
    assert keys[..|keys|] == keys;
  }

  // ---------------------------------------------------------------------------
  // checkOperatingHours
  // ---------------------------------------------------------------------------

  /**
   * The operating-hours verdict on one task: pinned tasks and unknown channels
   * are skipped; a start that is not its own next slot is flagged, and
   * otherwise available minutes differing from prep plus duration are.
   */
  function HoursViolation(t: SettlementTask, channelMap: map<Id, SettlementChannel>): seq<Violation>
  {
    if t.isRegulatoryHold || t.settlementChannelId !in channelMap then []
    else
      var channel := channelMap[t.settlementChannelId];
      var bs := ParseBlackoutWindows(channel.blackoutWindows);
      if NextSlotFrom(t.startDate, channel.operatingHours, bs, MaxDays) != Some(t.startDate)
      then [Violation(StartOutsideHours, t.id, t.taskReference)]
      else
        var available := CountAvailable(t.startDate, t.endDate, channel.operatingHours, bs);
        if available != EffectiveDuration(t)
        then [Violation(DurationOutsideHours(EffectiveDuration(t), available), t.id, t.taskReference)]
        else []
  }

  function HoursViolations(tasks: seq<SettlementTask>, channelMap: map<Id, SettlementChannel>): seq<Violation>
  {
    Collect(tasks, (t: SettlementTask) => HoursViolation(t, channelMap))
  }

  method CheckOperatingHours(tasks: seq<SettlementTask>, channelMap: map<Id, SettlementChannel>)
    returns (violations: seq<Violation>)
    ensures violations == HoursViolations(tasks, channelMap)
  {
    violations := [];
    for i := 0 to |tasks|
      invariant violations == HoursViolations(tasks[..i], channelMap)
    {
      assert tasks[..i + 1][..i] == tasks[..i];
      var task := tasks[i];
      if task.isRegulatoryHold || task.settlementChannelId !in channelMap {
        continue;
      }
      var channel := channelMap[task.settlementChannelId];
      var blackouts := ParseBlackoutWindows(channel.blackoutWindows);
      var effectiveDuration := EffectiveDuration(task);
      var nextSlot := FindNextOperatingSlot(task.startDate, channel.operatingHours, blackouts, MaxDays);
      if nextSlot != Some(task.startDate) {
        violations := violations + [Violation(StartOutsideHours, task.id, task.taskReference)];
        continue;
      }
      var available := CountAvailableMinutes(task.startDate, task.endDate, channel.operatingHours, blackouts);
      if available != effectiveDuration {
        violations := violations + [Violation(DurationOutsideHours(effectiveDuration, available), task.id, task.taskReference)];
      }
    }
    assert tasks[..|tasks|] == tasks;
  }

  // ---------------------------------------------------------------------------
  // checkBlackoutOverlaps
  // ---------------------------------------------------------------------------

  /** Only a pinned task on a known channel is checked against that channel's blackouts. */
  function BlackoutViolation(t: SettlementTask, channelMap: map<Id, SettlementChannel>): seq<Violation>
  {
    if !t.isRegulatoryHold || t.settlementChannelId !in channelMap then []
    else if OverlapsBlackout(t.startDate, t.endDate, ParseBlackoutWindows(channelMap[t.settlementChannelId].blackoutWindows))
    then [Violation(BlackoutOverlap, t.id, t.taskReference)]
    else []
  }

  function BlackoutViolations(tasks: seq<SettlementTask>, channelMap: map<Id, SettlementChannel>): seq<Violation>
  {
    Collect(tasks, (t: SettlementTask) => BlackoutViolation(t, channelMap))
  }

  method CheckBlackoutOverlaps(tasks: seq<SettlementTask>, channelMap: map<Id, SettlementChannel>)
    returns (violations: seq<Violation>)
    ensures violations == BlackoutViolations(tasks, channelMap)
  {
    violations := [];
    for i := 0 to |tasks|
      invariant violations == BlackoutViolations(tasks[..i], channelMap)
    {
      assert tasks[..i + 1][..i] == tasks[..i];
      var task := tasks[i];
      if !task.isRegulatoryHold || task.settlementChannelId !in channelMap {
        continue;
      }
      var channel := channelMap[task.settlementChannelId];
      var blackouts := ParseBlackoutWindows(channel.blackoutWindows);
      if OverlapsBlackout(task.startDate, task.endDate, blackouts) {
        violations := violations + [Violation(BlackoutOverlap, task.id, task.taskReference)];
      }
    }
    assert tasks[..|tasks|] == tasks;
  }

  // ---------------------------------------------------------------------------
  // checkRegulatoryHoldMoved
  // ---------------------------------------------------------------------------

  /** A pinned task whose original (by id) had another start or end has been moved. */
  function MovedViolation(t: SettlementTask, originalMap: map<Id, SettlementTask>): seq<Violation>
  {
    if !t.isRegulatoryHold || t.id !in originalMap then []
    else
      var original := originalMap[t.id];
      if t.startDate != original.startDate || t.endDate != original.endDate
      then [Violation(HoldMoved(original.startDate, original.endDate, t.startDate, t.endDate), t.id, t.taskReference)]
      else []
  }

  function MovedViolations(tasks: seq<SettlementTask>, originalMap: map<Id, SettlementTask>): seq<Violation>
  {
    Collect(tasks, (t: SettlementTask) => MovedViolation(t, originalMap))
  }

  method CheckRegulatoryHoldMoved(updatedTasks: seq<SettlementTask>, originalTasks: seq<SettlementTask>)
    returns (violations: seq<Violation>)
    ensures violations == MovedViolations(updatedTasks, TaskMap(originalTasks))
  {
    violations := [];
    var originalMap := TaskMap(originalTasks);
    for i := 0 to |updatedTasks|
      invariant violations == MovedViolations(updatedTasks[..i], originalMap)
    {
      assert updatedTasks[..i + 1][..i] == updatedTasks[..i];
      var task := updatedTasks[i];
      if !task.isRegulatoryHold || task.id !in originalMap {
        continue;
      }
      var original := originalMap[task.id];
      if task.startDate != original.startDate || task.endDate != original.endDate {
        violations := violations + [Violation(HoldMoved(original.startDate, original.endDate, task.startDate, task.endDate), task.id, task.taskReference)];
      }
    }
    assert updatedTasks[..|updatedTasks|] == updatedTasks;
  }

  // ---------------------------------------------------------------------------
  // checkConstraints
  // ---------------------------------------------------------------------------

  /** The five checks in report order; the moved-hold check only when original tasks are given. */
  function Violations(tasks: seq<SettlementTask>, channels: seq<SettlementChannel>,
                      originals: Option<seq<SettlementTask>>): seq<Violation>
  {
    var channelMap := ChannelMap(channels);
    DependencyViolations(tasks, TaskMap(tasks)) + OverlapViolations(tasks) +
    HoursViolations(tasks, channelMap) + BlackoutViolations(tasks, channelMap) +
    (if originals.Some? then MovedViolations(tasks, TaskMap(originals.value)) else [])
  }

  method CheckConstraints(tasks: seq<SettlementTask>, channels: seq<SettlementChannel>,
                          originalTasks: Option<seq<SettlementTask>>)
    returns (violations: seq<Violation>)
    ensures violations == Violations(tasks, channels, originalTasks)
  {
    var channelMap := ChannelMap(channels);
    var taskMap := TaskMap(tasks);
    violations := CheckDependencies(tasks, taskMap);
    var overlaps := CheckChannelOverlaps(tasks);
    violations := violations + overlaps;
    var hours := CheckOperatingHours(tasks, channelMap);
    violations := violations + hours;
    var blackouts := CheckBlackoutOverlaps(tasks, channelMap);
    violations := violations + blackouts;
    if originalTasks.Some? {
      var moved := CheckRegulatoryHoldMoved(tasks, originalTasks.value);
      violations := violations + moved;
    }
  }
}
