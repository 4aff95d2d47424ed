/**
 * The metrics of a reflow: how far end dates moved, how busy and how idle
 * each channel is over the span of its tasks, and which tasks end after
 * their trade order's target settlement date.
 */
module Metrics {
  import opened Types
  import opened DateUtils
  import opened CalendarProperties
  import opened Checker
  import CheckerProperties

  // ---------------------------------------------------------------------------
  // Delay and affected count
  // ---------------------------------------------------------------------------

  /** The minutes by which `t`'s end moved against its original; zero when it has no original. */
  function EndShift(t: SettlementTask, originalMap: map<Id, SettlementTask>): int
  {
    if t.id in originalMap then t.endDate - originalMap[t.id].endDate else 0
  }

  /** The end shifts of the tasks, summed in list order. */
  function TotalDelay(updated: seq<SettlementTask>, originalMap: map<Id, SettlementTask>): int
  {
    if updated == [] then 0
    else TotalDelay(updated[..|updated| - 1], originalMap) + EndShift(updated[|updated| - 1], originalMap)
  }

  /** The number of tasks whose end moved. */
  function Affected(updated: seq<SettlementTask>, originalMap: map<Id, SettlementTask>): (r: nat)
    ensures r <= |updated|
  {
    if updated == [] then 0
    else Affected(updated[..|updated| - 1], originalMap) + (if EndShift(updated[|updated| - 1], originalMap) != 0 then 1 else 0)
  }

  /** The first loop: each updated task with an original adds its end shift, and counts, when the shift is not zero. */
  method DelayAndAffected(updatedTasks: seq<SettlementTask>, originalMap: map<Id, SettlementTask>)
    returns (total: int, affected: nat)
    ensures total == TotalDelay(updatedTasks, originalMap)
    ensures affected == Affected(updatedTasks, originalMap)
  {
    total := 0;
    affected := 0;
    for i := 0 to |updatedTasks|
      invariant total == TotalDelay(updatedTasks[..i], originalMap)
      invariant affected == Affected(updatedTasks[..i], originalMap)
    {
      assert updatedTasks[..i + 1][..i] == updatedTasks[..i];
      var updated := updatedTasks[i];
      if updated.id !in originalMap {
        continue;
      }
      var delta := updated.endDate - originalMap[updated.id].endDate;
      if delta != 0 {
        total := total + delta;
        affected := affected + 1;
      }
    }
    assert updatedTasks[..|updatedTasks|] == updatedTasks;
  }

  /** No task is counted as affected exactly when no task's end moved. */
  lemma {:induction false} AffectedIff(updated: seq<SettlementTask>, originalMap: map<Id, SettlementTask>)
    ensures Affected(updated, originalMap) == 0 <==>
      forall i :: 0 <= i < |updated| ==> EndShift(updated[i], originalMap) == 0
  {
    if updated != [] {
      var init := updated[..|updated| - 1];
      AffectedIff(init, originalMap);
      assert forall i :: 0 <= i < |init| ==> init[i] == updated[i];
    }
  }

  /** When no end moved the total delay is zero. */
  lemma {:induction false} UnaffectedNoDelay(updated: seq<SettlementTask>, originalMap: map<Id, SettlementTask>)
    requires Affected(updated, originalMap) == 0
    ensures TotalDelay(updated, originalMap) == 0
  {
    if updated != [] {
      UnaffectedNoDelay(updated[..|updated| - 1], originalMap);
    }
  }

  /**
   * When no task ends earlier than its original, every affected task adds at
   * least one minute, so the delay is at least the affected count and is zero
   * only when nothing moved.
   */
  lemma {:induction false} DelayCoversAffected(updated: seq<SettlementTask>, originalMap: map<Id, SettlementTask>)
    requires forall i :: 0 <= i < |updated| ==> EndShift(updated[i], originalMap) >= 0
    ensures TotalDelay(updated, originalMap) >= Affected(updated, originalMap)
  {
    if updated != [] {
      var init := updated[..|updated| - 1];
      assert forall i :: 0 <= i < |init| ==> init[i] == updated[i];
      DelayCoversAffected(init, originalMap);
    }
  }

  // ---------------------------------------------------------------------------
  // One channel
  // ---------------------------------------------------------------------------

  /** The latest end of a non-empty group. */
  function LatestEnd(s: seq<SettlementTask>): (r: Instant)
    requires s != []
    ensures forall i :: 0 <= i < |s| ==> s[i].endDate <= r
    ensures exists i :: 0 <= i < |s| && s[i].endDate == r
  {
    if |s| == 1 then s[0].endDate
    else
      var init := s[..|s| - 1];
      var m := LatestEnd(init);
      assert forall i :: 0 <= i < |init| ==> init[i] == s[i];
      Max(m, s[|s| - 1].endDate)
  }

  /** The reduce that starts from the first task's end and keeps the later end. */
  method LatestEndOf(sorted: seq<SettlementTask>) returns (lastEnd: Instant)
    requires sorted != []
    ensures lastEnd == LatestEnd(sorted)
  {
    lastEnd := sorted[0].endDate;
    for j := 0 to |sorted|
      invariant j > 0 ==> lastEnd == LatestEnd(sorted[..j])
      invariant j == 0 ==> lastEnd == sorted[0].endDate
    {
      assert j > 0 ==> sorted[..j + 1][..j] == sorted[..j];
      var end := sorted[j].endDate;
      lastEnd := if end > lastEnd then end else lastEnd;
    }
    assert sorted[..|sorted|] == sorted;
  }

  /** The prep plus duration minutes of the group, summed. */
  function Processing(s: seq<SettlementTask>): int
  {
    if s == [] then 0 else Processing(s[..|s| - 1]) + EffectiveDuration(s[|s| - 1])
  }

  method ProcessingMinutes(channelTasks: seq<SettlementTask>) returns (processing: int)
    ensures processing == Processing(channelTasks)
  {
    processing := 0;
    for j := 0 to |channelTasks|
      invariant processing == Processing(channelTasks[..j])
    {
      assert channelTasks[..j + 1][..j] == channelTasks[..j];
      processing := processing + EffectiveDuration(channelTasks[j]);
    }
    assert channelTasks[..|channelTasks|] == channelTasks;
  }

  /**
   * The processing-to-available ratio as a whole number of hundredths: the
   * nearest one to the exact ratio, a half rounding up; zero when no minute
   * is available.
   */
  function Utilization(processing: int, available: int): (r: int)
    ensures available <= 0 ==> r == 0
    ensures available > 0 ==>
      200 * processing - available < 2 * available * r <= 200 * processing + available
  {
    if available > 0 then (200 * processing + available) / (2 * available) else 0
  }

  lemma MulAtLeast(a: int, x: int, y: int)
    requires a > 0 && x >= y
    ensures a * x >= a * y
  {
  }

  /** Processing that fits in the available minutes gives a utilization between 0 and 100 hundredths. */
  lemma UtilizationRange(processing: int, available: int)
    requires 0 <= processing <= available
    ensures 0 <= Utilization(processing, available) <= 100
  {
    var r := Utilization(processing, available);
    if available > 0 {
      if r > 100 {
        MulAtLeast(2 * available, r, 101);
      }
      if r < 0 {
        MulAtLeast(2 * available, 0, r + 1);
      }
    }
  }

  /** The operating minutes of the gap between two consecutive tasks, when the later one starts after the earlier ends. */
  function Gap(current: SettlementTask, next: SettlementTask, hours: seq<OperatingHourSlot>, bs: seq<Interval>): int
  {
    if next.startDate > current.endDate then CountAvailable(current.endDate, next.startDate, hours, bs) else 0
  }

  /** The gaps of consecutive pairs of a sorted group, summed. */
  function Idle(s: seq<SettlementTask>, hours: seq<OperatingHourSlot>, bs: seq<Interval>): int
  {
    if |s| < 2 then 0 else Idle(s[..|s| - 1], hours, bs) + Gap(s[|s| - 2], s[|s| - 1], hours, bs)
  }

  method IdleMinutes(sorted: seq<SettlementTask>, hours: seq<OperatingHourSlot>, bs: seq<Interval>) returns (idle: int)
    ensures idle == Idle(sorted, hours, bs)
  {
    idle := 0;
    var i := 0;
    while i < |sorted| - 1
      invariant 0 <= i && (|sorted| > 0 ==> i < |sorted|)
      invariant |sorted| > 0 ==> idle == Idle(sorted[..i + 1], hours, bs)
      invariant |sorted| == 0 ==> idle == 0
    {
      assert sorted[..i + 2][..i + 1] == sorted[..i + 1];
      var currentEnd := sorted[i].endDate;
      var nextStart := sorted[i + 1].startDate;
      if nextStart > currentEnd {
        var gapMinutes := CountAvailableMinutes(currentEnd, nextStart, hours, bs);
        idle := idle + gapMinutes;
      }
      i := i + 1;
    }
    if |sorted| > 0 {
      assert sorted[..i + 1] == sorted;
    }
  }

  /** Idle time is never negative. */
  lemma {:induction false} IdleNonNegative(s: seq<SettlementTask>, hours: seq<OperatingHourSlot>, bs: seq<Interval>)
    ensures Idle(s, hours, bs) >= 0
  {
    if |s| >= 2 {
      IdleNonNegative(s[..|s| - 1], hours, bs);
      CountNonNegative(s[|s| - 2].endDate, s[|s| - 1].startDate, hours, bs);
    }
  }

  /** A group where every task starts no later than the previous one ends has no idle time. */
  lemma {:induction false} IdleWithoutGaps(s: seq<SettlementTask>, hours: seq<OperatingHourSlot>, bs: seq<Interval>)
    requires forall i :: 0 <= i < |s| - 1 ==> s[i + 1].startDate <= s[i].endDate
    ensures Idle(s, hours, bs) == 0
  {
    if |s| >= 2 {
      var init := s[..|s| - 1];
      assert forall i :: 0 <= i < |init| ==> init[i] == s[i];
      IdleWithoutGaps(init, hours, bs);
    }
  }

  /**
   * A channel's utilization: its tasks' processing minutes against the
   * operating minutes from the earliest start to the latest end.
   */
  function ChannelUtilization(group: seq<SettlementTask>, channel: SettlementChannel): int
  {
    var sorted := SortByStartDate(group);
    assert |sorted| == |group| by {
      CheckerProperties.SortPerm(group);
      assert |multiset(sorted)| == |multiset(group)|;
    }
    if group == [] then 0
    else
      var available := CountAvailable(sorted[0].startDate, LatestEnd(sorted), channel.operatingHours,
                                      ParseBlackoutWindows(channel.blackoutWindows));
      Utilization(Processing(group), available)
  }

  /** A channel's idle minutes: the operating minutes of the gaps between its start-sorted tasks. */
  function ChannelIdle(group: seq<SettlementTask>, channel: SettlementChannel): int
  {
    Idle(SortByStartDate(group), channel.operatingHours, ParseBlackoutWindows(channel.blackoutWindows))
  }

  /** The body of the per-channel loop for a known channel with at least one task. */
  method MeasureChannel(channelTasks: seq<SettlementTask>, channel: SettlementChannel)
    returns (utilization: int, idle: int)
    requires channelTasks != []
    ensures utilization == ChannelUtilization(channelTasks, channel)
    ensures idle == ChannelIdle(channelTasks, channel)
  {
    var sorted := SortByStartDate(channelTasks);
    assert |sorted| == |channelTasks| by {
      CheckerProperties.SortPerm(channelTasks);
      assert |multiset(sorted)| == |multiset(channelTasks)|;
    }
    var firstStart := sorted[0].startDate;
    var lastEnd := LatestEndOf(sorted);
    var blackouts := ParseBlackoutWindows(channel.blackoutWindows);
    var availableMinutes := CountAvailableMinutes(firstStart, lastEnd, channel.operatingHours, blackouts);
    var processingMinutes := ProcessingMinutes(channelTasks);
    utilization := Utilization(processingMinutes, availableMinutes);
    idle := IdleMinutes(sorted, channel.operatingHours, blackouts);
  }

  // ---------------------------------------------------------------------------
  // All channels
  // ---------------------------------------------------------------------------

  /** A channel among `keys` is measured when it is known and has updated tasks. */
  predicate Measured(tasks: seq<SettlementTask>, channelMap: map<Id, SettlementChannel>, c: Id)
  {
    c in channelMap && OnChannel(tasks, c) != []
  }

  /** Utilization per measured channel among `keys`, entered key by key. */
  function UtilizationOver(tasks: seq<SettlementTask>, channelMap: map<Id, SettlementChannel>, keys: seq<Id>): map<Id, int>
  {
    if keys == [] then map[]
    else
      var m := UtilizationOver(tasks, channelMap, keys[..|keys| - 1]);
      var c := keys[|keys| - 1];
      if Measured(tasks, channelMap, c) then m[c := ChannelUtilization(OnChannel(tasks, c), channelMap[c])] else m
  }

  /** Idle minutes per measured channel among `keys`, entered key by key. */
  function IdleOver(tasks: seq<SettlementTask>, channelMap: map<Id, SettlementChannel>, keys: seq<Id>): map<Id, int>
  {
    if keys == [] then map[]
    else
      var m := IdleOver(tasks, channelMap, keys[..|keys| - 1]);
      var c := keys[|keys| - 1];
      if Measured(tasks, channelMap, c) then m[c := ChannelIdle(OnChannel(tasks, c), channelMap[c])] else m
  }

  /** The per-channel loop over the groups of updated tasks, channel by channel. */
  method ChannelMetrics(updatedTasks: seq<SettlementTask>, channelMap: map<Id, SettlementChannel>)
    returns (channelUtilization: map<Id, int>, channelIdleMinutes: map<Id, int>)
    ensures channelUtilization == UtilizationOver(updatedTasks, channelMap, ChannelOrder(updatedTasks))
    ensures channelIdleMinutes == IdleOver(updatedTasks, channelMap, ChannelOrder(updatedTasks))
  {
    var tasksByChannel, keys := GroupByChannel(updatedTasks);
    channelUtilization := map[];
    channelIdleMinutes := map[];
    for k := 0 to |keys|
      invariant channelUtilization == UtilizationOver(updatedTasks, channelMap, keys[..k])
      invariant channelIdleMinutes == IdleOver(updatedTasks, channelMap, keys[..k])
    {
      assert keys[..k + 1][..k] == keys[..k];
      var channelId := keys[k];
      var channelTasks := tasksByChannel[channelId];
      if channelId !in channelMap || |channelTasks| == 0 {
        continue;
      }
      var utilization, idle := MeasureChannel(channelTasks, channelMap[channelId]);
      channelUtilization := channelUtilization[channelId := utilization];
      channelIdleMinutes := channelIdleMinutes[channelId := idle];
    }
    assert keys[..|keys|] == keys;
  }

  /** The entries are exactly the measured channels among the keys, each with its own group's figures. */
  lemma {:induction false} OverEntries(tasks: seq<SettlementTask>, channelMap: map<Id, SettlementChannel>, keys: seq<Id>)
    ensures forall c :: c in UtilizationOver(tasks, channelMap, keys) <==> c in keys && Measured(tasks, channelMap, c)
    ensures forall c :: c in IdleOver(tasks, channelMap, keys) <==> c in keys && Measured(tasks, channelMap, c)
    ensures forall c :: c in UtilizationOver(tasks, channelMap, keys) ==>
      c in channelMap && UtilizationOver(tasks, channelMap, keys)[c] == ChannelUtilization(OnChannel(tasks, c), channelMap[c])
    ensures forall c :: c in IdleOver(tasks, channelMap, keys) ==>
      c in channelMap && IdleOver(tasks, channelMap, keys)[c] == ChannelIdle(OnChannel(tasks, c), channelMap[c])
  {
    if keys != [] {
      var init := keys[..|keys| - 1];
      OverEntries(tasks, channelMap, init);
      assert keys == init + [keys[|keys| - 1]];
    }
  }

  /** A channel has a non-empty group exactly when some task is on it. */
  lemma OnChannelNonEmpty(tasks: seq<SettlementTask>, c: Id)
    ensures OnChannel(tasks, c) != [] <==> exists i :: 0 <= i < |tasks| && tasks[i].settlementChannelId == c
  {
    CheckerProperties.OnChannelFacts(tasks, c);
    var g := OnChannel(tasks, c);
    if g != [] {
      assert multiset(g)[g[0]] > 0;
      assert multiset(tasks)[g[0]] > 0;
      var i :| 0 <= i < |tasks| && tasks[i] == g[0];
    }
    if exists i :: 0 <= i < |tasks| && tasks[i].settlementChannelId == c {
      var i :| 0 <= i < |tasks| && tasks[i].settlementChannelId == c;
      assert tasks[i] in multiset(tasks);
      assert multiset(g)[tasks[i]] > 0;
    }
  }

  /**
   * Utilization and idle time are reported for exactly the known channels
   * that have updated tasks, each from that channel's own tasks.
   */
  lemma MeasuredChannels(tasks: seq<SettlementTask>, channelMap: map<Id, SettlementChannel>)
    ensures forall c :: c in UtilizationOver(tasks, channelMap, ChannelOrder(tasks)) <==>
      c in channelMap && exists i :: 0 <= i < |tasks| && tasks[i].settlementChannelId == c
    ensures UtilizationOver(tasks, channelMap, ChannelOrder(tasks)).Keys == IdleOver(tasks, channelMap, ChannelOrder(tasks)).Keys
    ensures forall c :: c in UtilizationOver(tasks, channelMap, ChannelOrder(tasks)) ==>
      c in channelMap && c in IdleOver(tasks, channelMap, ChannelOrder(tasks)) &&
      UtilizationOver(tasks, channelMap, ChannelOrder(tasks))[c] == ChannelUtilization(OnChannel(tasks, c), channelMap[c]) &&
      IdleOver(tasks, channelMap, ChannelOrder(tasks))[c] == ChannelIdle(OnChannel(tasks, c), channelMap[c])
  {
    CheckerProperties.ChannelOrderFacts(tasks);
    OverEntries(tasks, channelMap, ChannelOrder(tasks));
    forall c ensures OnChannel(tasks, c) != [] <==> exists i :: 0 <= i < |tasks| && tasks[i].settlementChannelId == c {
      OnChannelNonEmpty(tasks, c);
    }
  }

  /** Every channel's idle time is non-negative. */
  lemma IdleOverNonNegative(tasks: seq<SettlementTask>, channelMap: map<Id, SettlementChannel>, keys: seq<Id>)
    ensures forall c :: c in IdleOver(tasks, channelMap, keys) ==> IdleOver(tasks, channelMap, keys)[c] >= 0
  {
    OverEntries(tasks, channelMap, keys);
    forall c | c in IdleOver(tasks, channelMap, keys) ensures IdleOver(tasks, channelMap, keys)[c] >= 0 {
      var channel := channelMap[c];
      IdleNonNegative(SortByStartDate(OnChannel(tasks, c)), channel.operatingHours, ParseBlackoutWindows(channel.blackoutWindows));
    }
  }

  // ---------------------------------------------------------------------------
  // SLA breaches
  // ---------------------------------------------------------------------------

  /** `t` belongs to a known trade order and ends after the order's settlement date. */
  predicate Late(t: SettlementTask, orderMap: map<Id, TradeOrder>)
  {
    t.tradeOrderId in orderMap && t.endDate > orderMap[t.tradeOrderId].settlementDate
  }

  /** The breach record of a task of a known trade order. */
  function BreachOf(t: SettlementTask, orderMap: map<Id, TradeOrder>): SlaBreach
    requires t.tradeOrderId in orderMap
  {
    var order := orderMap[t.tradeOrderId];
    SlaBreach(t.id, order.id, order.settlementDate, t.endDate, t.endDate - order.settlementDate)
  }

  /** The breaches of the tasks, in list order. */
  function Breaches(updated: seq<SettlementTask>, orderMap: map<Id, TradeOrder>): seq<SlaBreach>
  {
    if updated == [] then []
    else
      var t := updated[|updated| - 1];
      Breaches(updated[..|updated| - 1], orderMap) + (if Late(t, orderMap) then [BreachOf(t, orderMap)] else [])
  }

  method SlaBreaches(updatedTasks: seq<SettlementTask>, orderMap: map<Id, TradeOrder>) returns (slaBreaches: seq<SlaBreach>)
    ensures slaBreaches == Breaches(updatedTasks, orderMap)
  {
    slaBreaches := [];
    for i := 0 to |updatedTasks|
      invariant slaBreaches == Breaches(updatedTasks[..i], orderMap)
    {
      assert updatedTasks[..i + 1][..i] == updatedTasks[..i];
      var updated := updatedTasks[i];
      if updated.tradeOrderId !in orderMap {
        continue;
      }
      var tradeOrder := orderMap[updated.tradeOrderId];
      var targetDate := tradeOrder.settlementDate;
      var actualEnd := updated.endDate;
      if actualEnd > targetDate {
        var breachMinutes := actualEnd - targetDate;
        slaBreaches := slaBreaches + [SlaBreach(updated.id, tradeOrder.id, targetDate, actualEnd, breachMinutes)];
      }
    }
    assert updatedTasks[..|updatedTasks|] == updatedTasks;
  }

  /**
   * A breach is reported exactly for a late task, at most once per task, and
   * its minutes are the positive distance from the target to the actual end.
   */
  lemma {:induction false} BreachIn(updated: seq<SettlementTask>, orderMap: map<Id, TradeOrder>)
    ensures |Breaches(updated, orderMap)| <= |updated|
    ensures forall b :: b in Breaches(updated, orderMap) <==>
      exists i :: 0 <= i < |updated| && Late(updated[i], orderMap) && b == BreachOf(updated[i], orderMap)
    ensures forall b :: b in Breaches(updated, orderMap) ==>
      b.breachMinutes > 0 && b.breachMinutes == b.actualEndDate - b.targetDate
  {
    if updated != [] {
      var init := updated[..|updated| - 1];
      BreachIn(init, orderMap);
      assert forall i :: 0 <= i < |init| ==> init[i] == updated[i];
      var t := updated[|updated| - 1];
      forall b | exists i :: 0 <= i < |updated| && Late(updated[i], orderMap) && b == BreachOf(updated[i], orderMap)
        ensures b in Breaches(updated, orderMap)
      {
        var i :| 0 <= i < |updated| && Late(updated[i], orderMap) && b == BreachOf(updated[i], orderMap);
        if i < |init| {
          assert b in Breaches(init, orderMap);
        }
      }
    }
  }

  /** No breach is reported exactly when no task of a known trade order ends after its settlement date. */
  lemma NoBreachIff(updated: seq<SettlementTask>, orderMap: map<Id, TradeOrder>)
    ensures Breaches(updated, orderMap) == [] <==> forall i :: 0 <= i < |updated| ==> !Late(updated[i], orderMap)
  {
    BreachIn(updated, orderMap);
    var bs := Breaches(updated, orderMap);
    if bs != [] {
      assert bs[0] in bs;
    }
    forall i | 0 <= i < |updated| && Late(updated[i], orderMap) ensures bs != [] {
      assert BreachOf(updated[i], orderMap) in bs;
    }
  }

  // ---------------------------------------------------------------------------
  // computeMetrics
  // ---------------------------------------------------------------------------

  /** The metrics of updated tasks against the original ones. */
  function MetricsOf(originalTasks: seq<SettlementTask>, updatedTasks: seq<SettlementTask>,
                     channels: seq<SettlementChannel>, tradeOrders: seq<TradeOrder>): ReflowMetrics
  {
    var originalMap := TaskMap(originalTasks);
    var channelMap := ChannelMap(channels);
    var keys := ChannelOrder(updatedTasks);
    ReflowMetrics(
      TotalDelay(updatedTasks, originalMap),
      Affected(updatedTasks, originalMap),
      UtilizationOver(updatedTasks, channelMap, keys),
      IdleOver(updatedTasks, channelMap, keys),
      Breaches(updatedTasks, OrderMap(tradeOrders)))
  }

  method ComputeMetrics(originalTasks: seq<SettlementTask>, updatedTasks: seq<SettlementTask>,
                        channels: seq<SettlementChannel>, tradeOrders: seq<TradeOrder>)
    returns (r: ReflowMetrics)
    ensures r == MetricsOf(originalTasks, updatedTasks, channels, tradeOrders)
  {
    var originalMap := TaskMap(originalTasks);
    var tradeOrderMap := OrderMap(tradeOrders);
    var channelMap := ChannelMap(channels);
    var totalDelayMinutes, tasksAffected := DelayAndAffected(updatedTasks, originalMap);
    var channelUtilization, channelIdleMinutes := ChannelMetrics(updatedTasks, channelMap);
    var slaBreaches := SlaBreaches(updatedTasks, tradeOrderMap);
    r := ReflowMetrics(totalDelayMinutes, tasksAffected, channelUtilization, channelIdleMinutes, slaBreaches);
  }

  /** Metrics of a list with unique ids against itself: no delay and nothing affected. */
  lemma UnchangedMetrics(tasks: seq<SettlementTask>, channels: seq<SettlementChannel>, tradeOrders: seq<TradeOrder>)
    requires DistinctIds(tasks)
    ensures MetricsOf(tasks, tasks, channels, tradeOrders).totalDelayMinutes == 0
    ensures MetricsOf(tasks, tasks, channels, tradeOrders).tasksAffected == 0
  {
    AffectedIff(tasks, TaskMap(tasks));
    UnaffectedNoDelay(tasks, TaskMap(tasks));
  }
}
