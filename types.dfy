/**
 * Record shapes of the settlement scheduling engine.
 *
 * Instants are whole minutes since 1970-01-01T00:00Z (UTC). The ISO-8601 text
 * of the original records is not modelled: two instants are equal exactly when
 * their minute counts are equal.
 */
module Types {

  datatype Option<+T> = None | Some(value: T)

  /** Minutes since the epoch, UTC. */
  type Instant = int

  /** A document id (`docId`). */
  type Id = string

  /** An hour of the day, 0-23, as a recurring operating-hour slot states it. */
  type Hour = h: int | 0 <= h <= 23

  /** One recurring weekly operating-hour slot: `[startHour, endHour)` on `dayOfWeek` (0 = Sunday). */
  datatype OperatingHourSlot = OperatingHourSlot(dayOfWeek: int, startHour: Hour, endHour: Hour)

  /** An absolute blackout window of a channel. */
  datatype BlackoutWindow = BlackoutWindow(startDate: Instant, endDate: Instant, reason: Option<string>)

  /** A concrete half-open interval `[start, end)` of instants. */
  datatype Interval = Interval(start: Instant, end: Instant)

  datatype TaskType =
    | MarginCheck | FundTransfer | Disbursement | ComplianceScreen | Reconciliation | RegulatoryHoldTask

  /** A settlement task (the `data` of a `settlementTask` document, with its `docId`). */
  datatype SettlementTask = SettlementTask(
    id: Id,
    taskReference: string,
    tradeOrderId: Id,
    settlementChannelId: Id,
    startDate: Instant,
    endDate: Instant,
    durationMinutes: int,
    isRegulatoryHold: bool,
    dependsOnTaskIds: seq<Id>,
    taskType: TaskType,
    prepTimeMinutes: Option<int>)

  /** A settlement channel: its recurring weekly hours and its absolute blackouts. */
  datatype SettlementChannel = SettlementChannel(
    id: Id,
    name: string,
    operatingHours: seq<OperatingHourSlot>,
    blackoutWindows: seq<BlackoutWindow>)

  /** A trade order; only its target `settlementDate` is used by the engine. */
  datatype TradeOrder = TradeOrder(
    id: Id,
    tradeOrderNumber: string,
    instrumentId: string,
    quantity: int,
    settlementDate: Instant)

  /** A task ending after its trade order's target settlement date. */
  datatype SlaBreach = SlaBreach(
    taskId: Id,
    tradeOrderId: Id,
    targetDate: Instant,
    actualEndDate: Instant,
    breachMinutes: int)

  /**
   * The metrics of one reflow. `channelUtilization` holds each channel's
   * processing-to-available ratio in hundredths (37 stands for 0.37).
   */
  datatype ReflowMetrics = ReflowMetrics(
    totalDelayMinutes: int,
    tasksAffected: nat,
    channelUtilization: map<Id, int>,
    channelIdleMinutes: map<Id, int>,
    slaBreaches: seq<SlaBreach>)

  /** Prep time (absent means zero) followed by processing time. */
  function EffectiveDuration(t: SettlementTask): int
  {
    (if t.prepTimeMinutes.Some? then t.prepTimeMinutes.value else 0) + t.durationMinutes
  }

  /** The ids of a task list, in list order. */
  function TaskIds(tasks: seq<SettlementTask>): (ids: seq<Id>)
    ensures |ids| == |tasks|
    ensures forall i :: 0 <= i < |tasks| ==> ids[i] == tasks[i].id
  {
    if tasks == [] then [] else [tasks[0].id] + TaskIds(tasks[1..])
  }

  /** `new Map(tasks.map(t => [t.docId, t]))`: a later task with the same id replaces an earlier one. */
  function TaskMap(tasks: seq<SettlementTask>): (m: map<Id, SettlementTask>)
    ensures m.Keys == set i | 0 <= i < |tasks| :: tasks[i].id
    ensures forall id :: id in m ==> m[id].id == id && m[id] in tasks
    ensures DistinctIds(tasks) ==> forall i :: 0 <= i < |tasks| ==> m[tasks[i].id] == tasks[i]
  {
    if tasks == [] then map[]
    else
      var m0 := TaskMap(tasks[..|tasks| - 1]);
      TaskMapSnoc(tasks, tasks[..|tasks| - 1], m0);
      m0[tasks[|tasks| - 1].id := tasks[|tasks| - 1]]
  }

  /** The step behind TaskMap: the map of a list is the map of all but its last task, updated with the last. */
  lemma TaskMapSnoc(tasks: seq<SettlementTask>, init: seq<SettlementTask>, m0: map<Id, SettlementTask>)
    requires tasks != [] && init == tasks[..|tasks| - 1]
    requires m0.Keys == set i | 0 <= i < |init| :: init[i].id
    requires forall id :: id in m0 ==> m0[id].id == id && m0[id] in init
    requires DistinctIds(init) ==> forall i :: 0 <= i < |init| ==> m0[init[i].id] == init[i]
    ensures var m := m0[tasks[|tasks| - 1].id := tasks[|tasks| - 1]];
      && m.Keys == (set i | 0 <= i < |tasks| :: tasks[i].id)
      && (forall id :: id in m ==> m[id].id == id && m[id] in tasks)
      && (DistinctIds(tasks) ==> forall i :: 0 <= i < |tasks| ==> m[tasks[i].id] == tasks[i])
  {
    var n := |tasks| - 1;
    var last := tasks[n];
    var m := m0[last.id := last];
    assert forall i :: 0 <= i < n ==> init[i] == tasks[i];
    assert m.Keys == (set i | 0 <= i < |tasks| :: tasks[i].id) by {
      forall id | id in m.Keys ensures id in (set i | 0 <= i < |tasks| :: tasks[i].id) {
        if id != last.id {
          var i :| 0 <= i < n && init[i].id == id;
          assert tasks[i].id == id;
        }
      }
      forall id | id in (set i | 0 <= i < |tasks| :: tasks[i].id) ensures id in m.Keys {
        var i :| 0 <= i < |tasks| && tasks[i].id == id;
        if i < n {
          assert init[i].id == id;
        }
      }
    }
    forall id | id in m ensures m[id].id == id && m[id] in tasks {
      if id != last.id {
        var k :| 0 <= k < n && init[k] == m0[id];
        assert tasks[k] == m0[id];
      }
    }
    if DistinctIds(tasks) {
      assert DistinctIds(init) by {
        forall i, j | 0 <= i < j < n ensures init[i].id != init[j].id {
          assert init[i] == tasks[i] && init[j] == tasks[j];
        }
      }
      forall i | 0 <= i < |tasks| ensures m[tasks[i].id] == tasks[i] {
        if i < n {
          assert tasks[i].id != last.id;
          assert m0[init[i].id] == init[i];
        }
      }
    }
  }

  /**
   * `new Map(xs.map(x => [key(x), x]))`: keyed by exactly the keys of the list,
   * each entry one of the list's elements with that key; a later element with
   * the same key replaces an earlier one.
   */
  function ById<T>(xs: seq<T>, key: T -> Id): (m: map<Id, T>)
    ensures m.Keys == set i | 0 <= i < |xs| :: key(xs[i])
    ensures forall id :: id in m ==> key(m[id]) == id && m[id] in xs
    ensures |xs| > 0 ==> m[key(xs[|xs| - 1])] == xs[|xs| - 1]
  {
    if xs == [] then map[]
    else
      var init := xs[..|xs| - 1];
      var last := xs[|xs| - 1];
      var m0 := ById(init, key);
      assert forall i :: 0 <= i < |init| ==> init[i] == xs[i];
      m0[key(last) := last]
  }

  /** The channels by id. */
  function ChannelMap(channels: seq<SettlementChannel>): map<Id, SettlementChannel>
  {
    ById(channels, (c: SettlementChannel) => c.id)
  }

  /** The trade orders by id. */
  function OrderMap(orders: seq<TradeOrder>): map<Id, TradeOrder>
  {
    ById(orders, (o: TradeOrder) => o.id)
  }

  /** No two tasks share an id. */
  predicate DistinctIds(tasks: seq<SettlementTask>)
  {
    forall i, j :: 0 <= i < j < |tasks| ==> tasks[i].id != tasks[j].id
  }
}
