# Settlement reflow engine, modelled in Dafny

This project models the scheduling engine of the settlement "reflow" system.

The engine takes three inputs:

- **Settlement tasks**: each belongs to a trade order and a settlement channel. Each has a start, an end, a duration, an optional prep time and a list of upstream tasks. Some are regulatory holds that may never move.
- **Settlement channels**: each has recurring weekly operating hours and absolute blackout windows.
- **Trade orders**: each has a target settlement date.

Every reflow does the following:

1. It orders the tasks by dependency.
2. It pushes each movable task to the first operating instant its dependencies and its channel allow.
3. It checks the result against five hard constraints.
4. It measures delay, channel utilization, idle time and deadline breaches.
5. It explains the changes.

The project has one module per source file, plus a module of proofs beside each of the larger ones.

| module | file | models |
|---|---|---|
| `Types` | `types.dfy` | the record shapes and the id-keyed lookup maps |
| `DateUtils` | `date_utils.dfy` | the calendar: windows of a day, blackout subtraction, next slot, end date, available minutes |
| `CalendarProperties` | `calendar_properties.dfy` | what the calendar functions mean |
| `Dag` | `dag.dfy` | the graph builder and Kahn's sort with its sorted merge, with their proofs |
| `Scheduler` | `scheduler.dfy` | the greedy scheduler and the reason builder |
| `ScheduleProperties` | `scheduler_properties.dfy` | what the scheduler guarantees |
| `Checker` | `checker.dfy` | the five constraint checks |
| `CheckerProperties` | `checker_properties.dfy` | what the checks report, and the scheduler output against them |
| `Metrics` | `metrics.dfy` | the metrics |
| `Reflow` | `reflow.dfy` | the service and the explanation builder |

**Time.**

- An instant is a whole number of minutes since 1970-01-01T00:00 UTC.
- A day is `t / 1440`, using floor division.
- Its weekday (0 = Sunday) is `(day + 4) % 7`. This is luxon's ISO weekday with 7 mapped to 0.

**Style.**

- Every loop of the source is a method with a loop and its invariants. Each such method is proved to compute a specification function.
- What the source promises is proved as lemmas about those functions:
  - the calendar round trip;
  - the sorter's topological, greedy and permutation guarantees;
  - that the scheduler never moves a pinned task;
  - that the scheduler never double-books a channel;
  - that the checker reports a violation exactly when a constraint fails.
- A few long loop bodies are split into a helper method, which keeps each proof small: `MergeStep`, `AddDependency`, `KahnIteration`, `AddDay`, `ScheduleOne`.
- Records are values. A deep copy (`structuredClone`) is the identity, and an in-place update of a cloned record is a map update.

**Source behaviour the model keeps:**

- **Duplicate task ids.** Two tasks with the same id make the sorter emit fewer ids than there are tasks. The engine then reports a cycle, whose leftover list can be empty. Hence `DistinctIds` in the success conditions and `cycle != []` in the `Stuck` conclusions.
- **Overlapping slots.** Operating-hour slots of one weekday may overlap. `computeEndDate` and `countAvailableMinutes` then count the shared minutes twice. So the round trip between the two is proved for calendars whose same-day slots do not overlap (`Regular`): `CalendarProperties.RoundTrip`, `CalendarProperties.EndFromCount`, `ScheduleProperties.PlacedRoundTrip` and `CheckerProperties.PlacedOnHours` need it, and `CalendarProperties.WindowsChain` states what it gives. `findNextOperatingSlot` never skips an available instant however the slots overlap, because a day's windows are sorted by start. Its minimality and idempotence are therefore proved for every calendar.
- **Overlapping holds.** Regulatory holds are never moved, even when they overlap a blackout or each other. The blackout overlap is reported as an error. Two overlapping holds on one channel show up as a channel-overlap violation.
- **The doc comment of `checkChannelOverlaps`** speaks of non-hold tasks. The code compares all tasks of a channel, and so does the model.

## Model

| member | source | states |
|---|---|---|
| `Types.TaskIds` | packages/engine/src/reflow/scheduler.ts:215 | the ids of a task list, one per task, position by position |
| `Types.TaskMap` | packages/engine/src/reflow/dag.ts:52 | keyed by exactly the task ids, each entry carrying its own id and drawn from the list; with unique ids every task is its own entry |
| `Types.ById` | packages/engine/src/reflow/scheduler.ts:42 | the id map of a list (used for the task, channel and trade-order maps): keyed by exactly the keys of the list, each entry an element of the list with that key, and the last element with a key wins |
| `DateUtils.Weekday` | packages/engine/src/utils/date-utils.ts:12-14 | luxon's weekday with Sunday moved to 0 is a weekday in 0..6 and equals (day + 4) mod 7 |
| `DateUtils.CeilDiv` | packages/engine/src/utils/date-utils.ts:173 | the ceiling of the quotient: the least q with n <= q * k |
| `DateUtils.GetOperatingWindowsForDate` | packages/engine/src/utils/date-utils.ts:8-29 | the loop over slots and the sort compute the windows of the instant's day |
| `CalendarProperties.WindowsForDayProperties` | packages/engine/src/utils/date-utils.ts:16-28 | the windows of a day are a permutation of the matching slots' windows, exactly the positive windows of slots on that weekday, sorted by start, inside the day, and none when no slot matches |
| `CalendarProperties.WindowsChain` | packages/engine/src/utils/date-utils.ts:16-28 | for slots that do not overlap, the sorted windows follow one another without overlap |
| `DateUtils.ParseBlackoutWindows` | packages/engine/src/utils/date-utils.ts:34-41 | one interval per blackout, position by position, from its start to its end |
| `DateUtils.SubtractBlackouts` | packages/engine/src/utils/date-utils.ts:47-70 | the nested loop computes the subtraction of the blackouts, one blackout at a time |
| `DateUtils.CutWindows` | packages/engine/src/utils/date-utils.ts:53-67 | the inner loop cuts one blackout out of every window in order |
| `DateUtils.KeepPositive` | packages/engine/src/utils/date-utils.ts:60-64 | the pieces of a difference with positive length are kept in order |
| `CalendarProperties.SubtractInside` | packages/engine/src/utils/date-utils.ts:51-69 | every remaining window lies inside some original window |
| `CalendarProperties.SubtractPositive` | packages/engine/src/utils/date-utils.ts:60-63 | from positive windows only positive windows remain |
| `CalendarProperties.SubtractChain` | packages/engine/src/utils/date-utils.ts:51-69 | subtraction keeps non-overlapping ordered windows non-overlapping and ordered |
| `CalendarProperties.SubtractCovered` | packages/engine/src/utils/date-utils.ts:51-69 | an instant is in a remaining window iff it was in an original window and in no blackout of positive length |
| `CalendarProperties.SubtractAvoids` | packages/engine/src/utils/date-utils.ts:51-69 | every remaining window is disjoint from every blackout of positive length |
| `CalendarProperties.SubtractKeeps` | packages/engine/src/utils/date-utils.ts:55-56 | a window that overlaps no blackout is kept unchanged |
| `CalendarProperties.AvailableIff` | packages/engine/src/utils/date-utils.ts:87-88 | an instant is available iff a slot of its weekday contains it and no blackout of positive length does |
| `DateUtils.FindNextOperatingSlot` | packages/engine/src/utils/date-utils.ts:79-103 | the day loop computes the next-slot function for at most maxDays days |
| `DateUtils.ScanDay` | packages/engine/src/utils/date-utils.ts:89-98 | the window loop returns the current instant inside a window, else the first later window start, else nothing |
| `CalendarProperties.FindInDaySound` | packages/engine/src/utils/date-utils.ts:89-98 | a day's answer is at or after the current instant, inside a window, and either the current instant or that window's start |
| `CalendarProperties.FindInDayNone` | packages/engine/src/utils/date-utils.ts:89-98 | no answer in a day means every window ends at or before the current instant |
| `CalendarProperties.FindInDayPast` | packages/engine/src/utils/date-utils.ts:89-98 | when every positive window has ended, the day gives no answer |
| `CalendarProperties.FindInDayFirst` | packages/engine/src/utils/date-utils.ts:89-98 | with ordered non-overlapping windows, no window covers an instant between the current one and the answer |
| `CalendarProperties.FindInDayAt` | packages/engine/src/utils/date-utils.ts:89-98 | with ordered non-overlapping windows, a covered instant is its own answer |
| `CalendarProperties.SubtractConcat` | packages/engine/src/utils/date-utils.ts:51-69 | the blackouts are cut out of each window separately, so the windows left of a list are those left of each part, in order |
| `CalendarProperties.FindInDayConcat` | packages/engine/src/utils/date-utils.ts:89-98 | the scan of two window lists in a row takes the first list's entry, or else the second's |
| `CalendarProperties.SortedFirst` | packages/engine/src/utils/date-utils.ts:86-98 | for start-sorted windows, however they overlap, no instant between the scan point and the entry found is in any window left after the blackouts |
| `CalendarProperties.SortedAt` | packages/engine/src/utils/date-utils.ts:89-92 | for start-sorted windows, however they overlap, a scan point inside a window left after the blackouts is returned as it is |
| `CalendarProperties.NextSlotSound` | packages/engine/src/utils/date-utils.ts:85-102 | a found slot is at or after the starting instant, available, within maxDays days, and either the starting instant or a window start |
| `CalendarProperties.NextSlotNone` | packages/engine/src/utils/date-utils.ts:86-102 | no slot means no available instant from the start to the end of the last scanned day |
| `CalendarProperties.NextSlotMinimal` | packages/engine/src/utils/date-utils.ts:85-102 | no instant between the start and the found slot is available |
| `CalendarProperties.NextSlotAtAvailable` | packages/engine/src/utils/date-utils.ts:91-92 | an available instant is its own next slot |
| `CalendarProperties.NextSlotIdempotent` | packages/engine/src/utils/date-utils.ts:79-103 | the next slot of a found slot is that slot itself |
| `CalendarProperties.ClosedAtDayEnd` | packages/engine/src/utils/date-utils.ts:91-100 | an instant at or past every window end of its day, such as a window's own end, is not available, and the search resumes at the next day's start in a later day |
| `DateUtils.ComputeEndDate` | packages/engine/src/utils/date-utils.ts:114-159 | the early return and the day loop compute the end-date function |
| `DateUtils.ConsumeWindows` | packages/engine/src/utils/date-utils.ts:132-152 | the window loop of one day either finishes the duration at an instant or carries the remaining minutes over |
| `CalendarProperties.EndFromSound` | packages/engine/src/utils/date-utils.ts:128-156 | a positive remainder ends after its start, just after an available minute, within the scanned days |
| `CalendarProperties.EndFromCount` | packages/engine/src/utils/date-utils.ts:128-156 | for non-overlapping slots, the available minutes from the start to the end found equal the remainder consumed |
| `CalendarProperties.EndDateBounds` | packages/engine/src/utils/date-utils.ts:121-158 | a duration of at most zero returns the start; otherwise the end is later than the start, follows an available minute, and lies within maxDays days |
| `CalendarProperties.EndDateNoHours` | packages/engine/src/utils/date-utils.ts:158 | with no operating hours a positive duration never ends |
| `CalendarProperties.RoundTrip` | packages/engine/src/utils/date-utils.ts:128-155 | for non-overlapping slots, counting available minutes from a start to its computed end gives back the duration, or 0 for a duration of at most zero |
| `DateUtils.ClipMinutes` | packages/engine/src/utils/date-utils.ts:180-184 | a window's clipped minutes are never negative |
| `DateUtils.CountAvailableMinutes` | packages/engine/src/utils/date-utils.ts:165-192 | the capped day loop with its early break computes the sum of clipped window minutes of every day from the start's day to the end's day |
| `DateUtils.DayCapSuffices` | packages/engine/src/utils/date-utils.ts:173 | the cap of ceil(days) + 1 iterations reaches the day of the end instant |
| `DateUtils.AddDay` | packages/engine/src/utils/date-utils.ts:176-188 | one iteration adds the current day's minutes to the running total |
| `DateUtils.DayMinutes` | packages/engine/src/utils/date-utils.ts:176-185 | the clipped minutes of one day, and zero for an empty range |
| `DateUtils.ClipWindows` | packages/engine/src/utils/date-utils.ts:179-185 | the window loop sums the clipped minutes of the day's windows |
| `CalendarProperties.CountNonNegative` | packages/engine/src/utils/date-utils.ts:171-191 | available minutes are never negative, and are zero when the end is not after the start |
| `DateUtils.OverlapsBlackout` | packages/engine/src/utils/date-utils.ts:197-204 | true iff the task interval overlaps some blackout |
| `CalendarProperties.OverlapsIffShared` | packages/engine/src/utils/date-utils.ts:202-203 | two positive intervals overlap iff they share an instant; touching ends do not overlap |
| `Dag.Keys` | packages/engine/src/reflow/dag.ts:21-25 | the map's key order holds each task id exactly once |
| `Dag.DepEdgesMember` | packages/engine/src/reflow/dag.ts:31-35 | a task's edges are exactly those from its listed dependencies that are known task ids |
| `Dag.EdgesMember` | packages/engine/src/reflow/dag.ts:29-36 | an edge A -> B exists iff B lists A and A is a task id, so unknown dependencies give no edge |
| `Dag.InitGraph` | packages/engine/src/reflow/dag.ts:21-25 | every task id gets an empty neighbour list and in-degree zero |
| `Dag.AddEdge` | packages/engine/src/reflow/dag.ts:33-34 | adding an edge appends its target to the source's neighbours and adds one to the target's in-degree |
| `Dag.AddDependency` | packages/engine/src/reflow/dag.ts:31-35 | one dependency either adds its edge or is skipped as unknown |
| `Dag.AddTaskEdges` | packages/engine/src/reflow/dag.ts:30-36 | the dependency loop of one task adds exactly that task's edges |
| `Dag.BuildGraph` | packages/engine/src/reflow/dag.ts:14-39 | the neighbours of each id are the targets of its edges, in edge order, and its in-degree is the number of edges into it |
| `Dag.CompareByStart` | packages/engine/src/reflow/dag.ts:114-124 | negative iff a starts earlier, zero iff the starts are equal |
| `Dag.SortIdsFacts` | packages/engine/src/reflow/dag.ts:107-112 | the sort by start date gives a start-ordered permutation |
| `Dag.SortIdsStable` | packages/engine/src/reflow/dag.ts:107-112 | two ids with equal starts keep their relative order |
| `Dag.CollectRoots` | packages/engine/src/reflow/dag.ts:55-58 | the initial queue holds the ids of in-degree zero, in key order |
| `Dag.DecrementNeighbors` | packages/engine/src/reflow/dag.ts:66-74 | every neighbour loses one degree per occurrence; the new roots are exactly the neighbours reaching zero, each once |
| `Dag.MergeByStart` | packages/engine/src/reflow/dag.ts:79-92 | the two-pointer loop computes the merge of queue and new roots |
| `Dag.MergeStep` | packages/engine/src/reflow/dag.ts:82-88 | one comparison emits exactly one id and keeps the rest of the merge to come |
| `Dag.PushAll` | packages/engine/src/reflow/dag.ts:89-90 | the rest of a sequence is appended in order |
| `Dag.MergeMultiset` | packages/engine/src/reflow/dag.ts:79-92 | the merge holds exactly the ids of both inputs |
| `Dag.MergeSorted` | packages/engine/src/reflow/dag.ts:79-92 | merging two start-ordered sequences gives a start-ordered sequence |
| `Dag.MergeQueuedFirst` | packages/engine/src/reflow/dag.ts:82-88 | on equal starts an already queued id goes before a new root |
| `Dag.Leftover` | packages/engine/src/reflow/dag.ts:98-100 | the leftover ids are exactly the task ids not emitted |
| `Dag.LeftoverWaits` | packages/engine/src/reflow/dag.ts:96-102 | when the queue runs dry, every leftover task waits on another leftover task |
| `Dag.StuckBlocksOrder` | packages/engine/src/reflow/dag.ts:96-102 | a set of tasks each waiting on another member admits no dependency order |
| `Dag.StartKahn` | packages/engine/src/reflow/dag.ts:49-59 | the graph and the sorted roots establish the loop invariant with nothing emitted |
| `Dag.KahnIteration` | packages/engine/src/reflow/dag.ts:63-93 | one iteration emits the queue head and keeps the loop invariant |
| `Dag.RunKahn` | packages/engine/src/reflow/dag.ts:62-94 | the loop ends with an empty queue and the invariant holding |
| `Dag.Conclude` | packages/engine/src/reflow/dag.ts:96-104 | after the loop the emitted ids are distinct, topological and greedy by start; all emitted means unique ids, a permutation and an order exists; otherwise the leftovers are stuck and no order exists |
| `Dag.TopologicalSort` | packages/engine/src/reflow/dag.ts:48-105 | empty input gives an empty order; every known dependency precedes its dependant; a task that was ready no later than another is taken first when it starts earlier; success iff every task is emitted, and then the order is a permutation of the ids; a cycle error carries exactly the leftover ids in input order, which are stuck; with unique ids success holds iff a dependency order exists |
| `Scheduler.Raise` | packages/engine/src/reflow/scheduler.ts:112-115 | a watermark only moves up: it becomes the larger of its old value and the new end |
| `Scheduler.SeedHoldWatermarks` | packages/engine/src/reflow/scheduler.ts:59-67 | the pre-seeding loop computes the hold watermarks |
| `ScheduleProperties.SeedHoldsFacts` | packages/engine/src/reflow/scheduler.ts:59-67 | every hold's end is at most its channel's seeded watermark, and every seeded watermark is the end of a hold on that channel |
| `Scheduler.BuildChannelBlackouts` | packages/engine/src/reflow/scheduler.ts:46-49 | the loop computes the per-channel blackout intervals |
| `ScheduleProperties.ChannelBlackoutsFacts` | packages/engine/src/reflow/scheduler.ts:46-49 | there are blackouts for exactly the known channels, each the parsed windows of that channel |
| `Scheduler.CloneTasks` | packages/engine/src/reflow/scheduler.ts:73-76 | the copies are the task map |
| `Scheduler.RunUpdated` | packages/engine/src/reflow/scheduler.ts:73-76 | throughout the loop there is one copy per task id, carrying its own id |
| `Scheduler.LatestDependencyEnd` | packages/engine/src/reflow/scheduler.ts:127-133 | the dependency loop computes the latest recorded dependency end, or the original start when none is later |
| `ScheduleProperties.DependencyEndFacts` | packages/engine/src/reflow/scheduler.ts:127-133 | the result is at least the original start and every recorded dependency end, and is one of them |
| `Scheduler.DepRef` | packages/engine/src/reflow/scheduler.ts:236-237 | the reference of the first task with the id, or the id itself when there is none |
| `Scheduler.BuildReason` | packages/engine/src/reflow/scheduler.ts:221-257 | the reason loop computes the reason clauses |
| `ScheduleProperties.DepReasonsFacts` | packages/engine/src/reflow/scheduler.ts:233-240 | the dependency clauses name exactly the dependencies recorded as ending after the original start |
| `ScheduleProperties.ReasonsFacts` | packages/engine/src/reflow/scheduler.ts:229-254 | the reason is never empty; it has a dependency clause, the channel clause and the snap clause exactly when their conditions hold; it is "cascading" iff none holds |
| `Scheduler.RecordChanges` | packages/engine/src/reflow/scheduler.ts:175-203 | the change records of a placed task are appended |
| `ScheduleProperties.ChangesFacts` | packages/engine/src/reflow/scheduler.ts:175-203 | a start record exists iff the start moved and an end record iff the end moved; each has delta = new - old, the old and new dates, and a non-empty reason |
| `Scheduler.PlacementOf` | packages/engine/src/reflow/scheduler.ts:121-168 | a movable task on a known channel gets no slot, no end, or a start and an end |
| `ScheduleProperties.PlacedBounds` | packages/engine/src/reflow/scheduler.ts:121-168 | a placed start is at or after the original start, every recorded dependency end and the channel watermark; it is the next slot of the earliest start and is available; the end is the computed end date of prep plus duration |
| `Scheduler.PlaceTask` | packages/engine/src/reflow/scheduler.ts:121-211 | the steps for a movable task on a known channel compute one step of the loop |
| `Scheduler.ScheduleOne` | packages/engine/src/reflow/scheduler.ts:78-211 | one loop iteration computes one step |
| `ScheduleProperties.StepEffect` | packages/engine/src/reflow/scheduler.ts:78-211 | a step changes only the task's own copy, and only when placed; it records the task's end, appends its change records and appends its errors |
| `ScheduleProperties.StepWatermark` | packages/engine/src/reflow/scheduler.ts:209-210 | a step never lowers a watermark, and a placement sets its channel's watermark to its end |
| `ScheduleProperties.WatermarkMonotone` | packages/engine/src/reflow/scheduler.ts:112-210 | every watermark at a point of the loop is at most its final value |
| `ScheduleProperties.PinnedUntouched` | packages/engine/src/reflow/scheduler.ts:99-119 | every regulatory hold's copy equals its original, and no change record is for a hold |
| `ScheduleProperties.HoldsBelowWatermark` | packages/engine/src/reflow/scheduler.ts:59-67 | at every point of the loop each hold's end is at most its channel's watermark |
| `ScheduleProperties.PlacedAfterHolds` | packages/engine/src/reflow/scheduler.ts:135-139 | a placed task starts at or after the end of every hold on its channel |
| `ScheduleProperties.PlacedNoOverlap` | packages/engine/src/reflow/scheduler.ts:136-139 | a later placement on a channel starts at or after the end of an earlier placement on it |
| `ScheduleProperties.PlacedAtSlot` | packages/engine/src/reflow/scheduler.ts:141-145 | a placed start is its own next slot on its channel, however the channel's slots overlap |
| `ScheduleProperties.PlacedRoundTrip` | packages/engine/src/reflow/scheduler.ts:142-161 | for non-overlapping slots, a placed start is its own next slot and its operating minutes up to the end equal prep plus duration |
| `ScheduleProperties.FinalOfTask` | packages/engine/src/reflow/scheduler.ts:205-211 | after the loop a task's recorded end is its end or fallback end, and its copy carries the new dates exactly when it was placed |
| `ScheduleProperties.ErrorsOfTask` | packages/engine/src/reflow/scheduler.ts:84-168 | an unknown channel, a hold in a blackout, no slot and no end each leave their error in the final list |
| `ScheduleProperties.ChangesOfTask` | packages/engine/src/reflow/scheduler.ts:175-203 | the final change records of a task are exactly those of its own step, and an id outside the order has none |
| `ScheduleProperties.DependencyBeforePlaced` | packages/engine/src/reflow/scheduler.ts:126-133 | a dependency is processed earlier, and a placed task starts at or after the dependency's recorded end |
| `ScheduleProperties.DependencyEarlier` | packages/engine/src/reflow/scheduler.ts:78 | in a topological order a listed dependency comes earlier |
| `ScheduleProperties.DependencyInOutput` | packages/engine/src/reflow/scheduler.ts:126-133 | when the dependency was placed or pinned, its output end is at or before the placed task's output start |
| `Scheduler.PlaceAll` | packages/engine/src/reflow/scheduler.ts:78-212 | the loop over the order computes the fold of the steps |
| `Scheduler.PlannedFromSort` | packages/engine/src/reflow/scheduler.ts:52 | a greedy topological permutation of unique ids is a plan |
| `Scheduler.ScheduleIds` | packages/engine/src/reflow/scheduler.ts:214-218 | the updated tasks are one per id of the order, in that order |
| `Scheduler.ScheduleInOrder` | packages/engine/src/reflow/scheduler.ts:42-218 | the set-up and the loop compute the schedule of the order, whose ids are the order |
| `Scheduler.SortTasks` | packages/engine/src/reflow/scheduler.ts:52 | a sorted order is a greedy topological permutation; a cycle error means no order exists or ids repeat, with the leftovers stuck |
| `Scheduler.ScheduleTasks` | packages/engine/src/reflow/scheduler.ts:30-219 | empty input gives an empty result; otherwise the result is the schedule of a greedy topological permutation of the ids, or the cycle propagates when no order exists |
| `Checker.CheckUpstreams` | packages/engine/src/reflow/constraint-checker.ts:219-236 | the upstream loop of one task computes its dependency violations |
| `Checker.CheckDependencies` | packages/engine/src/reflow/constraint-checker.ts:212-240 | the loop computes the dependency violations, task by task |
| `CheckerProperties.UpstreamIn` | packages/engine/src/reflow/constraint-checker.ts:219-236 | a task's violations are exactly one per known upstream ending after it starts |
| `CheckerProperties.DependencyIn` | packages/engine/src/reflow/constraint-checker.ts:218-237 | a dependency violation is reported iff a task starts strictly before a known upstream's end; none is reported iff every known upstream ends no later than its dependant starts |
| `Checker.GroupByChannel` | packages/engine/src/reflow/constraint-checker.ts:67-73 | the groups are keyed by the channels in first-appearance order, each holding that channel's tasks in list order |
| `CheckerProperties.ChannelOrderFacts` | packages/engine/src/reflow/constraint-checker.ts:67-73 | the keys are exactly the channels of the tasks, each once |
| `CheckerProperties.OnChannelFacts` | packages/engine/src/reflow/constraint-checker.ts:67-73 | a group holds exactly the tasks of its channel, with multiplicity |
| `CheckerProperties.SortPerm` | packages/engine/src/reflow/constraint-checker.ts:77-81 | the sort by start is a permutation |
| `CheckerProperties.SortSorted` | packages/engine/src/reflow/constraint-checker.ts:77-81 | the sort by start is ordered by start |
| `Checker.CheckSortedPairs` | packages/engine/src/reflow/constraint-checker.ts:83-97 | the index loop computes the pair violations |
| `CheckerProperties.PairIn` | packages/engine/src/reflow/constraint-checker.ts:83-97 | a violation is reported exactly for a task that starts before its predecessor ends; none iff each ends at or before the next starts, so back-to-back is fine |
| `CheckerProperties.ChainOrdered` | packages/engine/src/reflow/constraint-checker.ts:83-97 | when each well-formed task ends by the next one's start, every task ends by the start of every later one |
| `Checker.CheckChannelOverlaps` | packages/engine/src/reflow/constraint-checker.ts:64-101 | the grouping and the pair scans compute the overlap violations |
| `CheckerProperties.OverlapIn` | packages/engine/src/reflow/constraint-checker.ts:64-101 | an overlap violation is reported iff some channel's start-sorted tasks, holds included, have that overlapping pair |
| `CheckerProperties.OverlapNil` | packages/engine/src/reflow/constraint-checker.ts:64-101 | no overlap is reported iff on every channel the start-sorted tasks follow one another |
| `CheckerProperties.ChannelsApart` | packages/engine/src/reflow/constraint-checker.ts:64-101 | with no overlap reported and well-formed tasks, any two tasks of a channel's sorted group are disjoint |
| `Checker.CheckOperatingHours` | packages/engine/src/reflow/constraint-checker.ts:115-168 | the loop computes the operating-hours violations |
| `CheckerProperties.HoursOne` | packages/engine/src/reflow/constraint-checker.ts:122-164 | a task's verdict: holds and unknown channels are skipped; a start that is not its own next slot is flagged; otherwise available minutes differing from prep plus duration are flagged |
| `CheckerProperties.HoursIn` | packages/engine/src/reflow/constraint-checker.ts:121-165 | at most one violation per task, exactly for the flagged tasks; none iff every checked task is on hours |
| `Checker.CheckBlackoutOverlaps` | packages/engine/src/reflow/constraint-checker.ts:179-207 | the loop computes the blackout violations |
| `CheckerProperties.BlackoutIn` | packages/engine/src/reflow/constraint-checker.ts:185-204 | a blackout violation is reported exactly for a hold on a known channel overlapping one of its blackouts |
| `Checker.CheckRegulatoryHoldMoved` | packages/engine/src/reflow/constraint-checker.ts:246-273 | the loop computes the moved-hold violations against the originals' map |
| `CheckerProperties.MovedIn` | packages/engine/src/reflow/constraint-checker.ts:253-270 | a moved-hold violation, with the old and new dates, is reported exactly for a hold whose start or end differs from the original with its id |
| `Checker.CheckConstraints` | packages/engine/src/reflow/constraint-checker.ts:30-59 | the five checks are concatenated, the last only when originals are given |
| `CheckerProperties.ReportOrder` | packages/engine/src/reflow/constraint-checker.ts:40-58 | violations come grouped as dependency, overlap, hours, blackout, moved hold; with no originals there is no moved-hold violation |
| `CheckerProperties.NoViolationsIff` | packages/engine/src/reflow/constraint-checker.ts:30-59 | the report is empty iff dependencies are met, channels do not overlap, checked tasks are on hours, no hold overlaps a blackout and, with originals, no hold moved |
| `CheckerProperties.MakeEnvParsed` | packages/engine/src/reflow/scheduler.ts:46-49 | the scheduler's blackouts of each known channel are the intervals the checker parses |
| `CheckerProperties.FinalKeepsHolds` | packages/engine/src/reflow/scheduler.ts:99-119 | no copy of a task in the order is a moved hold |
| `CheckerProperties.OutputKeepsHold` | packages/engine/src/reflow/constraint-checker.ts:253-270 | no output task of the scheduler is a moved hold |
| `CheckerProperties.ScheduleKeepsHolds` | packages/engine/src/reflow/constraint-checker.ts:246-273 | the moved-hold check reports nothing on the scheduler's output |
| `CheckerProperties.PlacedOnHours` | packages/engine/src/reflow/constraint-checker.ts:134-164 | for non-overlapping slots, a placed task passes the operating-hours check |
| `CheckerProperties.BlackoutAgrees` | packages/engine/src/reflow/scheduler.ts:104-109 | the checker flags a task of the output for a blackout iff the scheduler found it to be a pinned hold overlapping one |
| `Metrics.Affected` | packages/engine/src/reflow/metrics.ts:39-42 | at most one per task |
| `Metrics.DelayAndAffected` | packages/engine/src/reflow/metrics.ts:31-43 | the loop computes the summed end shifts and the count of moved ends |
| `Metrics.AffectedIff` | packages/engine/src/reflow/metrics.ts:39-42 | nothing is affected iff no task's end moved |
| `Metrics.UnaffectedNoDelay` | packages/engine/src/reflow/metrics.ts:31-43 | nothing affected means zero total delay |
| `Metrics.DelayCoversAffected` | packages/engine/src/reflow/metrics.ts:31-43 | when no end moved earlier, the total delay is at least the affected count |
| `Metrics.LatestEnd` | packages/engine/src/reflow/metrics.ts:69-72 | the latest end is at least every end and is one of them |
| `Metrics.LatestEndOf` | packages/engine/src/reflow/metrics.ts:69-72 | the reduce computes the latest end |
| `Metrics.ProcessingMinutes` | packages/engine/src/reflow/metrics.ts:85-89 | the loop sums prep plus duration |
| `Metrics.Utilization` | packages/engine/src/reflow/metrics.ts:91-94 | zero without available minutes; otherwise the percentage processing / available rounded half up |
| `Metrics.UtilizationRange` | packages/engine/src/reflow/metrics.ts:91-94 | processing within the available minutes gives 0..100 |
| `Metrics.IdleMinutes` | packages/engine/src/reflow/metrics.ts:97-114 | the index loop computes the summed gaps |
| `Metrics.IdleNonNegative` | packages/engine/src/reflow/metrics.ts:98-114 | idle time is never negative |
| `Metrics.IdleWithoutGaps` | packages/engine/src/reflow/metrics.ts:103-112 | a group where every task starts no later than the previous ends has no idle time |
| `Metrics.MeasureChannel` | packages/engine/src/reflow/metrics.ts:61-114 | the body for one channel computes its utilization and idle minutes |
| `Metrics.ChannelMetrics` | packages/engine/src/reflow/metrics.ts:50-115 | the grouping and the channel loop compute both per-channel maps |
| `Metrics.OverEntries` | packages/engine/src/reflow/metrics.ts:57-115 | a channel has entries iff it is a key that is known and has tasks, and the entries are its group's measures |
| `Metrics.OnChannelNonEmpty` | packages/engine/src/reflow/metrics.ts:50-55 | a channel's group is non-empty iff some task is on it |
| `Metrics.MeasuredChannels` | packages/engine/src/reflow/metrics.ts:50-59 | both maps are keyed by exactly the known channels with at least one updated task, with that channel's measures |
| `Metrics.IdleOverNonNegative` | packages/engine/src/reflow/metrics.ts:96-114 | every idle entry is non-negative |
| `Metrics.SlaBreaches` | packages/engine/src/reflow/metrics.ts:118-138 | the loop computes the breach list |
| `Metrics.BreachIn` | packages/engine/src/reflow/metrics.ts:118-138 | at most one breach per task, exactly for a task of a known order ending after its target, with positive minutes equal to end - target |
| `Metrics.NoBreachIff` | packages/engine/src/reflow/metrics.ts:118-138 | no breach iff no task of a known order ends after its target |
| `Metrics.ComputeMetrics` | packages/engine/src/reflow/metrics.ts:17-147 | the method computes the metrics function of its inputs |
| `Metrics.UnchangedMetrics` | packages/engine/src/reflow/metrics.ts:31-43 | comparing a list of tasks with unique ids against itself gives zero total delay and zero affected tasks |
| `Reflow.GroupByTask` | packages/engine/src/reflow/reflow.service.ts:107-112 | the groups are keyed by the references in first-appearance order, each holding that reference's changes in order |
| `Reflow.RefOrderIn` | packages/engine/src/reflow/reflow.service.ts:108-112 | a reference is a key iff some change carries it |
| `Reflow.ChangesOfIn` | packages/engine/src/reflow/reflow.service.ts:108-112 | a group holds exactly the changes of its reference |
| `Reflow.FindChange` | packages/engine/src/reflow/reflow.service.ts:115-116 | the search returns the first change of the field |
| `Reflow.FindIn` | packages/engine/src/reflow/reflow.service.ts:115-116 | a change is found iff one of that field exists, and it is of that field |
| `Reflow.GroupHas` | packages/engine/src/reflow/reflow.service.ts:114-116 | a reference's group has a change of a field iff the changes have one for that reference |
| `Reflow.LineFor` | packages/engine/src/reflow/reflow.service.ts:114-129 | the per-task branch computes the task's line |
| `Reflow.TaskLineKinds` | packages/engine/src/reflow/reflow.service.ts:118-128 | a task line names its own reference; a moved line iff both dates changed, an end-changed line iff only the end did |
| `Reflow.TaskLinesOf` | packages/engine/src/reflow/reflow.service.ts:107-129 | the group loop computes the task lines in reference order |
| `Reflow.TaskLinesIn` | packages/engine/src/reflow/reflow.service.ts:114-129 | a line is a task line iff it is the line of some reference |
| `Reflow.TaskLinesRef` | packages/engine/src/reflow/reflow.service.ts:114-129 | the task lines move a reference iff both its dates changed, and report its end iff only the end changed |
| `Reflow.BreachItems` | packages/engine/src/reflow/reflow.service.ts:141-145 | one line per breach, in order, with its task, target and minutes |
| `Reflow.BreachLinesOf` | packages/engine/src/reflow/reflow.service.ts:137-146 | the warning and the breach lines, when there is a breach |
| `Reflow.ErrorItems` | packages/engine/src/reflow/reflow.service.ts:151-153 | one line per error, in order |
| `Reflow.ErrorLinesOf` | packages/engine/src/reflow/reflow.service.ts:148-154 | the error block of the scheduler errors followed by the constraint errors |
| `Reflow.BuildExplanation` | packages/engine/src/reflow/reflow.service.ts:94-157 | the method computes the explanation function |
| `Reflow.NoChangesIff` | packages/engine/src/reflow/reflow.service.ts:102-105 | the explanation has the no-changes sentence iff there are no changes and no scheduler errors, and is then only that sentence |
| `Reflow.TaskLineIff` | packages/engine/src/reflow/reflow.service.ts:114-129 | a reference gets a moved line iff both dates changed and an end-changed line iff only the end changed, so a start-only change has no line |
| `Reflow.ErrorBlockIff` | packages/engine/src/reflow/reflow.service.ts:131-154 | the errors header appears iff there are changes or scheduler errors and some error; then the explanation ends with the header and one line per error, after the summary line |
| `Reflow.SchedulerMessages` | packages/engine/src/reflow/reflow.service.ts:68 | one message per scheduler error, in order |
| `Reflow.ViolationMessages` | packages/engine/src/reflow/reflow.service.ts:45 | one message per violation, in order |
| `Reflow.PlannedHasOrder` | packages/engine/src/reflow/reflow.service.ts:37 | a scheduled plan means unique ids and an existing dependency order |
| `Reflow.Reflow` | packages/engine/src/reflow/reflow.service.ts:12-91 | empty input gives the empty result with one line; a cycle or repeated ids give the original tasks, no changes, zero metrics, one cycle error carrying stuck leftovers and the two abort lines; otherwise the composition of the schedule of a greedy topological permutation with its check, metrics and explanation |
| `Reflow.MessagesOrdered` | packages/engine/src/reflow/reflow.service.ts:68 | scheduler messages come before violation messages, which keep the check order |
| `Reflow.ErrorsOrdered` | packages/engine/src/reflow/reflow.service.ts:63-69 | the errors are the scheduler errors, then the violations in check order, one message each |
| `Reflow.KeptHoldsReport` | packages/engine/src/reflow/reflow.service.ts:40-45 | when no hold moved, the report has no moved-hold violation |
| `Reflow.NoMovedHold` | packages/engine/src/reflow/reflow.service.ts:37-45 | a scheduled reflow never reports a moved hold |
| `Reflow.CleanIff` | packages/engine/src/reflow/reflow.service.ts:63-69 | the errors are empty iff the scheduler reported none and the output satisfies every constraint |
| `Reflow.ErrorsOfResult` | packages/engine/src/reflow/reflow.service.ts:148-154 | unless the explanation is the no-changes sentence, it has the header iff the errors are non-empty, and then it ends with exactly those errors |
| `Reflow.ExplainsErrors` | packages/engine/src/reflow/reflow.service.ts:56-68 | unless the explanation is the no-changes sentence, it lists exactly the result's errors at its end, and only when there are some |

## Left out

- **Luxon.** ISO-8601 text, its parsing and formatting, and time zones are left out. Instants are integer minutes in UTC.
- **Text comparison of holds.** The textual comparison of a hold's dates (`"...Z"` against `"....000Z"`) is modelled as equality of instants.
- **Floating point.**
  - Minute differences are exact integers, so `Math.round` on them is the identity.
  - The 0.001 tolerance of the delay loop and the 0.5 tolerance of the operating-hours check become exact comparisons, which agree on integer minutes.
  - Utilization is the half-up rounded percentage (37 for 0.37) rather than a binary float.
- **Message wording.** The English text of errors, reasons and explanation lines is modelled as tagged values carrying the data they print. Reasons are kept as a list of clauses rather than a "; "-joined string.
- **Exceptions.** The only exception modelled is `CycleError`. Errors from malformed text or from luxon cannot arise with integer instants.
- **In-place updates.** `structuredClone` and the update of cloned records are modelled on values. Aliasing through shared arrays is not modelled, because the source never shares them after the copy.
- **Key order.** A `Map`'s key order is an explicit sequence beside a Dafny map, and a `Record`'s key order is not modelled.
- **Zero violations.** A scheduler output with no violations is not proved in full, because in the source it does not hold for every input. Holds that overlap each other, tasks on unknown channels and tasks with no slot left where they were can all still violate. For scheduler output, what is proved is:
  - no moved-hold report;
  - the blackout report agrees with the scheduler's hold errors;
  - placed tasks pass the hours check (non-overlapping slots);
  - placed tasks never overlap on a channel;
  - placed tasks start after their dependencies' recorded ends.
- `CalendarProperties.RoundTrip`: proved only for calendars whose same-day slots do not overlap (`Regular`). With overlapping slots the end walk and the count both use shared minutes twice, and they need not agree.
- `CalendarProperties.WindowsChain`: stated only for non-overlapping same-day slots; otherwise the windows of a day do overlap.
- `CalendarProperties.EndFromCount`: proved only for non-overlapping same-day slots, as for the round trip.
- `ScheduleProperties.PlacedRoundTrip`: proved only for channels whose same-day slots do not overlap, as for the round trip; its first half holds for every channel (`ScheduleProperties.PlacedAtSlot`).
- `CheckerProperties.PlacedOnHours`: proved only for channels whose same-day slots do not overlap, and for tasks of non-negative prep plus duration.
- **Out of scope.** The demo front end, the HTTP server, the console entry point, fixture data and the duplicate type definitions of the demo package are not part of this model.
