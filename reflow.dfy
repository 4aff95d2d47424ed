/**
 * The reflow service: schedule the tasks, check the result against the
 * constraints, compute the metrics and explain the changes. An empty task
 * list and a dependency cycle are answered without scheduling.
 */
module Reflow {
  import opened Types
  import Dag
  import Scheduler
  import ScheduleProperties
  import Checker
  import CheckerProperties
  import Metrics

  /** An entry of the `errors` list, by origin; the message text is not modelled. */
  datatype ErrorMessage =
    | SchedulerMessage(error: Scheduler.ScheduleError)
    | ViolationMessage(violation: Checker.Violation)
    | CycleMessage(cycle: seq<Id>)

  /** One explanation line, by kind, with the values it prints; the English wording is not modelled. */
  datatype Line =
    | NoTasksLine
    | NoChangesLine
    | MovedLine(taskReference: string, oldStart: Instant, newStart: Instant, deltaMinutes: int, reason: seq<Scheduler.Reason>)
    | EndChangedLine(taskReference: string, oldEnd: Instant, newEnd: Instant, deltaMinutes: int, reason: seq<Scheduler.Reason>)
    | BlankLine
    | SummaryLine(tasksAffected: nat, totalDelayMinutes: int)
    | BreachWarningLine(count: nat)
    | BreachLine(taskId: Id, targetDate: Instant, breachMinutes: int)
    | ErrorsHeaderLine
    | ErrorLine(message: ErrorMessage)
    | AbortedLine(cycle: seq<Id>)
    | ResolveCyclesLine

  datatype ReflowResult = ReflowResult(
    updatedTasks: seq<SettlementTask>,
    changes: seq<Scheduler.ScheduleChange>,
    explanation: seq<Line>,
    metrics: ReflowMetrics,
    errors: seq<ErrorMessage>)

  function ZeroMetrics(): ReflowMetrics
  {
    ReflowMetrics(0, 0, map[], map[], [])
  }

  // ---------------------------------------------------------------------------
  // buildExplanation
  // ---------------------------------------------------------------------------

  /** The task references of the changes, in order of first appearance. */
  function RefOrder(changes: seq<Scheduler.ScheduleChange>): seq<string>
  {
    if changes == [] then []
    else
      var rs := RefOrder(changes[..|changes| - 1]);
      var r := changes[|changes| - 1].taskReference;
      if r in rs then rs else rs + [r]
  }

  /** The changes of one task reference, in list order. */
  function ChangesOf(changes: seq<Scheduler.ScheduleChange>, ref: string): seq<Scheduler.ScheduleChange>
  {
    if changes == [] then []
    else
      ChangesOf(changes[..|changes| - 1], ref) +
      (if changes[|changes| - 1].taskReference == ref then [changes[|changes| - 1]] else [])
  }

  /** The first change of field `f` (`Array.prototype.find`). */
  function Find(cs: seq<Scheduler.ScheduleChange>, f: Scheduler.Field): Option<Scheduler.ScheduleChange>
  {
    if cs == [] then None
    else if cs[0].field == f then Some(cs[0])
    else Find(cs[1..], f)
  }

  /** The line of one task: moved when both dates changed, end changed when only the end did, none otherwise. */
  function TaskLine(ref: string, group: seq<Scheduler.ScheduleChange>): seq<Line>
  {
    var startChange := Find(group, Scheduler.StartField);
    var endChange := Find(group, Scheduler.EndField);
    if startChange.Some? && endChange.Some? then
      [MovedLine(ref, startChange.value.oldValue, startChange.value.newValue,
                 startChange.value.deltaMinutes, startChange.value.reason)]
    else if endChange.Some? then
      [EndChangedLine(ref, endChange.value.oldValue, endChange.value.newValue,
                      endChange.value.deltaMinutes, endChange.value.reason)]
    else []
  }

  /** The task lines of the references `refs`, in that order. */
  function TaskLines(changes: seq<Scheduler.ScheduleChange>, refs: seq<string>): seq<Line>
  {
    if refs == [] then []
    else
      var ref := refs[|refs| - 1];
      TaskLines(changes, refs[..|refs| - 1]) + TaskLine(ref, ChangesOf(changes, ref))
  }

  /** One line per breach, in order. */
  function BreachItems(bs: seq<SlaBreach>): (r: seq<Line>)
    ensures |r| == |bs|
    ensures forall i :: 0 <= i < |bs| ==> r[i] == BreachLine(bs[i].taskId, bs[i].targetDate, bs[i].breachMinutes)
  {
    if bs == [] then []
    else
      var b := bs[|bs| - 1];
      BreachItems(bs[..|bs| - 1]) + [BreachLine(b.taskId, b.targetDate, b.breachMinutes)]
  }

  /** One line per error, in order. */
  function ErrorItems(es: seq<ErrorMessage>): (r: seq<Line>)
    ensures |r| == |es|
    ensures forall i :: 0 <= i < |es| ==> r[i] == ErrorLine(es[i])
  {
    if es == [] then [] else ErrorItems(es[..|es| - 1]) + [ErrorLine(es[|es| - 1])]
  }

  /** The warning and its breach lines, when there is a breach. */
  function BreachBlock(bs: seq<SlaBreach>): seq<Line>
  {
    if bs == [] then [] else [BreachWarningLine(|bs|)] + BreachItems(bs)
  }

  /** A blank line, the header and one line per error, when there is an error. */
  function ErrorBlock(es: seq<ErrorMessage>): seq<Line>
  {
    if es == [] then [] else [BlankLine, ErrorsHeaderLine] + ErrorItems(es)
  }

  /** `lines` ends with the "Errors:" header followed by one line per error of `es`, in order. */
  predicate EndsWithErrors(lines: seq<Line>, es: seq<ErrorMessage>)
  {
    var h := |lines| - |es| - 1;
    0 < h && lines[h] == ErrorsHeaderLine && lines[h + 1..] == ErrorItems(es)
  }

  /** Nothing was changed and the scheduler reported nothing: the single sentence is written. */
  predicate Quiet(changes: seq<Scheduler.ScheduleChange>, schedulerErrors: seq<ErrorMessage>)
  {
    changes == [] && schedulerErrors == []
  }

  /** A blank line, the summary and the breach block. */
  function SummaryBlock(metrics: ReflowMetrics): seq<Line>
  {
    [BlankLine, SummaryLine(metrics.tasksAffected, metrics.totalDelayMinutes)] + BreachBlock(metrics.slaBreaches)
  }

  /** The explanation lines of a reflow. */
  function Explanation(changes: seq<Scheduler.ScheduleChange>, metrics: ReflowMetrics,
                       schedulerErrors: seq<ErrorMessage>, constraintErrors: seq<ErrorMessage>): seq<Line>
  {
    if Quiet(changes, schedulerErrors) then [NoChangesLine]
    else
      TaskLines(changes, RefOrder(changes)) + SummaryBlock(metrics) + ErrorBlock(schedulerErrors + constraintErrors)
  }

  /** A reference missing from the order has no changes. */
  lemma {:induction false} AbsentRef(changes: seq<Scheduler.ScheduleChange>, ref: string)
    requires ref !in RefOrder(changes)
    ensures ChangesOf(changes, ref) == []
  {
    if changes != [] {
      AbsentRef(changes[..|changes| - 1], ref);
    }
  }

  /** The `byTask` map, filled in one pass over the changes. */
  method GroupByTask(changes: seq<Scheduler.ScheduleChange>)
    returns (byTask: map<string, seq<Scheduler.ScheduleChange>>, refs: seq<string>)
    ensures refs == RefOrder(changes)
    ensures forall r :: r in refs <==> r in byTask
    ensures forall r :: r in byTask ==> byTask[r] == ChangesOf(changes, r)
  {
    byTask := map[];
    refs := [];
    for i := 0 to |changes|
      invariant refs == RefOrder(changes[..i])
      invariant forall r :: r in refs <==> r in byTask
      invariant forall r :: r in byTask ==> byTask[r] == ChangesOf(changes[..i], r)
    {
      assert changes[..i + 1][..i] == changes[..i];
      var ref := changes[i].taskReference;
      if ref !in byTask {
        AbsentRef(changes[..i], ref);
        byTask := byTask[ref := []];
        refs := refs + [ref];
      }
      byTask := byTask[ref := byTask[ref] + [changes[i]]];
    }
    assert changes[..|changes|] == changes;
  }

  method FindChange(taskChanges: seq<Scheduler.ScheduleChange>, f: Scheduler.Field)
    returns (found: Option<Scheduler.ScheduleChange>)
    ensures found == Find(taskChanges, f)
  {
    var i := 0;
    while i < |taskChanges|
      invariant 0 <= i <= |taskChanges|
      invariant Find(taskChanges, f) == Find(taskChanges[i..], f)
    {
      if taskChanges[i].field == f {
        return Some(taskChanges[i]);
      }
      assert taskChanges[i..][1..] == taskChanges[i + 1..];
      i := i + 1;
    }
    return None;
  }

  /** The body of the per-task loop: the finds and the line they select. */
  method LineFor(taskRef: string, taskChanges: seq<Scheduler.ScheduleChange>) returns (line: seq<Line>)
    ensures line == TaskLine(taskRef, taskChanges)
  {
    var startChange := FindChange(taskChanges, Scheduler.StartField);
    var endChange := FindChange(taskChanges, Scheduler.EndField);
    line := [];
    if startChange.Some? && endChange.Some? {
      line := [MovedLine(taskRef, startChange.value.oldValue, startChange.value.newValue,
                         startChange.value.deltaMinutes, startChange.value.reason)];
    } else if endChange.Some? {
      line := [EndChangedLine(taskRef, endChange.value.oldValue, endChange.value.newValue,
                              endChange.value.deltaMinutes, endChange.value.reason)];
    }
  }

  /** The per-task loop over the `byTask` groups. */
  method TaskLinesOf(changes: seq<Scheduler.ScheduleChange>) returns (lines: seq<Line>)
    ensures lines == TaskLines(changes, RefOrder(changes))
  {
    lines := [];
    var byTask, refs := GroupByTask(changes);
    for k := 0 to |refs|
      invariant lines == TaskLines(changes, refs[..k])
    {
      assert refs[..k + 1][..k] == refs[..k];
      var taskRef := refs[k];
      var line := LineFor(taskRef, byTask[taskRef]);
      lines := lines + line;
    }
    assert refs[..|refs|] == refs;
  }

  /** The SLA warning and its breach lines. */
  method BreachLinesOf(breaches: seq<SlaBreach>) returns (lines: seq<Line>)
    ensures lines == BreachBlock(breaches)
  {
    lines := [];
    if |breaches| > 0 {
      lines := lines + [BreachWarningLine(|breaches|)];
      for j := 0 to |breaches|
        invariant lines == [BreachWarningLine(|breaches|)] + BreachItems(breaches[..j])
      {
        assert breaches[..j + 1][..j] == breaches[..j];
        var breach := breaches[j];
        lines := lines + [BreachLine(breach.taskId, breach.targetDate, breach.breachMinutes)];
      }
      assert breaches[..|breaches|] == breaches;
    }
  }

  /** The "Errors:" block over the scheduler errors and then the constraint errors. */
  method ErrorLinesOf(schedulerErrors: seq<ErrorMessage>, constraintErrors: seq<ErrorMessage>) returns (lines: seq<Line>)
    ensures lines == ErrorBlock(schedulerErrors + constraintErrors)
  {
    lines := [];
    if |schedulerErrors| > 0 || |constraintErrors| > 0 {
      lines := lines + [BlankLine, ErrorsHeaderLine];
      var all := schedulerErrors + constraintErrors;
      for j := 0 to |all|
        invariant lines == [BlankLine, ErrorsHeaderLine] + ErrorItems(all[..j])
      {
        assert all[..j + 1][..j] == all[..j];
        lines := lines + [ErrorLine(all[j])];
      }
      assert all[..|all|] == all;
    }
  }

  method BuildExplanation(changes: seq<Scheduler.ScheduleChange>, metrics: ReflowMetrics,
                          schedulerErrors: seq<ErrorMessage>, constraintErrors: seq<ErrorMessage>)
    returns (lines: seq<Line>)
    ensures lines == Explanation(changes, metrics, schedulerErrors, constraintErrors)
  {
    if |changes| == 0 && |schedulerErrors| == 0 {
      lines := [NoChangesLine];
      return;
    }
    var taskLines := TaskLinesOf(changes);
    var breachLines := BreachLinesOf(metrics.slaBreaches);
    var errorLines := ErrorLinesOf(schedulerErrors, constraintErrors);
    var summaryLines := [BlankLine, SummaryLine(metrics.tasksAffected, metrics.totalDelayMinutes)] + breachLines;
    lines := taskLines + summaryLines + errorLines;
  }

  // ---------------------------------------------------------------------------
  // Properties of the explanation
  // ---------------------------------------------------------------------------

  /** Some change of `ref` is to field `f`. */
  predicate HasChange(changes: seq<Scheduler.ScheduleChange>, ref: string, f: Scheduler.Field)
  {
    exists i :: 0 <= i < |changes| && changes[i].taskReference == ref && changes[i].field == f
  }

  lemma {:induction false} RefOrderIn(changes: seq<Scheduler.ScheduleChange>, ref: string)
    ensures ref in RefOrder(changes) <==> exists i :: 0 <= i < |changes| && changes[i].taskReference == ref
  {
    if changes != [] {
      var init := changes[..|changes| - 1];
      RefOrderIn(init, ref);
      assert forall i :: 0 <= i < |init| ==> init[i] == changes[i];
    }
  }

  lemma {:induction false} ChangesOfIn(changes: seq<Scheduler.ScheduleChange>, ref: string)
    ensures forall c :: c in ChangesOf(changes, ref) <==> c in changes && c.taskReference == ref
  {
    if changes != [] {
      var init := changes[..|changes| - 1];
      ChangesOfIn(init, ref);
      assert changes == init + [changes[|changes| - 1]];
    }
  }

  /** `find` succeeds exactly when some change has the field, and what it finds has it. */
  lemma {:induction false} FindIn(cs: seq<Scheduler.ScheduleChange>, f: Scheduler.Field)
    ensures Find(cs, f).Some? <==> exists c :: c in cs && c.field == f
    ensures Find(cs, f).Some? ==> Find(cs, f).value in cs && Find(cs, f).value.field == f
  {
    if cs != [] && cs[0].field != f {
      FindIn(cs[1..], f);
      assert cs == [cs[0]] + cs[1..];
    }
  }

  /** The group of `ref` holds a change to `f` exactly when the changes do. */
  lemma GroupHas(changes: seq<Scheduler.ScheduleChange>, ref: string, f: Scheduler.Field)
    ensures Find(ChangesOf(changes, ref), f).Some? <==> HasChange(changes, ref, f)
  {
    ChangesOfIn(changes, ref);
    FindIn(ChangesOf(changes, ref), f);
    if HasChange(changes, ref, f) {
      var i :| 0 <= i < |changes| && changes[i].taskReference == ref && changes[i].field == f;
      assert changes[i] in ChangesOf(changes, ref);
    }
  }

  lemma {:induction false} TaskLinesIn(changes: seq<Scheduler.ScheduleChange>, refs: seq<string>)
    ensures forall l :: l in TaskLines(changes, refs) <==>
      exists r :: r in refs && l in TaskLine(r, ChangesOf(changes, r))
  {
    if refs != [] {
      var init, last := refs[..|refs| - 1], refs[|refs| - 1];
      TaskLinesIn(changes, init);
      assert refs == init + [last];
      var front, back := TaskLines(changes, init), TaskLine(last, ChangesOf(changes, last));
      assert TaskLines(changes, refs) == front + back;
      forall l ensures l in front + back <==> exists r :: r in refs && l in TaskLine(r, ChangesOf(changes, r)) {
        if l in front {
          var r :| r in init && l in TaskLine(r, ChangesOf(changes, r));
          assert r in refs;
        } else if l in back {
          assert last in refs;
        }
        if exists r :: r in refs && l in TaskLine(r, ChangesOf(changes, r)) {
          var r :| r in refs && l in TaskLine(r, ChangesOf(changes, r));
          if r != last {
            assert r in init;
          }
        }
      }
    }
  }

  /** The lines written for a task are of the task's own reference. */
  lemma TaskLineKinds(ref: string, group: seq<Scheduler.ScheduleChange>)
    ensures forall l :: l in TaskLine(ref, group) ==> (l.MovedLine? || l.EndChangedLine?) && l.taskReference == ref
    ensures (exists l :: l in TaskLine(ref, group) && l.MovedLine?) <==>
      Find(group, Scheduler.StartField).Some? && Find(group, Scheduler.EndField).Some?
    ensures (exists l :: l in TaskLine(ref, group) && l.EndChangedLine?) <==>
      Find(group, Scheduler.StartField).None? && Find(group, Scheduler.EndField).Some?
  {
    var t := TaskLine(ref, group);
    if t != [] {
      assert t[0] in t;
    }
  }

  /** The lines after the task lines are neither task lines nor the single sentence. */
  lemma TailKinds(metrics: ReflowMetrics, es: seq<ErrorMessage>)
    ensures forall l :: l in SummaryBlock(metrics) ==> !l.MovedLine? && !l.EndChangedLine? && !l.NoChangesLine?
    ensures forall l :: l in ErrorBlock(es) ==> !l.MovedLine? && !l.EndChangedLine? && !l.NoChangesLine?
  {
    var bs := metrics.slaBreaches;
    forall l | l in BreachItems(bs) ensures l.BreachLine? {
      var i :| 0 <= i < |BreachItems(bs)| && BreachItems(bs)[i] == l;
    }
    forall l | l in ErrorItems(es) ensures l.ErrorLine? {
      var i :| 0 <= i < |ErrorItems(es)| && ErrorItems(es)[i] == l;
    }
  }

  /** Among the task lines, a task's "moved" and "end changed" lines follow from its start and end changes. */
  lemma TaskLinesRef(changes: seq<Scheduler.ScheduleChange>, ref: string)
    ensures var tl := TaskLines(changes, RefOrder(changes));
      ((exists l :: l in tl && l.MovedLine? && l.taskReference == ref) <==>
        HasChange(changes, ref, Scheduler.StartField) && HasChange(changes, ref, Scheduler.EndField)) &&
      ((exists l :: l in tl && l.EndChangedLine? && l.taskReference == ref) <==>
        !HasChange(changes, ref, Scheduler.StartField) && HasChange(changes, ref, Scheduler.EndField))
  {
    var refs := RefOrder(changes);
    var tl := TaskLines(changes, refs);
    TaskLinesIn(changes, refs);
    var group := ChangesOf(changes, ref);
    GroupHas(changes, ref, Scheduler.StartField);
    GroupHas(changes, ref, Scheduler.EndField);
    TaskLineKinds(ref, group);
    forall l | l in tl && (l.MovedLine? || l.EndChangedLine?) && l.taskReference == ref
      ensures l in TaskLine(ref, group)
    {
      var r :| r in refs && l in TaskLine(r, ChangesOf(changes, r));
      TaskLineKinds(r, ChangesOf(changes, r));
    }
    if HasChange(changes, ref, Scheduler.EndField) {
      RefOrderIn(changes, ref);
      var t := TaskLine(ref, group);
      assert t[0] in t && t[0] in tl;
    }
  }

  /** Lines that are not task lines, appended after task lines, add no task line. */
  lemma TaskLinesFirst(tl: seq<Line>, b: seq<Line>, c: seq<Line>, ref: string)
    requires forall l :: l in b ==> !l.MovedLine? && !l.EndChangedLine?
    requires forall l :: l in c ==> !l.MovedLine? && !l.EndChangedLine?
    ensures (exists l :: l in tl + b + c && l.MovedLine? && l.taskReference == ref) <==>
      (exists l :: l in tl && l.MovedLine? && l.taskReference == ref)
    ensures (exists l :: l in tl + b + c && l.EndChangedLine? && l.taskReference == ref) <==>
      (exists l :: l in tl && l.EndChangedLine? && l.taskReference == ref)
  {
  }

  /**
   * A task gets a "moved" line exactly when it has both a start and an end
   * change, and an "end changed" line exactly when it has an end change but
   * no start change; a start-only change gets no line, and no task line is
   * written when nothing changed and the scheduler reported nothing.
   */
  lemma TaskLineIff(changes: seq<Scheduler.ScheduleChange>, metrics: ReflowMetrics,
                    schedulerErrors: seq<ErrorMessage>, constraintErrors: seq<ErrorMessage>, ref: string)
    ensures var lines := Explanation(changes, metrics, schedulerErrors, constraintErrors);
      (exists l :: l in lines && l.MovedLine? && l.taskReference == ref) <==>
        !Quiet(changes, schedulerErrors) &&
        HasChange(changes, ref, Scheduler.StartField) && HasChange(changes, ref, Scheduler.EndField)
    ensures var lines := Explanation(changes, metrics, schedulerErrors, constraintErrors);
      (exists l :: l in lines && l.EndChangedLine? && l.taskReference == ref) <==>
        !Quiet(changes, schedulerErrors) &&
        !HasChange(changes, ref, Scheduler.StartField) && HasChange(changes, ref, Scheduler.EndField)
  {
    if !Quiet(changes, schedulerErrors) {
      var es := schedulerErrors + constraintErrors;
      TailKinds(metrics, es);
      TaskLinesFirst(TaskLines(changes, RefOrder(changes)), SummaryBlock(metrics), ErrorBlock(es), ref);
      TaskLinesRef(changes, ref);
    }
  }

  /** The single "no changes" sentence is written, and is the whole explanation, exactly when nothing changed and the scheduler reported nothing. */
  lemma NoChangesIff(changes: seq<Scheduler.ScheduleChange>, metrics: ReflowMetrics,
                     schedulerErrors: seq<ErrorMessage>, constraintErrors: seq<ErrorMessage>)
    ensures var lines := Explanation(changes, metrics, schedulerErrors, constraintErrors);
      (NoChangesLine in lines <==> Quiet(changes, schedulerErrors)) &&
      (Quiet(changes, schedulerErrors) ==> lines == [NoChangesLine])
  {
    if !Quiet(changes, schedulerErrors) {
      var refs := RefOrder(changes);
      TailKinds(metrics, schedulerErrors + constraintErrors);
      TaskLinesIn(changes, refs);
      forall r | r in refs ensures NoChangesLine !in TaskLine(r, ChangesOf(changes, r)) {
        TaskLineKinds(r, ChangesOf(changes, r));
      }
    }
  }

  /** The lines before the error block hold no header and no error line. */
  lemma HeadKinds(changes: seq<Scheduler.ScheduleChange>, metrics: ReflowMetrics)
    ensures forall l :: l in TaskLines(changes, RefOrder(changes)) ==> l != ErrorsHeaderLine && !l.ErrorLine?
    ensures forall l :: l in SummaryBlock(metrics) ==> l != ErrorsHeaderLine && !l.ErrorLine?
  {
    var refs := RefOrder(changes);
    TaskLinesIn(changes, refs);
    forall r | r in refs ensures forall l :: l in TaskLine(r, ChangesOf(changes, r)) ==> l.MovedLine? || l.EndChangedLine? {
      TaskLineKinds(r, ChangesOf(changes, r));
    }
    forall l | l in BreachItems(metrics.slaBreaches) ensures l.BreachLine? {
      var i :| 0 <= i < |BreachItems(metrics.slaBreaches)| && BreachItems(metrics.slaBreaches)[i] == l;
    }
  }

  /** Where the error block sits when it is appended to lines holding no header. */
  lemma ErrorBlockAt(body: seq<Line>, es: seq<ErrorMessage>, x: Line)
    requires ErrorsHeaderLine !in body && x in body
    ensures ErrorsHeaderLine in body + ErrorBlock(es) <==> es != []
    ensures var lines := body + ErrorBlock(es);
      es != [] ==>
        |lines| - |es| - 1 == |body| + 1 && lines[|body| + 1] == ErrorsHeaderLine &&
        lines[|body| + 2..] == ErrorItems(es) && x in lines[..|body| + 1]
  {
    var items := ErrorItems(es);
    forall l | l in items ensures l != ErrorsHeaderLine {
      var i :| 0 <= i < |items| && items[i] == l;
    }
    var lines := body + ErrorBlock(es);
    if es == [] {
      assert lines == body;
    } else {
      var block := [BlankLine, ErrorsHeaderLine] + items;
      assert block[1] == ErrorsHeaderLine;
      assert block[2..] == items;
      assert lines[|body| + 1] == block[1];
      assert lines[|body| + 2..] == block[2..];
      assert lines[..|body| + 1] == body + [BlankLine];
      assert x in body + [BlankLine];
    }
  }

  /**
   * The "Errors:" block is written exactly when something changed or the
   * scheduler reported an error, and there is a scheduler or constraint
   * error; it closes the explanation, after the summary line, and lists the
   * scheduler errors and then the constraint errors.
   */
  lemma ErrorBlockIff(changes: seq<Scheduler.ScheduleChange>, metrics: ReflowMetrics,
                      schedulerErrors: seq<ErrorMessage>, constraintErrors: seq<ErrorMessage>)
    ensures var lines := Explanation(changes, metrics, schedulerErrors, constraintErrors);
      ErrorsHeaderLine in lines <==> !Quiet(changes, schedulerErrors) && schedulerErrors + constraintErrors != []
    ensures var lines := Explanation(changes, metrics, schedulerErrors, constraintErrors);
      var es := schedulerErrors + constraintErrors;
      ErrorsHeaderLine in lines ==>
        EndsWithErrors(lines, es) &&
        SummaryLine(metrics.tasksAffected, metrics.totalDelayMinutes) in lines[..|lines| - |es| - 1]
  {
    var es := schedulerErrors + constraintErrors;
    if !Quiet(changes, schedulerErrors) {
      var tl := TaskLines(changes, RefOrder(changes));
      var body := tl + SummaryBlock(metrics);
      var summary := SummaryLine(metrics.tasksAffected, metrics.totalDelayMinutes);
      HeadKinds(changes, metrics);
      assert summary in SummaryBlock(metrics);
      ErrorBlockAt(body, es, summary);
      var lines := Explanation(changes, metrics, schedulerErrors, constraintErrors);
      assert lines == body + ErrorBlock(es);
      if es != [] {
        assert |lines| - |es| - 1 == |body| + 1;
        assert lines[|body| + 2..] == ErrorItems(es);
        assert summary in lines[..|body| + 1];
        assert EndsWithErrors(lines, es);
      }
    }
  }

  // ---------------------------------------------------------------------------
  // reflow
  // ---------------------------------------------------------------------------

  function SchedulerMessages(es: seq<Scheduler.ScheduleError>): (r: seq<ErrorMessage>)
    ensures |r| == |es| && forall i :: 0 <= i < |es| ==> r[i] == SchedulerMessage(es[i])
  {
    seq(|es|, i requires 0 <= i < |es| => SchedulerMessage(es[i]))
  }

  function ViolationMessages(vs: seq<Checker.Violation>): (r: seq<ErrorMessage>)
    ensures |r| == |vs| && forall i :: 0 <= i < |vs| ==> r[i] == ViolationMessage(vs[i])
  {
    seq(|vs|, i requires 0 <= i < |vs| => ViolationMessage(vs[i]))
  }

  /** The result of a reflow whose scheduling produced `s`: checked against the originals, measured and explained. */
  function Composed(tasks: seq<SettlementTask>, channels: seq<SettlementChannel>, tradeOrders: seq<TradeOrder>,
                    s: Scheduler.ScheduleResult): ReflowResult
  {
    var constraintErrors := ViolationMessages(Checker.Violations(s.updatedTasks, channels, Some(tasks)));
    var schedulerErrors := SchedulerMessages(s.errors);
    var metrics := Metrics.MetricsOf(tasks, s.updatedTasks, channels, tradeOrders);
    ReflowResult(s.updatedTasks, s.changes, Explanation(s.changes, metrics, schedulerErrors, constraintErrors),
                 metrics, schedulerErrors + constraintErrors)
  }

  /** An order the scheduler used witnesses that the tasks have unique ids and can be ordered. */
  lemma PlannedHasOrder(tasks: seq<SettlementTask>, channels: seq<SettlementChannel>, order: seq<Id>)
    requires Scheduler.Planned(tasks, channels, order)
    ensures DistinctIds(tasks) && Dag.HasOrder(tasks)
  {
    forall x | x in Dag.Ids(tasks) ensures x in Dag.Elems(order) {
      var i :| 0 <= i < |tasks| && tasks[i].id == x;
      assert TaskIds(tasks)[i] == x;
      assert x in multiset(TaskIds(tasks));
    }
  }

  method Reflow(settlementTasks: seq<SettlementTask>, settlementChannels: seq<SettlementChannel>,
                tradeOrders: seq<TradeOrder>)
    returns (r: ReflowResult)
    ensures settlementTasks == [] ==> r == ReflowResult([], [], [NoTasksLine], ZeroMetrics(), [])
    ensures settlementTasks != [] && !(DistinctIds(settlementTasks) && Dag.HasOrder(settlementTasks)) ==>
      r.updatedTasks == settlementTasks && r.changes == [] && r.metrics == ZeroMetrics() &&
      |r.errors| == 1 && r.errors[0].CycleMessage? &&
      r.explanation == [AbortedLine(r.errors[0].cycle), ResolveCyclesLine] &&
      (r.errors[0].cycle != [] ==> Dag.Stuck(settlementTasks, Dag.Elems(r.errors[0].cycle)))
    ensures settlementTasks != [] && DistinctIds(settlementTasks) && Dag.HasOrder(settlementTasks) ==>
      var order := TaskIds(r.updatedTasks);
      Scheduler.Planned(settlementTasks, settlementChannels, order) &&
      r == Composed(settlementTasks, settlementChannels, tradeOrders,
                    Scheduler.Schedule(settlementTasks, settlementChannels, order))
  {
    if |settlementTasks| == 0 {
      return ReflowResult([], [], [NoTasksLine], ZeroMetrics(), []);
    }
    // structuredClone: the records are values, so the originals are the input itself.
    var originalTasks := settlementTasks;
    var outcome := Scheduler.ScheduleTasks(settlementTasks, settlementChannels);
    if outcome.Cycle? {
      return ReflowResult(originalTasks, [], [AbortedLine(outcome.cycle), ResolveCyclesLine], ZeroMetrics(),
                          [CycleMessage(outcome.cycle)]);
    }
    var scheduleResult := outcome.result;
    PlannedHasOrder(settlementTasks, settlementChannels, TaskIds(scheduleResult.updatedTasks));
    var violations := Checker.CheckConstraints(scheduleResult.updatedTasks, settlementChannels, Some(originalTasks));
    var constraintErrors := ViolationMessages(violations);
    var metrics := Metrics.ComputeMetrics(originalTasks, scheduleResult.updatedTasks, settlementChannels, tradeOrders);
    var schedulerErrors := SchedulerMessages(scheduleResult.errors);
    var explanation := BuildExplanation(scheduleResult.changes, metrics, schedulerErrors, constraintErrors);
    r := ReflowResult(scheduleResult.updatedTasks, scheduleResult.changes, explanation, metrics,
                      schedulerErrors + constraintErrors);
  }

  // ---------------------------------------------------------------------------
  // Properties of a scheduled reflow
  // ---------------------------------------------------------------------------

  /** Scheduler messages come first; the violation messages keep the violations' order. */
  lemma MessagesOrdered(se: seq<Scheduler.ScheduleError>, vs: seq<Checker.Violation>)
    requires CheckerProperties.Ranked(vs)
    ensures var es := SchedulerMessages(se) + ViolationMessages(vs);
      (forall i, j :: 0 <= i < j < |es| && es[j].SchedulerMessage? ==> es[i].SchedulerMessage?) &&
      (forall i, j :: 0 <= i < j < |es| && es[i].ViolationMessage? && es[j].ViolationMessage? ==>
        Checker.Rank(es[i].violation.kind) <= Checker.Rank(es[j].violation.kind))
  {
    var es := SchedulerMessages(se) + ViolationMessages(vs);
    var n := |se|;
    forall i, j | 0 <= i < j < |es| && es[i].ViolationMessage? && es[j].ViolationMessage?
      ensures Checker.Rank(es[i].violation.kind) <= Checker.Rank(es[j].violation.kind)
    {
      assert es[i] == ViolationMessage(vs[i - n]) && es[j] == ViolationMessage(vs[j - n]);
    }
  }

  /**
   * The errors are the scheduler's errors followed by the violation
   * messages, the violations in report order (dependencies, overlaps, hours,
   * blackouts, moved holds).
   */
  lemma ErrorsOrdered(tasks: seq<SettlementTask>, channels: seq<SettlementChannel>, tradeOrders: seq<TradeOrder>,
                      s: Scheduler.ScheduleResult)
    ensures var es := Composed(tasks, channels, tradeOrders, s).errors;
      (forall i, j :: 0 <= i < j < |es| && es[j].SchedulerMessage? ==> es[i].SchedulerMessage?) &&
      (forall i, j :: 0 <= i < j < |es| && es[i].ViolationMessage? && es[j].ViolationMessage? ==>
        Checker.Rank(es[i].violation.kind) <= Checker.Rank(es[j].violation.kind)) &&
      |es| == |s.errors| + |Checker.Violations(s.updatedTasks, channels, Some(tasks))|
  {
    var vs := Checker.Violations(s.updatedTasks, channels, Some(tasks));
    CheckerProperties.ReportOrder(s.updatedTasks, channels, Some(tasks));
    MessagesOrdered(s.errors, vs);
    assert Composed(tasks, channels, tradeOrders, s).errors == SchedulerMessages(s.errors) + ViolationMessages(vs);
  }

  /** When no hold moved, the report has no moved-hold violation. */
  lemma KeptHoldsReport(out: seq<SettlementTask>, channels: seq<SettlementChannel>, tasks: seq<SettlementTask>)
    requires Checker.MovedViolations(out, TaskMap(tasks)) == []
    ensures forall v :: v in Checker.Violations(out, channels, Some(tasks)) ==> !v.kind.HoldMoved?
  {
    assert Checker.Violations(out, channels, Some(tasks)) == Checker.Violations(out, channels, None);
    CheckerProperties.ReportOrder(out, channels, None);
  }

  lemma NoMovedMessage(se: seq<Scheduler.ScheduleError>, vs: seq<Checker.Violation>)
    requires forall v :: v in vs ==> !v.kind.HoldMoved?
    ensures forall m :: m in SchedulerMessages(se) + ViolationMessages(vs) ==> !(m.ViolationMessage? && m.violation.kind.HoldMoved?)
  {
    var es := SchedulerMessages(se) + ViolationMessages(vs);
    forall m | m in es ensures !(m.ViolationMessage? && m.violation.kind.HoldMoved?) {
      var i :| 0 <= i < |es| && es[i] == m;
      if i >= |se| {
        assert m == ViolationMessage(vs[i - |se|]);
      }
    }
  }

  /** A scheduled reflow never reports a moved regulatory hold. */
  lemma NoMovedHold(tasks: seq<SettlementTask>, channels: seq<SettlementChannel>, tradeOrders: seq<TradeOrder>,
                    order: seq<Id>)
    requires Scheduler.Planned(tasks, channels, order)
    ensures forall m :: m in Composed(tasks, channels, tradeOrders, Scheduler.Schedule(tasks, channels, order)).errors ==>
      !(m.ViolationMessage? && m.violation.kind.HoldMoved?)
  {
    var s := Scheduler.Schedule(tasks, channels, order);
    CheckerProperties.ScheduleKeepsHolds(tasks, channels, order);
    KeptHoldsReport(s.updatedTasks, channels, tasks);
    var vs := Checker.Violations(s.updatedTasks, channels, Some(tasks));
    NoMovedMessage(s.errors, vs);
    assert Composed(tasks, channels, tradeOrders, s).errors == SchedulerMessages(s.errors) + ViolationMessages(vs);
  }

  /** A scheduled reflow reports no error exactly when the scheduler reported none and its output satisfies every constraint. */
  lemma CleanIff(tasks: seq<SettlementTask>, channels: seq<SettlementChannel>, tradeOrders: seq<TradeOrder>,
                 s: Scheduler.ScheduleResult)
    ensures Composed(tasks, channels, tradeOrders, s).errors == [] <==>
      s.errors == [] && CheckerProperties.Satisfies(s.updatedTasks, channels, Some(tasks))
  {
    CheckerProperties.NoViolationsIff(s.updatedTasks, channels, Some(tasks));
    var vs := Checker.Violations(s.updatedTasks, channels, Some(tasks));
    assert |SchedulerMessages(s.errors) + ViolationMessages(vs)| == |s.errors| + |vs|;
  }

  /**
   * Unless the single sentence is written, the explanation ends with an
   * "Errors:" block listing the result's errors exactly when there are any.
   */
  lemma ExplainsErrors(tasks: seq<SettlementTask>, channels: seq<SettlementChannel>, tradeOrders: seq<TradeOrder>,
                       s: Scheduler.ScheduleResult)
    ensures var r := Composed(tasks, channels, tradeOrders, s);
      !Quiet(s.changes, SchedulerMessages(s.errors)) ==>
        (ErrorsHeaderLine in r.explanation <==> r.errors != []) &&
        (r.errors != [] ==> EndsWithErrors(r.explanation, r.errors))
  {
    var constraintErrors := ViolationMessages(Checker.Violations(s.updatedTasks, channels, Some(tasks)));
    var schedulerErrors := SchedulerMessages(s.errors);
    var metrics := Metrics.MetricsOf(tasks, s.updatedTasks, channels, tradeOrders);
    var r := Composed(tasks, channels, tradeOrders, s);
    ErrorsOfResult(s.changes, metrics, schedulerErrors, constraintErrors, r);
  }

  /** ErrorBlockIff restated for a result whose explanation and errors are built from the same messages. */
  lemma ErrorsOfResult(changes: seq<Scheduler.ScheduleChange>, metrics: ReflowMetrics,
                       schedulerErrors: seq<ErrorMessage>, constraintErrors: seq<ErrorMessage>, r: ReflowResult)
    requires r.explanation == Explanation(changes, metrics, schedulerErrors, constraintErrors)
    requires r.errors == schedulerErrors + constraintErrors
    ensures !Quiet(changes, schedulerErrors) ==>
      (ErrorsHeaderLine in r.explanation <==> r.errors != []) &&
      (r.errors != [] ==> EndsWithErrors(r.explanation, r.errors))
  {
    ErrorBlockIff(changes, metrics, schedulerErrors, constraintErrors);
  }
}
