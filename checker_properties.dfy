/**
 * What the constraint check's verdicts mean. Each check's violations are
 * characterised exactly (a violation is reported if and only if its
 * condition holds, with the task and the values it names); the whole report
 * is in check order and is empty exactly when the schedule satisfies every
 * constraint; and the scheduler's own output is shown to pass the checks
 * that its invariants cover.
 */
module CheckerProperties {
  import opened Types
  import opened DateUtils
  import opened CalendarProperties
  import opened Checker
  import Scheduler
  import ScheduleProperties
  import Dag

  // ---------------------------------------------------------------------------
  // Collecting per-task verdicts
  // ---------------------------------------------------------------------------

  lemma {:induction false} CollectIn(tasks: seq<SettlementTask>, f: SettlementTask -> seq<Violation>)
    ensures forall v :: v in Collect(tasks, f) <==> exists i :: 0 <= i < |tasks| && v in f(tasks[i])
  {
    if tasks != [] {
      var init := tasks[..|tasks| - 1];
      CollectIn(init, f);
      assert forall i :: 0 <= i < |init| ==> init[i] == tasks[i];
      forall v | exists i :: 0 <= i < |tasks| && v in f(tasks[i])
        ensures v in Collect(tasks, f)
      {
        var i :| 0 <= i < |tasks| && v in f(tasks[i]);
        if i < |init| {
          assert v in f(init[i]);
        }
      }
    }
  }

  /** A check that flags each task at most once reports at most one violation per task. */
  lemma {:induction false} CollectBound(tasks: seq<SettlementTask>, f: SettlementTask -> seq<Violation>)
    requires forall i :: 0 <= i < |tasks| ==> |f(tasks[i])| <= 1
    ensures |Collect(tasks, f)| <= |tasks|
  {
    if tasks != [] {
      var init := tasks[..|tasks| - 1];
      assert forall i :: 0 <= i < |init| ==> init[i] == tasks[i];
      CollectBound(init, f);
    }
  }

  // ---------------------------------------------------------------------------
  // Dependencies
  // ---------------------------------------------------------------------------

  /** A known upstream task that ends after `t` starts. */
  predicate LateUpstream(t: SettlementTask, d: Id, taskMap: map<Id, SettlementTask>)
  {
    d in taskMap && t.startDate < taskMap[d].endDate
  }

  lemma {:induction false} UpstreamIn(t: SettlementTask, deps: seq<Id>, taskMap: map<Id, SettlementTask>)
    ensures forall v :: v in UpstreamViolations(t, deps, taskMap) <==>
      exists j :: 0 <= j < |deps| && LateUpstream(t, deps[j], taskMap) &&
        v == Violation(DependencyViolated(taskMap[deps[j]].taskReference), t.id, t.taskReference)
  {
    if deps != [] {
      var init := deps[..|deps| - 1];
      UpstreamIn(t, init, taskMap);
      assert forall j :: 0 <= j < |init| ==> init[j] == deps[j];
    }
  }

  /**
   * A dependency violation is reported exactly for a task and a listed
   * upstream id that names a known task ending after the task starts; unknown
   * upstream ids are skipped.
   */
  lemma DependencyIn(tasks: seq<SettlementTask>, taskMap: map<Id, SettlementTask>)
    ensures forall v :: v in DependencyViolations(tasks, taskMap) <==>
      exists i, j :: 0 <= i < |tasks| && 0 <= j < |tasks[i].dependsOnTaskIds| &&
        LateUpstream(tasks[i], tasks[i].dependsOnTaskIds[j], taskMap) &&
        v == Violation(DependencyViolated(taskMap[tasks[i].dependsOnTaskIds[j]].taskReference), tasks[i].id, tasks[i].taskReference)
    ensures DependencyViolations(tasks, taskMap) == [] <==>
      forall i, d :: 0 <= i < |tasks| && d in tasks[i].dependsOnTaskIds && d in taskMap ==>
        taskMap[d].endDate <= tasks[i].startDate
  {
    CollectIn(tasks, (t: SettlementTask) => UpstreamViolations(t, t.dependsOnTaskIds, taskMap));
    forall i | 0 <= i < |tasks| {
      UpstreamIn(tasks[i], tasks[i].dependsOnTaskIds, taskMap);
    }
    var vs := DependencyViolations(tasks, taskMap);
    if vs != [] {
      assert vs[0] in vs;
    }
    if exists i, d :: 0 <= i < |tasks| && d in tasks[i].dependsOnTaskIds && LateUpstream(tasks[i], d, taskMap) {
      var i, d :| 0 <= i < |tasks| && d in tasks[i].dependsOnTaskIds && LateUpstream(tasks[i], d, taskMap);
      var j :| 0 <= j < |tasks[i].dependsOnTaskIds| && tasks[i].dependsOnTaskIds[j] == d;
      assert Violation(DependencyViolated(taskMap[d].taskReference), tasks[i].id, tasks[i].taskReference) in vs;
    }
  }

  // ---------------------------------------------------------------------------
  // Channel overlaps
  // ---------------------------------------------------------------------------

  /** Each task of a group ends no later than the next one starts. */
  predicate Chained(s: seq<SettlementTask>)
  {
    forall i :: 0 <= i < |s| - 1 ==> s[i].endDate <= s[i + 1].startDate
  }

  /** Start dates never decrease along the sequence. */
  predicate StartSorted(s: seq<SettlementTask>)
  {
    forall j, k :: 0 <= j < k < |s| ==> s[j].startDate <= s[k].startDate
  }

  /** The pair at `i` of a sorted group overlaps, and `v` is its violation. */
  predicate OverlapAt(s: seq<SettlementTask>, i: int, v: Violation)
  {
    0 <= i < |s| - 1 && s[i].endDate > s[i + 1].startDate &&
    v == Violation(ChannelOverlap(s[i].taskReference), s[i + 1].id, s[i + 1].taskReference)
  }

  lemma {:induction false} PairIn(s: seq<SettlementTask>)
    ensures forall v :: v in PairViolations(s) <==> exists i :: OverlapAt(s, i, v)
    ensures PairViolations(s) == [] <==> Chained(s)
  {
    if |s| >= 2 {
      var n := |s| - 1;
      var init := s[..n];
      PairIn(init);
      var last := if s[n - 1].endDate > s[n].startDate
        then [Violation(ChannelOverlap(s[n - 1].taskReference), s[n].id, s[n].taskReference)] else [];
      assert PairViolations(s) == PairViolations(init) + last;
      forall v ensures v in PairViolations(s) <==> exists i :: OverlapAt(s, i, v) {
        if v in PairViolations(init) {
          var i :| OverlapAt(init, i, v);
          assert init[i] == s[i] && init[i + 1] == s[i + 1];
          assert OverlapAt(s, i, v);
        } else if v in last {
          assert OverlapAt(s, n - 1, v);
        }
        if exists i :: OverlapAt(s, i, v) {
          var i :| OverlapAt(s, i, v);
          if i < n - 1 {
            assert init[i] == s[i] && init[i + 1] == s[i + 1];
            assert OverlapAt(init, i, v);
          } else {
            assert v in last;
          }
        }
      }
    }
    var vs := PairViolations(s);
    if vs != [] {
      assert vs[0] in vs;
    }
    if !Chained(s) {
      var i :| 0 <= i < |s| - 1 && s[i].endDate > s[i + 1].startDate;
      assert OverlapAt(s, i, Violation(ChannelOverlap(s[i].taskReference), s[i + 1].id, s[i + 1].taskReference));
    }
  }

  /** In a chained group of tasks that do not end before they start, every task ends by the start of every later one. */
  lemma ChainOrdered(s: seq<SettlementTask>)
    requires Chained(s)
    requires forall i :: 0 <= i < |s| ==> s[i].startDate <= s[i].endDate
    ensures forall j, k :: 0 <= j < k < |s| ==> s[j].endDate <= s[k].startDate
  {
    forall j, k | 0 <= j < k < |s| ensures s[j].endDate <= s[k].startDate {
      ChainStep(s, j, k);
    }
  }

  lemma {:induction false} ChainStep(s: seq<SettlementTask>, j: nat, k: nat)
    requires Chained(s)
    requires forall i :: 0 <= i < |s| ==> s[i].startDate <= s[i].endDate
    requires j < k < |s|
    ensures s[j].endDate <= s[k].startDate
    decreases k - j
  {
    if j + 1 < k {
      ChainStep(s, j, k - 1);
      assert s[k - 1].startDate <= s[k - 1].endDate <= s[k].startDate;
    }
  }

  lemma {:induction false} InsertPerm(x: SettlementTask, s: seq<SettlementTask>)
    ensures multiset(InsertByStart(x, s)) == multiset(s) + multiset{x}
  {
    if s != [] && x.startDate >= s[0].startDate {
      InsertPerm(x, s[1..]);
      assert s == [s[0]] + s[1..];
    }
  }

  /** Every task of `s` starts no earlier than `lo`. */
  predicate StartsFrom(s: seq<SettlementTask>, lo: Instant)
  {
    forall k :: 0 <= k < |s| ==> lo <= s[k].startDate
  }

  lemma {:induction false} InsertSorted(x: SettlementTask, s: seq<SettlementTask>)
    requires StartSorted(s)
    ensures StartSorted(InsertByStart(x, s))
    ensures forall lo :: StartsFrom(s, lo) && lo <= x.startDate ==> StartsFrom(InsertByStart(x, s), lo)
  {
    if s != [] && x.startDate >= s[0].startDate {
      var rest := InsertByStart(x, s[1..]);
      InsertSorted(x, s[1..]);
      assert StartsFrom(s[1..], s[0].startDate);
      var r := [s[0]] + rest;
      forall j, k | 0 <= j < k < |r| ensures r[j].startDate <= r[k].startDate {
        if j > 0 {
          assert r[j] == rest[j - 1] && r[k] == rest[k - 1];
        } else {
          assert r[k] == rest[k - 1];
        }
      }
      forall lo | StartsFrom(s, lo) && lo <= x.startDate ensures StartsFrom(r, lo) {
        assert StartsFrom(s[1..], lo);
        forall k | 0 <= k < |r| ensures lo <= r[k].startDate {
          if k > 0 {
            assert r[k] == rest[k - 1];
          }
        }
      }
    }
  }

  /** The sort keeps every task. */
  lemma {:induction false} SortPerm(s: seq<SettlementTask>)
    ensures multiset(SortByStartDate(s)) == multiset(s)
  {
    if s != [] {
      var init := s[..|s| - 1];
      SortPerm(init);
      InsertPerm(s[|s| - 1], SortByStartDate(init));
      assert s == init + [s[|s| - 1]];
    }
  }

  /** The sort orders by start date. */
  lemma {:induction false} SortSorted(s: seq<SettlementTask>)
    ensures StartSorted(SortByStartDate(s))
  {
    if s != [] {
      var init := s[..|s| - 1];
      SortSorted(init);
      InsertSorted(s[|s| - 1], SortByStartDate(init));
    }
  }

  /** A channel's group holds the tasks on that channel, each as often as in the list. */
  lemma {:induction false} OnChannelFacts(tasks: seq<SettlementTask>, c: Id)
    ensures forall x :: multiset(OnChannel(tasks, c))[x] == if x.settlementChannelId == c then multiset(tasks)[x] else 0
  {
    if tasks != [] {
      var init := tasks[..|tasks| - 1];
      OnChannelFacts(init, c);
      assert tasks == init + [tasks[|tasks| - 1]];
    }
  }

  /** The keys are the channel ids of the tasks, each once. */
  lemma {:induction false} ChannelOrderFacts(tasks: seq<SettlementTask>)
    ensures forall c :: c in ChannelOrder(tasks) <==> exists i :: 0 <= i < |tasks| && tasks[i].settlementChannelId == c
    ensures forall j, k :: 0 <= j < k < |ChannelOrder(tasks)| ==> ChannelOrder(tasks)[j] != ChannelOrder(tasks)[k]
  {
    if tasks != [] {
      var init := tasks[..|tasks| - 1];
      ChannelOrderFacts(init);
      assert forall i :: 0 <= i < |init| ==> init[i] == tasks[i];
    }
  }

  lemma {:induction false} GroupIn(tasks: seq<SettlementTask>, keys: seq<Id>)
    ensures forall v :: v in GroupViolations(tasks, keys) <==>
      exists k :: 0 <= k < |keys| && v in PairViolations(SortByStartDate(OnChannel(tasks, keys[k])))
  {
    if keys != [] {
      var init := keys[..|keys| - 1];
      GroupIn(tasks, init);
      assert forall k :: 0 <= k < |init| ==> init[k] == keys[k];
    }
  }

  /** A violation of a channel's group is in the report of the keys holding that channel. */
  lemma GroupMember(tasks: seq<SettlementTask>, keys: seq<Id>, c: Id, v: Violation)
    requires c in keys && v in PairViolations(SortByStartDate(OnChannel(tasks, c)))
    ensures v in GroupViolations(tasks, keys)
  {
    GroupIn(tasks, keys);
    var k :| 0 <= k < |keys| && keys[k] == c;
  }

  /**
   * A violation is in the overlap report exactly when it names the later of
   * two consecutive tasks of a channel's start-sorted group where the earlier
   * one ends after the later one starts.
   */
  lemma OverlapIn(tasks: seq<SettlementTask>, v: Violation)
    ensures v in OverlapViolations(tasks) <==>
      exists c, i :: c in ChannelOrder(tasks) && OverlapAt(SortByStartDate(OnChannel(tasks, c)), i, v)
  {
    var keys := ChannelOrder(tasks);
    if v in OverlapViolations(tasks) {
      GroupIn(tasks, keys);
      var k :| 0 <= k < |keys| && v in PairViolations(SortByStartDate(OnChannel(tasks, keys[k])));
      var s := SortByStartDate(OnChannel(tasks, keys[k]));
      PairIn(s);
      var i :| OverlapAt(s, i, v);
      assert keys[k] in keys && OverlapAt(SortByStartDate(OnChannel(tasks, keys[k])), i, v);
    }
    if exists c, i :: c in keys && OverlapAt(SortByStartDate(OnChannel(tasks, c)), i, v) {
      var c, i :| c in keys && OverlapAt(SortByStartDate(OnChannel(tasks, c)), i, v);
      PairIn(SortByStartDate(OnChannel(tasks, c)));
      GroupMember(tasks, keys, c, v);
    }
  }

  /** Every channel's start-sorted group is chained. */
  ghost predicate ChannelsChained(tasks: seq<SettlementTask>)
  {
    forall c :: Chained(SortByStartDate(OnChannel(tasks, c)))
  }

  /** No overlap is reported iff every channel's sorted group is chained. */
  lemma OverlapNil(tasks: seq<SettlementTask>)
    ensures OverlapViolations(tasks) == [] <==> ChannelsChained(tasks)
  {
    var keys := ChannelOrder(tasks);
    var vs := OverlapViolations(tasks);
    if vs != [] {
      var v := vs[0];
      OverlapIn(tasks, v);
      var c, i :| c in keys && OverlapAt(SortByStartDate(OnChannel(tasks, c)), i, v);
      PairIn(SortByStartDate(OnChannel(tasks, c)));
    } else {
      forall c ensures Chained(SortByStartDate(OnChannel(tasks, c))) {
        var s := SortByStartDate(OnChannel(tasks, c));
        PairIn(s);
        if c !in keys {
          AbsentChannel(tasks, c);
        } else {
          forall i | 0 <= i < |s| - 1 ensures s[i].endDate <= s[i + 1].startDate {
            if s[i].endDate > s[i + 1].startDate {
              var w := Violation(ChannelOverlap(s[i].taskReference), s[i + 1].id, s[i + 1].taskReference);
              assert OverlapAt(s, i, w);
              GroupMember(tasks, keys, c, w);
            }
          }
        }
      }
    }
  }

  /**
   * With no overlap reported, and no task ending before it starts, every task
   * of a channel's sorted group ends by the start of every later task of it.
   */
  lemma ChannelsApart(tasks: seq<SettlementTask>, c: Id)
    requires OverlapViolations(tasks) == []
    requires forall i :: 0 <= i < |tasks| ==> tasks[i].startDate <= tasks[i].endDate
    ensures var s := SortByStartDate(OnChannel(tasks, c));
      StartSorted(s) && multiset(s) == multiset(OnChannel(tasks, c)) &&
      forall j, k :: 0 <= j < k < |s| ==> s[j].endDate <= s[k].startDate
  {
    var s := SortByStartDate(OnChannel(tasks, c));
    OverlapNil(tasks);
    SortPerm(OnChannel(tasks, c));
    SortSorted(OnChannel(tasks, c));
    OnChannelFacts(tasks, c);
    assert Chained(s);
    forall i | 0 <= i < |s| ensures s[i].startDate <= s[i].endDate {
      assert s[i] in multiset(s);
      assert multiset(tasks)[s[i]] > 0;
      var m :| 0 <= m < |tasks| && tasks[m] == s[i];
    }
    ChainOrdered(s);
  }

  // ---------------------------------------------------------------------------
  // Operating hours
  // ---------------------------------------------------------------------------

  /** A task starts at its own next slot and the available minutes to its end are its prep plus duration. */
  predicate OnHours(t: SettlementTask, channel: SettlementChannel)
  {
    var bs := ParseBlackoutWindows(channel.blackoutWindows);
    NextSlotFrom(t.startDate, channel.operatingHours, bs, MaxDays) == Some(t.startDate) &&
    CountAvailable(t.startDate, t.endDate, channel.operatingHours, bs) == EffectiveDuration(t)
  }

  /** The check applies to `t`: it is not pinned and its channel is known. */
  predicate HoursApply(t: SettlementTask, channelMap: map<Id, SettlementChannel>)
  {
    !t.isRegulatoryHold && t.settlementChannelId in channelMap
  }

  /** `v` is the verdict on an unpinned task on a known channel that is not on hours: its start, else its minutes. */
  predicate HoursFlag(t: SettlementTask, channelMap: map<Id, SettlementChannel>, v: Violation)
  {
    HoursApply(t, channelMap) && !OnHours(t, channelMap[t.settlementChannelId]) &&
    v.taskId == t.id && v.taskReference == t.taskReference &&
    var channel := channelMap[t.settlementChannelId];
    var bs := ParseBlackoutWindows(channel.blackoutWindows);
    if NextSlotFrom(t.startDate, channel.operatingHours, bs, MaxDays) != Some(t.startDate)
    then v.kind == StartOutsideHours
    else v.kind == DurationOutsideHours(EffectiveDuration(t), CountAvailable(t.startDate, t.endDate, channel.operatingHours, bs))
  }

  /** Every unpinned task on a known channel is on hours. */
  predicate AllOnHours(tasks: seq<SettlementTask>, channelMap: map<Id, SettlementChannel>)
  {
    forall i :: 0 <= i < |tasks| && HoursApply(tasks[i], channelMap) ==> OnHours(tasks[i], channelMap[tasks[i].settlementChannelId])
  }

  /**
   * Pinned tasks and unknown channels are skipped; every other task is
   * flagged at most once, for its start or else for its minutes, exactly when
   * it is not on hours.
   */
  lemma HoursIn(tasks: seq<SettlementTask>, channelMap: map<Id, SettlementChannel>)
    ensures |HoursViolations(tasks, channelMap)| <= |tasks|
    ensures forall v :: v in HoursViolations(tasks, channelMap) <==>
      exists i :: 0 <= i < |tasks| && HoursFlag(tasks[i], channelMap, v)
    ensures HoursViolations(tasks, channelMap) == [] <==> AllOnHours(tasks, channelMap)
  {
    var f := (t: SettlementTask) => HoursViolation(t, channelMap);
    CollectIn(tasks, f);
    CollectBound(tasks, f);
    forall i, v | 0 <= i < |tasks| ensures v in f(tasks[i]) <==> HoursFlag(tasks[i], channelMap, v) {
      HoursOne(tasks[i], channelMap, v);
    }
    var vs := HoursViolations(tasks, channelMap);
    if vs != [] {
      assert vs[0] in vs;
    }
    forall i | 0 <= i < |tasks| && HoursApply(tasks[i], channelMap) && !OnHours(tasks[i], channelMap[tasks[i].settlementChannelId])
      ensures vs != []
    {
      assert HoursViolation(tasks[i], channelMap)[0] in vs;
    }
  }

  lemma HoursOne(t: SettlementTask, channelMap: map<Id, SettlementChannel>, v: Violation)
    ensures v in HoursViolation(t, channelMap) <==> HoursFlag(t, channelMap, v)
  {
  }

  // ---------------------------------------------------------------------------
  // Blackouts
  // ---------------------------------------------------------------------------

  /** A pinned task on a known channel that overlaps one of the channel's blackouts. */
  predicate HoldInBlackout(t: SettlementTask, channelMap: map<Id, SettlementChannel>)
  {
    t.isRegulatoryHold && t.settlementChannelId in channelMap &&
    OverlapsBlackout(t.startDate, t.endDate, ParseBlackoutWindows(channelMap[t.settlementChannelId].blackoutWindows))
  }

  /** A blackout violation is reported exactly for a pinned task on a known channel overlapping one of its blackouts. */
  lemma BlackoutIn(tasks: seq<SettlementTask>, channelMap: map<Id, SettlementChannel>)
    ensures forall v :: v in BlackoutViolations(tasks, channelMap) <==>
      exists i :: 0 <= i < |tasks| && HoldInBlackout(tasks[i], channelMap) &&
        v == Violation(BlackoutOverlap, tasks[i].id, tasks[i].taskReference)
    ensures BlackoutViolations(tasks, channelMap) == [] <==>
      forall i :: 0 <= i < |tasks| ==> !HoldInBlackout(tasks[i], channelMap)
  {
    CollectIn(tasks, (t: SettlementTask) => BlackoutViolation(t, channelMap));
    var b := BlackoutViolations(tasks, channelMap);
    if b != [] {
      assert b[0] in b;
    }
    forall i | 0 <= i < |tasks| && HoldInBlackout(tasks[i], channelMap) ensures b != [] {
      assert Violation(BlackoutOverlap, tasks[i].id, tasks[i].taskReference) in b;
    }
  }

  // ---------------------------------------------------------------------------
  // Moved holds
  // ---------------------------------------------------------------------------

  /** A pinned task whose original with the same id has another start or end. */
  predicate Moved(t: SettlementTask, originalMap: map<Id, SettlementTask>)
  {
    t.isRegulatoryHold && t.id in originalMap &&
    (t.startDate != originalMap[t.id].startDate || t.endDate != originalMap[t.id].endDate)
  }

  /** A moved-hold violation is reported exactly for a moved pinned task, with its original and new dates. */
  lemma MovedIn(tasks: seq<SettlementTask>, originalMap: map<Id, SettlementTask>)
    ensures forall v :: v in MovedViolations(tasks, originalMap) <==>
      exists i :: 0 <= i < |tasks| && Moved(tasks[i], originalMap) &&
        v == Violation(HoldMoved(originalMap[tasks[i].id].startDate, originalMap[tasks[i].id].endDate,
                                 tasks[i].startDate, tasks[i].endDate), tasks[i].id, tasks[i].taskReference)
    ensures MovedViolations(tasks, originalMap) == [] <==>
      forall i :: 0 <= i < |tasks| ==> !Moved(tasks[i], originalMap)
  {
    CollectIn(tasks, (t: SettlementTask) => MovedViolation(t, originalMap));
    var m := MovedViolations(tasks, originalMap);
    if m != [] {
      assert m[0] in m;
    }
    forall i | 0 <= i < |tasks| && Moved(tasks[i], originalMap) ensures m != [] {
      assert MovedViolation(tasks[i], originalMap)[0] in m;
    }
  }

  // ---------------------------------------------------------------------------
  // The whole report
  // ---------------------------------------------------------------------------

  /** Kinds never go back in report order. */
  predicate Ranked(vs: seq<Violation>)
  {
    forall i, j :: 0 <= i < j < |vs| ==> Rank(vs[i].kind) <= Rank(vs[j].kind)
  }

  /** Every violation in `vs` has rank `r`. */
  predicate AllRank(vs: seq<Violation>, r: nat)
  {
    forall v :: v in vs ==> Rank(v.kind) == r
  }

  lemma RankedAppend(a: seq<Violation>, b: seq<Violation>, r: nat)
    requires Ranked(a) && forall v :: v in a ==> Rank(v.kind) <= r
    requires AllRank(b, r)
    ensures Ranked(a + b) && forall v :: v in a + b ==> Rank(v.kind) <= r
  {
    var ab := a + b;
    forall i, j | 0 <= i < j < |ab| ensures Rank(ab[i].kind) <= Rank(ab[j].kind) {
      if j < |a| {
        assert ab[i] == a[i] && ab[j] == a[j];
      } else if i < |a| {
        assert ab[i] in a && ab[j] in b;
      } else {
        assert ab[i] in b && ab[j] in b;
      }
    }
  }

  lemma {:induction false} CollectRank(tasks: seq<SettlementTask>, f: SettlementTask -> seq<Violation>, r: nat)
    requires forall i :: 0 <= i < |tasks| ==> AllRank(f(tasks[i]), r)
    ensures AllRank(Collect(tasks, f), r)
  {
    CollectIn(tasks, f);
    forall v | v in Collect(tasks, f) ensures Rank(v.kind) == r {
      var i :| 0 <= i < |tasks| && v in f(tasks[i]);
    }
  }

  lemma {:induction false} UpstreamRank(t: SettlementTask, deps: seq<Id>, taskMap: map<Id, SettlementTask>)
    ensures AllRank(UpstreamViolations(t, deps, taskMap), 0)
  {
    if deps != [] {
      UpstreamRank(t, deps[..|deps| - 1], taskMap);
    }
  }

  lemma {:induction false} PairRank(s: seq<SettlementTask>)
    ensures AllRank(PairViolations(s), 1)
  {
    if |s| >= 2 {
      PairRank(s[..|s| - 1]);
    }
  }

  lemma {:induction false} GroupRank(tasks: seq<SettlementTask>, keys: seq<Id>)
    ensures AllRank(GroupViolations(tasks, keys), 1)
  {
    if keys != [] {
      GroupRank(tasks, keys[..|keys| - 1]);
      PairRank(SortByStartDate(OnChannel(tasks, keys[|keys| - 1])));
    }
  }

  lemma DependencyRank(tasks: seq<SettlementTask>, taskMap: map<Id, SettlementTask>)
    ensures AllRank(DependencyViolations(tasks, taskMap), 0)
  {
    forall i | 0 <= i < |tasks| ensures AllRank(UpstreamViolations(tasks[i], tasks[i].dependsOnTaskIds, taskMap), 0) {
      UpstreamRank(tasks[i], tasks[i].dependsOnTaskIds, taskMap);
    }
    CollectRank(tasks, (t: SettlementTask) => UpstreamViolations(t, t.dependsOnTaskIds, taskMap), 0);
  }

  lemma HoursRank(tasks: seq<SettlementTask>, channelMap: map<Id, SettlementChannel>)
    ensures AllRank(HoursViolations(tasks, channelMap), 2)
  {
    CollectRank(tasks, (t: SettlementTask) => HoursViolation(t, channelMap), 2);
  }

  lemma BlackoutRank(tasks: seq<SettlementTask>, channelMap: map<Id, SettlementChannel>)
    ensures AllRank(BlackoutViolations(tasks, channelMap), 3)
  {
    CollectRank(tasks, (t: SettlementTask) => BlackoutViolation(t, channelMap), 3);
  }

  lemma MovedRank(tasks: seq<SettlementTask>, originalMap: map<Id, SettlementTask>)
    ensures AllRank(MovedViolations(tasks, originalMap), 4)
  {
    CollectRank(tasks, (t: SettlementTask) => MovedViolation(t, originalMap), 4);
  }

  /**
   * The report lists dependency violations, then channel overlaps, then
   * operating hours, then blackouts, then moved holds; moved holds appear only
   * when original tasks are given.
   */
  lemma ReportOrder(tasks: seq<SettlementTask>, channels: seq<SettlementChannel>, originals: Option<seq<SettlementTask>>)
    ensures Ranked(Violations(tasks, channels, originals))
    ensures originals.None? ==> forall v :: v in Violations(tasks, channels, originals) ==> !v.kind.HoldMoved?
  {
    var channelMap := ChannelMap(channels);
    var taskMap := TaskMap(tasks);
    var d := DependencyViolations(tasks, taskMap);
    var o := OverlapViolations(tasks);
    var h := HoursViolations(tasks, channelMap);
    var b := BlackoutViolations(tasks, channelMap);
    var m := if originals.Some? then MovedViolations(tasks, TaskMap(originals.value)) else [];
    DependencyRank(tasks, taskMap);
    GroupRank(tasks, ChannelOrder(tasks));
    HoursRank(tasks, channelMap);
    BlackoutRank(tasks, channelMap);
    if originals.Some? {
      MovedRank(tasks, TaskMap(originals.value));
    }
    assert Violations(tasks, channels, originals) == d + o + h + b + m;
    RankedParts(d, o, h, b, m);
  }

  /** Five blocks of ranks 0 to 4 in turn make a ranked report; without the last, no kind of rank 4 appears. */
  lemma RankedParts(d: seq<Violation>, o: seq<Violation>, h: seq<Violation>, b: seq<Violation>, m: seq<Violation>)
    requires AllRank(d, 0) && AllRank(o, 1) && AllRank(h, 2) && AllRank(b, 3) && AllRank(m, 4)
    ensures Ranked(d + o + h + b + m)
    ensures m == [] ==> forall v :: v in d + o + h + b + m ==> !v.kind.HoldMoved?
  {
    assert [] + d == d;
    RankedAppend([], d, 0);
    RankedAppend(d, o, 1);
    RankedAppend(d + o, h, 2);
    RankedAppend(d + o + h, b, 3);
    RankedAppend(d + o + h + b, m, 4);
    if m == [] {
      assert d + o + h + b + m == d + o + h + b;
    }
  }

  /** Every known upstream of every task ends by the task's start. */
  predicate DependenciesMet(tasks: seq<SettlementTask>, taskMap: map<Id, SettlementTask>)
  {
    forall i, d :: 0 <= i < |tasks| && d in tasks[i].dependsOnTaskIds && d in taskMap ==>
      taskMap[d].endDate <= tasks[i].startDate
  }

  /** The constraints the report checks, stated directly. */
  ghost predicate Satisfies(tasks: seq<SettlementTask>, channels: seq<SettlementChannel>, originals: Option<seq<SettlementTask>>)
  {
    DependenciesMet(tasks, TaskMap(tasks)) &&
    ChannelsChained(tasks) &&
    AllOnHours(tasks, ChannelMap(channels)) &&
    (forall i :: 0 <= i < |tasks| ==> !HoldInBlackout(tasks[i], ChannelMap(channels))) &&
    (originals.Some? ==> forall i :: 0 <= i < |tasks| ==> !Moved(tasks[i], TaskMap(originals.value)))
  }

  /** The report is empty exactly when every constraint holds. */
  lemma NoViolationsIff(tasks: seq<SettlementTask>, channels: seq<SettlementChannel>, originals: Option<seq<SettlementTask>>)
    ensures Violations(tasks, channels, originals) == [] <==> Satisfies(tasks, channels, originals)
  {
    var channelMap := ChannelMap(channels);
    var taskMap := TaskMap(tasks);
    var d := DependencyViolations(tasks, taskMap);
    var o := OverlapViolations(tasks);
    var h := HoursViolations(tasks, channelMap);
    var b := BlackoutViolations(tasks, channelMap);
    var m := if originals.Some? then MovedViolations(tasks, TaskMap(originals.value)) else [];
    assert Violations(tasks, channels, originals) == d + o + h + b + m;
    assert d + o + h + b + m == [] <==> d == [] && o == [] && h == [] && b == [] && m == [];
    DependencyIn(tasks, taskMap);
    OverlapNil(tasks);
    HoursIn(tasks, channelMap);
    BlackoutIn(tasks, channelMap);
    if originals.Some? {
      MovedIn(tasks, TaskMap(originals.value));
    }
  }

  // ---------------------------------------------------------------------------
  // The scheduler's output against the checks
  // ---------------------------------------------------------------------------

  /** Each channel's blackouts in the environment are the parsed windows of that channel. */
  predicate BlackoutsParsed(env: Scheduler.Env)
  {
    forall c :: c in env.channelMap ==>
      Scheduler.BlackoutsFor(env, c) == ParseBlackoutWindows(env.channelMap[c].blackoutWindows)
  }

  lemma MakeEnvParsed(tasks: seq<SettlementTask>, channels: seq<SettlementChannel>)
    ensures BlackoutsParsed(Scheduler.MakeEnv(tasks, channels))
  {
    ScheduleProperties.ChannelBlackoutsFacts(channels);
  }

  /** With each id once in the order, no final copy of a task is a moved hold. */
  lemma FinalKeepsHolds(env: Scheduler.Env, order: seq<Id>, k: nat)
    requires Scheduler.Known(env, order) && Dag.Distinct(order) && k < |order| && ScheduleProperties.Indexed(env)
    ensures order[k] in Scheduler.Run(env, order).updated &&
      !Moved(Scheduler.Run(env, order).updated[order[k]], env.taskMap)
  {
    var t := env.taskMap[order[k]];
    var f := ScheduleProperties.FateAt(env, order, k);
    ScheduleProperties.FinalOfTask(env, order, k);
    if f.Placed? {
      ScheduleProperties.PlacedBounds(env, t, ScheduleProperties.At(env, order, k), f.earliest, f.start, f.end);
    } else {
      assert t.id == order[k];
    }
  }

  /** The scheduler never moves a regulatory hold, so the moved-hold check is silent on its output. */
  lemma ScheduleKeepsHolds(tasks: seq<SettlementTask>, channels: seq<SettlementChannel>, order: seq<Id>)
    requires DistinctIds(tasks) && Dag.Distinct(order) && Scheduler.Known(Scheduler.MakeEnv(tasks, channels), order)
    ensures MovedViolations(Scheduler.Schedule(tasks, channels, order).updatedTasks, TaskMap(tasks)) == []
  {
    var out := Scheduler.Schedule(tasks, channels, order).updatedTasks;
    forall i | 0 <= i < |out| ensures !Moved(out[i], TaskMap(tasks)) {
      OutputKeepsHold(tasks, channels, order, i);
    }
    MovedIn(out, TaskMap(tasks));
  }

  /** ScheduleKeepsHolds for the copy at position `i` of the output. */
  lemma OutputKeepsHold(tasks: seq<SettlementTask>, channels: seq<SettlementChannel>, order: seq<Id>, i: int)
    requires DistinctIds(tasks) && Dag.Distinct(order) && Scheduler.Known(Scheduler.MakeEnv(tasks, channels), order)
    requires 0 <= i < |Scheduler.Schedule(tasks, channels, order).updatedTasks|
    ensures !Moved(Scheduler.Schedule(tasks, channels, order).updatedTasks[i], TaskMap(tasks))
  {
    var env := Scheduler.MakeEnv(tasks, channels);
    FinalKeepsHolds(env, order, i);
  }

  /**
   * A placed task's copy passes the operating-hours check when its channel's
   * slots do not overlap and its prep plus duration is not negative.
   */
  lemma PlacedOnHours(env: Scheduler.Env, order: seq<Id>, k: nat)
    requires Scheduler.Known(env, order) && Dag.Distinct(order) && k < |order| && BlackoutsParsed(env)
    requires ScheduleProperties.FateAt(env, order, k).Placed?
    requires env.taskMap[order[k]].settlementChannelId in env.channelMap &&
      Regular(env.channelMap[env.taskMap[order[k]].settlementChannelId].operatingHours)
    requires EffectiveDuration(env.taskMap[order[k]]) >= 0
    ensures order[k] in Scheduler.Run(env, order).updated &&
      HoursViolation(Scheduler.Run(env, order).updated[order[k]], env.channelMap) == []
  {
    var t := env.taskMap[order[k]];
    var f := ScheduleProperties.FateAt(env, order, k);
    ScheduleProperties.PlacedBounds(env, t, ScheduleProperties.At(env, order, k), f.earliest, f.start, f.end);
    ScheduleProperties.PlacedRoundTrip(env, order, k);
    ScheduleProperties.FinalOfTask(env, order, k);
  }

  /**
   * The blackout check flags a task's copy exactly when the scheduler found
   * that task to be a hold overlapping a blackout of its channel.
   */
  lemma BlackoutAgrees(env: Scheduler.Env, order: seq<Id>, k: nat)
    requires Scheduler.Known(env, order) && Dag.Distinct(order) && k < |order| && BlackoutsParsed(env)
    ensures order[k] in Scheduler.Run(env, order).updated &&
      var f := ScheduleProperties.FateAt(env, order, k);
      var copy := Scheduler.Run(env, order).updated[order[k]];
      (BlackoutViolation(copy, env.channelMap) != [] <==> f.Pinned? && f.overlapsBlackout)
  {
    ScheduleProperties.FinalOfTask(env, order, k);
  }
}
