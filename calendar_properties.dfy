/**
 * What the calendar arithmetic of module DateUtils promises: the shape of a
 * day's windows, what blackout subtraction keeps and removes, and the
 * properties of the next-slot search, the duration walk and the minute count.
 *
 * Several properties hold only for a channel whose slots on one weekday do not
 * overlap each other (`Regular`). With overlapping slots the duration walk and
 * the minute count both count the shared minutes twice.
 */
module CalendarProperties {
  import opened Types
  import opened DateUtils

  // ---------------------------------------------------------------------------
  // Vocabulary
  // ---------------------------------------------------------------------------

  predicate Inside(p: Interval, w: Interval)
  {
    w.start <= p.start && p.end <= w.end
  }

  predicate Disjoint(a: Interval, b: Interval)
  {
    a.end <= b.start || b.end <= a.start
  }

  predicate SortedByStart(ws: seq<Interval>)
  {
    forall i, j :: 0 <= i < j < |ws| ==> ws[i].start <= ws[j].start
  }

  /** Some blackout of positive length contains the instant. */
  predicate BlockedBy(bs: seq<Interval>, t: Instant)
  {
    exists i :: 0 <= i < |bs| && Positive(bs[i]) && Contains(bs[i], t)
  }

  /** Some slot of the instant's weekday has a window containing it. */
  predicate SlotOpenAt(hours: seq<OperatingHourSlot>, t: Instant)
  {
    exists i :: 0 <= i < |hours| && hours[i].dayOfWeek == Weekday(DayOf(t)) && Contains(SlotWindow(DayOf(t), hours[i]), t)
  }

  /** Two slots of positive length on the same weekday never overlap. */
  predicate Regular(hours: seq<OperatingHourSlot>)
  {
    forall i, j :: 0 <= i < |hours| && 0 <= j < |hours| && i != j
      && hours[i].dayOfWeek == hours[j].dayOfWeek
      && hours[i].startHour < hours[i].endHour && hours[j].startHour < hours[j].endHour
      ==> hours[i].endHour <= hours[j].startHour || hours[j].endHour <= hours[i].startHour
  }

  // ---------------------------------------------------------------------------
  // Small facts about sequences of windows
  // ---------------------------------------------------------------------------

  lemma CoveredCons(ws: seq<Interval>, t: Instant)
    requires ws != []
    ensures Covered(ws, t) <==> Contains(ws[0], t) || Covered(ws[1..], t)
  {
    if Covered(ws, t) && !Contains(ws[0], t) {
      var k :| 0 <= k < |ws| && Contains(ws[k], t);
      assert ws[1..][k - 1] == ws[k];
    }
    if Covered(ws[1..], t) {
      var k :| 0 <= k < |ws[1..]| && Contains(ws[1..][k], t);
      assert ws[k + 1] == ws[1..][k];
    }
  }

  lemma CoveredConcat(a: seq<Interval>, b: seq<Interval>, t: Instant)
    ensures Covered(a + b, t) <==> Covered(a, t) || Covered(b, t)
  {
    if Covered(a + b, t) {
      var k :| 0 <= k < |a + b| && Contains((a + b)[k], t);
      if k >= |a| {
        assert (a + b)[k] == b[k - |a|];
      }
    }
    if Covered(b, t) {
      var k :| 0 <= k < |b| && Contains(b[k], t);
      assert (a + b)[|a| + k] == b[k];
    }
    if Covered(a, t) {
      var k :| 0 <= k < |a| && Contains(a[k], t);
      assert (a + b)[k] == a[k];
    }
  }

  lemma CoveredMember(ws: seq<Interval>, t: Instant)
    ensures Covered(ws, t) <==> exists w :: w in ws && Contains(w, t)
  {
    if exists w :: w in ws && Contains(w, t) {
      var w :| w in ws && Contains(w, t);
      var k :| 0 <= k < |ws| && ws[k] == w;
    }
  }

  lemma ChainConcat(a: seq<Interval>, b: seq<Interval>)
    requires Chain(a) && Chain(b)
    requires forall i, j :: 0 <= i < |a| && 0 <= j < |b| ==> a[i].end <= b[j].start
    ensures Chain(a + b)
  {
    forall i, j | 0 <= i < j < |a + b| ensures (a + b)[i].end <= (a + b)[j].start {
      if j < |a| {
        assert (a + b)[i] == a[i] && (a + b)[j] == a[j];
      } else if i < |a| {
        assert (a + b)[i] == a[i] && (a + b)[j] == b[j - |a|];
      } else {
        assert (a + b)[i] == b[i - |a|] && (a + b)[j] == b[j - |a|];
      }
    }
  }

  // ---------------------------------------------------------------------------
  // getOperatingWindowsForDate
  // ---------------------------------------------------------------------------

  lemma {:induction false} MatchingMember(day: int, hours: seq<OperatingHourSlot>, w: Interval)
    ensures w in MatchingWindows(day, hours) <==>
            exists i :: 0 <= i < |hours| && Matches(day, hours[i]) && w == SlotWindow(day, hours[i])
  {
    if hours != [] {
      MatchingMember(day, hours[1..], w);
      if w in MatchingWindows(day, hours[1..]) {
        var i :| 0 <= i < |hours[1..]| && Matches(day, hours[1..][i]) && w == SlotWindow(day, hours[1..][i]);
        assert hours[i + 1] == hours[1..][i];
      }
      if exists i :: 0 <= i < |hours| && Matches(day, hours[i]) && w == SlotWindow(day, hours[i]) {
        var i :| 0 <= i < |hours| && Matches(day, hours[i]) && w == SlotWindow(day, hours[i]);
        if i > 0 {
          assert hours[1..][i - 1] == hours[i];
        }
      }
    }
  }

  lemma {:induction false} InsertMultiset(x: Interval, ws: seq<Interval>)
    ensures multiset(Insert(x, ws)) == multiset(ws) + multiset{x}
  {
    if ws != [] && x.start > ws[0].start {
      InsertMultiset(x, ws[1..]);
      assert ws == [ws[0]] + ws[1..];
    }
  }

  lemma {:induction false} SortMultiset(ws: seq<Interval>)
    ensures multiset(SortByStart(ws)) == multiset(ws)
  {
    if ws != [] {
      SortMultiset(ws[1..]);
      InsertMultiset(ws[0], SortByStart(ws[1..]));
      assert ws == [ws[0]] + ws[1..];
    }
  }

  lemma {:induction false} InsertSorted(x: Interval, ws: seq<Interval>)
    requires SortedByStart(ws)
    ensures SortedByStart(Insert(x, ws))
  {
    if ws != [] && x.start > ws[0].start {
      InsertSorted(x, ws[1..]);
      InsertMultiset(x, ws[1..]);
      var t := Insert(x, ws[1..]);
      forall k | 0 <= k < |t| ensures ws[0].start <= t[k].start {
        assert t[k] in multiset(t);
        if t[k] != x {
          assert t[k] in multiset(ws[1..]);
        }
      }
      assert Insert(x, ws) == [ws[0]] + t;
    }
  }

  lemma {:induction false} SortSorted(ws: seq<Interval>)
    ensures SortedByStart(SortByStart(ws))
  {
    if ws != [] {
      SortSorted(ws[1..]);
      InsertSorted(ws[0], SortByStart(ws[1..]));
    }
  }

  /**
   * A day's windows are the windows of the slots of its weekday that have
   * positive length, sorted by start; they lie inside the day, and a day with no
   * slot of its weekday has none.
   */
  lemma WindowsForDayProperties(day: int, hours: seq<OperatingHourSlot>)
    ensures multiset(WindowsForDay(day, hours)) == multiset(MatchingWindows(day, hours))
    ensures forall w :: w in WindowsForDay(day, hours) <==>
              exists i :: 0 <= i < |hours| && Matches(day, hours[i]) && w == SlotWindow(day, hours[i])
    ensures SortedByStart(WindowsForDay(day, hours))
    ensures AllPositive(WindowsForDay(day, hours))
    ensures WithinDay(WindowsForDay(day, hours), day)
    ensures (forall i :: 0 <= i < |hours| ==> hours[i].dayOfWeek != Weekday(day)) ==> WindowsForDay(day, hours) == []
  {
    var ws := WindowsForDay(day, hours);
    SortMultiset(MatchingWindows(day, hours));
    SortSorted(MatchingWindows(day, hours));
    forall w ensures w in ws <==> exists i :: 0 <= i < |hours| && Matches(day, hours[i]) && w == SlotWindow(day, hours[i]) {
      assert w in ws <==> w in multiset(MatchingWindows(day, hours));
      MatchingMember(day, hours, w);
    }
    forall k | 0 <= k < |ws|
      ensures Positive(ws[k]) && day * MinutesPerDay <= ws[k].start && ws[k].end <= day * MinutesPerDay + 23 * 60
    {
      assert ws[k] in ws;
    }
    if forall i :: 0 <= i < |hours| ==> hours[i].dayOfWeek != Weekday(day) {
      NoMatching(day, hours);
    }
  }

  /** No slot on the weekday: no window. */
  lemma {:induction false} NoMatching(day: int, hours: seq<OperatingHourSlot>)
    requires forall i :: 0 <= i < |hours| ==> hours[i].dayOfWeek != Weekday(day)
    ensures MatchingWindows(day, hours) == []
  {
    if hours != [] {
      assert forall i :: 0 <= i < |hours[1..]| ==> hours[1..][i] == hours[i + 1];
      NoMatching(day, hours[1..]);
    }
  }

  lemma {:induction false} InsertChain(x: Interval, t: seq<Interval>)
    requires Positive(x) && AllPositive(t) && Chain(t)
    requires forall k :: 0 <= k < |t| ==> Disjoint(x, t[k])
    ensures Chain(Insert(x, t))
  {
    if t == [] || x.start <= t[0].start {
      forall k | 0 <= k < |t| ensures x.end <= t[k].start {
        assert k > 0 ==> t[0].end <= t[k].start;
      }
      ChainConcat([x], t);
    } else {
      InsertChain(x, t[1..]);
      InsertMultiset(x, t[1..]);
      var r := Insert(x, t[1..]);
      forall k | 0 <= k < |r| ensures t[0].end <= r[k].start {
        assert r[k] in multiset(r);
        if r[k] != x {
          assert r[k] in multiset(t[1..]);
          var j :| 0 <= j < |t[1..]| && t[1..][j] == r[k];
          assert t[j + 1] == r[k];
        }
      }
      ChainConcat([t[0]], r);
    }
  }

  lemma {:induction false} SortChain(ws: seq<Interval>)
    requires AllPositive(ws)
    requires forall i, j :: 0 <= i < j < |ws| ==> Disjoint(ws[i], ws[j])
    ensures Chain(SortByStart(ws))
  {
    if ws != [] {
      var rest := ws[1..];
      assert forall i, j :: 0 <= i < j < |rest| ==> Disjoint(rest[i], rest[j]) by {
        forall i, j | 0 <= i < j < |rest| ensures Disjoint(rest[i], rest[j]) {
          assert rest[i] == ws[i + 1] && rest[j] == ws[j + 1];
        }
      }
      SortChain(rest);
      SortMultiset(rest);
      var t := SortByStart(rest);
      forall k | 0 <= k < |t| ensures Positive(t[k]) && Disjoint(ws[0], t[k]) {
        assert t[k] in multiset(rest);
        var j :| 0 <= j < |rest| && rest[j] == t[k];
        assert ws[j + 1] == t[k];
      }
      InsertChain(ws[0], t);
    }
  }

  lemma {:induction false} MatchingDisjoint(day: int, hours: seq<OperatingHourSlot>)
    requires Regular(hours)
    ensures forall i, j :: 0 <= i < j < |MatchingWindows(day, hours)| ==>
              Disjoint(MatchingWindows(day, hours)[i], MatchingWindows(day, hours)[j])
  {
    if hours != [] {
      var rest := hours[1..];
      assert Regular(rest) by {
        forall i, j | 0 <= i < |rest| && 0 <= j < |rest| && i != j
          ensures rest[i] == hours[i + 1] && rest[j] == hours[j + 1]
        {
        }
      }
      MatchingDisjoint(day, rest);
      var mw := MatchingWindows(day, rest);
      if Matches(day, hours[0]) {
        var x := SlotWindow(day, hours[0]);
        forall k | 0 <= k < |mw| ensures Disjoint(x, mw[k]) {
          assert mw[k] in mw;
          MatchingMember(day, rest, mw[k]);
          var j :| 0 <= j < |rest| && Matches(day, rest[j]) && mw[k] == SlotWindow(day, rest[j]);
          assert rest[j] == hours[j + 1];
        }
        var all := [x] + mw;
        assert MatchingWindows(day, hours) == all;
        forall i, j | 0 <= i < j < |all| ensures Disjoint(all[i], all[j]) {
          if i == 0 {
            assert all[j] == mw[j - 1];
          } else {
            assert all[i] == mw[i - 1] && all[j] == mw[j - 1];
          }
        }
      } else {
        assert MatchingWindows(day, hours) == mw;
      }
    }
  }

  /** With non-overlapping slots a day's windows form a strictly increasing chain. */
  lemma WindowsChain(day: int, hours: seq<OperatingHourSlot>)
    requires Regular(hours)
    ensures Chain(WindowsForDay(day, hours))
  {
    var mw := MatchingWindows(day, hours);
    forall k | 0 <= k < |mw| ensures Positive(mw[k]) {
      assert mw[k] in mw;
      MatchingMember(day, hours, mw[k]);
    }
    MatchingDisjoint(day, hours);
    SortChain(mw);
  }

  // ---------------------------------------------------------------------------
  // subtractBlackouts
  // ---------------------------------------------------------------------------

  lemma {:induction false} PositivesMember(ws: seq<Interval>, p: Interval)
    ensures p in Positives(ws) <==> p in ws && Positive(p)
  {
    if ws != [] {
      PositivesMember(ws[1..], p);
      assert ws == [ws[0]] + ws[1..];
    }
  }

  lemma {:induction false} PositivesOfPositive(ws: seq<Interval>)
    requires AllPositive(ws)
    ensures Positives(ws) == ws
  {
    if ws != [] {
      PositivesOfPositive(ws[1..]);
      assert ws == [ws[0]] + ws[1..];
    }
  }

  /** The pieces of a window cut by a blackout that overlaps it with positive length. */
  lemma CutSplit(w: Interval, b: Interval)
    requires Overlaps(w, b) && b.start != b.end
    ensures Cut(w, b) ==
              (if w.start < b.start then [Interval(w.start, b.start)] else []) +
              (if b.end < w.end then [Interval(b.end, w.end)] else [])
  {
    PositivesOfPositive(Difference(w, b));
  }

  /** What cutting one window by one blackout gives. */
  lemma CutFacts(w: Interval, b: Interval)
    ensures !Overlaps(w, b) ==> Cut(w, b) == [w]
    ensures forall p :: p in Cut(w, b) ==> Inside(p, w)
    ensures Positive(w) ==> AllPositive(Cut(w, b))
    ensures Chain(Cut(w, b))
    ensures Positive(w) && Positive(b) ==> forall p :: p in Cut(w, b) ==> Disjoint(p, b)
  {
    if Overlaps(w, b) {
      if b.start == b.end {
        PositivesOfPositive([w]);
      } else {
        CutSplit(w, b);
      }
    }
  }

  lemma CutCovered(w: Interval, b: Interval, t: Instant)
    requires Positive(w)
    ensures Covered(Cut(w, b), t) <==> Contains(w, t) && !(Positive(b) && Contains(b, t))
  {
    if Overlaps(w, b) && b.start != b.end {
      CutSplit(w, b);
      var left := if w.start < b.start then [Interval(w.start, b.start)] else [];
      var right := if b.end < w.end then [Interval(b.end, w.end)] else [];
      CoveredConcat(left, right, t);
      if left != [] { CoveredCons(left, t); }
      if right != [] { CoveredCons(right, t); }
    } else {
      if Overlaps(w, b) {
        PositivesOfPositive([w]);
      }
      assert Cut(w, b) == [w];
      CoveredCons([w], t);
      assert [w][1..] == [];
    }
  }

  lemma {:induction false} CutAllMember(ws: seq<Interval>, b: Interval, p: Interval)
    ensures p in CutAll(ws, b) <==> exists k :: 0 <= k < |ws| && p in Cut(ws[k], b)
  {
    if ws != [] {
      CutAllMember(ws[1..], b, p);
      if p in CutAll(ws[1..], b) {
        var k :| 0 <= k < |ws[1..]| && p in Cut(ws[1..][k], b);
        assert ws[k + 1] == ws[1..][k];
      }
      if exists k :: 0 <= k < |ws| && p in Cut(ws[k], b) {
        var k :| 0 <= k < |ws| && p in Cut(ws[k], b);
        if k > 0 {
          assert ws[1..][k - 1] == ws[k];
        }
      }
    }
  }

  lemma CutAllInside(ws: seq<Interval>, b: Interval)
    ensures forall p :: p in CutAll(ws, b) ==> exists k :: 0 <= k < |ws| && Inside(p, ws[k])
  {
    forall p | p in CutAll(ws, b) ensures exists k :: 0 <= k < |ws| && Inside(p, ws[k]) {
      CutAllMember(ws, b, p);
      var k :| 0 <= k < |ws| && p in Cut(ws[k], b);
      CutFacts(ws[k], b);
    }
  }

  lemma CutAllPositive(ws: seq<Interval>, b: Interval)
    requires AllPositive(ws)
    ensures AllPositive(CutAll(ws, b))
  {
    var r := CutAll(ws, b);
    forall i | 0 <= i < |r| ensures Positive(r[i]) {
      assert r[i] in r;
      CutAllMember(ws, b, r[i]);
      var k :| 0 <= k < |ws| && r[i] in Cut(ws[k], b);
      CutFacts(ws[k], b);
      var c := Cut(ws[k], b);
      var j :| 0 <= j < |c| && c[j] == r[i];
    }
  }

  lemma {:induction false} CutAllChain(ws: seq<Interval>, b: Interval)
    requires Chain(ws)
    ensures Chain(CutAll(ws, b))
  {
    if ws != [] {
      CutAllChain(ws[1..], b);
      CutFacts(ws[0], b);
      CutAllInside(ws[1..], b);
      var a := Cut(ws[0], b);
      var r := CutAll(ws[1..], b);
      forall i, j | 0 <= i < |a| && 0 <= j < |r| ensures a[i].end <= r[j].start {
        assert a[i] in a;
        assert r[j] in r;
        var k :| 0 <= k < |ws[1..]| && Inside(r[j], ws[1..][k]);
        assert ws[1..][k] == ws[k + 1];
      }
      ChainConcat(a, r);
    }
  }

  lemma {:induction false} CutAllCovered(ws: seq<Interval>, b: Interval, t: Instant)
    requires AllPositive(ws)
    ensures Covered(CutAll(ws, b), t) <==> Covered(ws, t) && !(Positive(b) && Contains(b, t))
  {
    if ws != [] {
      CutAllCovered(ws[1..], b, t);
      CutCovered(ws[0], b, t);
      CoveredConcat(Cut(ws[0], b), CutAll(ws[1..], b), t);
      CoveredCons(ws, t);
    }
  }

  /** Every output window lies inside some input window. */
  lemma {:induction false} SubtractInside(ws: seq<Interval>, bs: seq<Interval>)
    ensures forall p :: p in Subtract(ws, bs) ==> exists k :: 0 <= k < |ws| && Inside(p, ws[k])
    decreases |bs|
  {
    if bs != [] {
      var cut := CutAll(ws, bs[0]);
      SubtractInside(cut, bs[1..]);
      CutAllInside(ws, bs[0]);
      assert Subtract(ws, bs) == Subtract(cut, bs[1..]);
      forall p | p in Subtract(ws, bs) ensures exists k :: 0 <= k < |ws| && Inside(p, ws[k]) {
        var j :| 0 <= j < |cut| && Inside(p, cut[j]);
        assert cut[j] in cut;
        var k :| 0 <= k < |ws| && Inside(cut[j], ws[k]);
      }
    } else {
      assert Subtract(ws, bs) == ws;
      forall p | p in Subtract(ws, bs) ensures exists k :: 0 <= k < |ws| && Inside(p, ws[k]) {
        var k :| 0 <= k < |ws| && ws[k] == p;
      }
    }
  }

  /** Windows of positive length stay of positive length. */
  lemma {:induction false} SubtractPositive(ws: seq<Interval>, bs: seq<Interval>)
    requires AllPositive(ws)
    ensures AllPositive(Subtract(ws, bs))
    decreases |bs|
  {
    if bs != [] {
      CutAllPositive(ws, bs[0]);
      SubtractPositive(CutAll(ws, bs[0]), bs[1..]);
    }
  }

  /** A chain of windows stays a chain. */
  lemma {:induction false} SubtractChain(ws: seq<Interval>, bs: seq<Interval>)
    requires Chain(ws)
    ensures Chain(Subtract(ws, bs))
    decreases |bs|
  {
    if bs != [] {
      CutAllChain(ws, bs[0]);
      SubtractChain(CutAll(ws, bs[0]), bs[1..]);
    }
  }

  /** An instant is covered afterwards iff it was covered before and no blackout of positive length contains it. */
  lemma {:induction false} SubtractCovered(ws: seq<Interval>, bs: seq<Interval>, t: Instant)
    requires AllPositive(ws)
    ensures Covered(Subtract(ws, bs), t) <==> Covered(ws, t) && !BlockedBy(bs, t)
    decreases |bs|
  {
    if bs != [] {
      CutAllPositive(ws, bs[0]);
      CutAllCovered(ws, bs[0], t);
      SubtractCovered(CutAll(ws, bs[0]), bs[1..], t);
      if BlockedBy(bs, t) && !(Positive(bs[0]) && Contains(bs[0], t)) {
        var i :| 0 <= i < |bs| && Positive(bs[i]) && Contains(bs[i], t);
        assert bs[1..][i - 1] == bs[i];
      }
      if BlockedBy(bs[1..], t) {
        var i :| 0 <= i < |bs[1..]| && Positive(bs[1..][i]) && Contains(bs[1..][i], t);
        assert bs[i + 1] == bs[1..][i];
      }
    }
  }

  /** No output window meets a blackout of positive length. */
  lemma {:induction false} SubtractAvoids(ws: seq<Interval>, bs: seq<Interval>)
    requires AllPositive(ws)
    ensures forall p, i :: p in Subtract(ws, bs) && 0 <= i < |bs| && Positive(bs[i]) ==> Disjoint(p, bs[i])
    decreases |bs|
  {
    if bs != [] {
      var cut := CutAll(ws, bs[0]);
      CutAllPositive(ws, bs[0]);
      SubtractAvoids(cut, bs[1..]);
      SubtractInside(cut, bs[1..]);
      assert Subtract(ws, bs) == Subtract(cut, bs[1..]);
      forall p, i | p in Subtract(ws, bs) && 0 <= i < |bs| && Positive(bs[i]) ensures Disjoint(p, bs[i]) {
        if i == 0 {
          var j :| 0 <= j < |cut| && Inside(p, cut[j]);
          assert cut[j] in cut;
          CutAllMember(ws, bs[0], cut[j]);
          var k :| 0 <= k < |ws| && cut[j] in Cut(ws[k], bs[0]);
          CutFacts(ws[k], bs[0]);
        } else {
          assert bs[1..][i - 1] == bs[i];
        }
      }
    }
  }

  /** A window that overlaps no blackout comes out unchanged. */
  lemma {:induction false} SubtractKeeps(ws: seq<Interval>, bs: seq<Interval>, w: Interval)
    requires w in ws
    requires forall i :: 0 <= i < |bs| ==> !Overlaps(w, bs[i])
    ensures w in Subtract(ws, bs)
    decreases |bs|
  {
    if bs != [] {
      var k :| 0 <= k < |ws| && ws[k] == w;
      CutFacts(w, bs[0]);
      assert w in Cut(ws[k], bs[0]);
      CutAllMember(ws, bs[0], w);
      assert forall i :: 0 <= i < |bs[1..]| ==> bs[1..][i] == bs[i + 1];
      SubtractKeeps(CutAll(ws, bs[0]), bs[1..], w);
    }
  }

  // ---------------------------------------------------------------------------
  // Available windows of a day
  // ---------------------------------------------------------------------------

  lemma DayAvailableFacts(day: int, hours: seq<OperatingHourSlot>, bs: seq<Interval>)
    ensures AllPositive(DayAvailable(day, hours, bs))
    ensures WithinDay(DayAvailable(day, hours, bs), day)
    ensures Regular(hours) ==> Chain(DayAvailable(day, hours, bs))
  {
    var ws := WindowsForDay(day, hours);
    var av := DayAvailable(day, hours, bs);
    WindowsForDayProperties(day, hours);
    SubtractPositive(ws, bs);
    SubtractInside(ws, bs);
    forall k | 0 <= k < |av| ensures day * MinutesPerDay <= av[k].start && av[k].end <= day * MinutesPerDay + 23 * 60 {
      assert av[k] in av;
      var j :| 0 <= j < |ws| && Inside(av[k], ws[j]);
    }
    if Regular(hours) {
      WindowsChain(day, hours);
      SubtractChain(ws, bs);
    }
  }

  lemma DayOfWithin(t: Instant, day: int)
    requires day * MinutesPerDay <= t < day * MinutesPerDay + MinutesPerDay
    ensures DayOf(t) == day
  {
  }

  /**
   * An instant is available iff a slot of its weekday is open at it and no
   * blackout of positive length contains it.
   */
  lemma AvailableIff(t: Instant, hours: seq<OperatingHourSlot>, bs: seq<Interval>)
    ensures IsAvailable(t, hours, bs) <==> SlotOpenAt(hours, t) && !BlockedBy(bs, t)
  {
    var day := DayOf(t);
    var ws := WindowsForDay(day, hours);
    WindowsForDayProperties(day, hours);
    SubtractCovered(ws, bs, t);
    CoveredMember(ws, t);
    if Covered(ws, t) {
      var w :| w in ws && Contains(w, t);
      var i :| 0 <= i < |hours| && Matches(day, hours[i]) && w == SlotWindow(day, hours[i]);
    }
    if SlotOpenAt(hours, t) {
      var i :| 0 <= i < |hours| && hours[i].dayOfWeek == Weekday(day) && Contains(SlotWindow(day, hours[i]), t);
      assert Matches(day, hours[i]);
      assert SlotWindow(day, hours[i]) in ws;
    }
  }

  // ---------------------------------------------------------------------------
  // findNextOperatingSlot
  // ---------------------------------------------------------------------------

  lemma {:induction false} FindInDaySound(ws: seq<Interval>, c: Instant, r: Instant)
    requires AllPositive(ws)
    requires FindInDay(ws, c) == Some(r)
    ensures c <= r
    ensures exists k :: 0 <= k < |ws| && Contains(ws[k], r) && (r == c || r == ws[k].start)
  {
    if Entry(ws[0], c).Some? {
      assert Contains(ws[0], r);
    } else {
      FindInDaySound(ws[1..], c, r);
      var k :| 0 <= k < |ws[1..]| && Contains(ws[1..][k], r) && (r == c || r == ws[1..][k].start);
      assert ws[k + 1] == ws[1..][k];
    }
  }

  lemma {:induction false} FindInDayNone(ws: seq<Interval>, c: Instant)
    requires FindInDay(ws, c) == None
    ensures forall k :: 0 <= k < |ws| ==> ws[k].end <= c
  {
    if ws != [] {
      FindInDayNone(ws[1..], c);
      assert forall k :: 1 <= k < |ws| ==> ws[k] == ws[1..][k - 1];
    }
  }

  lemma {:induction false} FindInDayPast(ws: seq<Interval>, c: Instant)
    requires AllPositive(ws)
    requires forall k :: 0 <= k < |ws| ==> ws[k].end <= c
    ensures FindInDay(ws, c) == None
  {
    if ws != [] {
      assert Entry(ws[0], c) == None;
      FindInDayPast(ws[1..], c);
    }
  }

  /** In a chain, nothing between the scan point and the entry found is covered. */
  lemma {:induction false} FindInDayFirst(ws: seq<Interval>, c: Instant, r: Instant)
    requires AllPositive(ws) && Chain(ws)
    requires FindInDay(ws, c) == Some(r)
    ensures forall t :: c <= t < r ==> !Covered(ws, t)
  {
    if Entry(ws[0], c).Some? {
      forall t | c <= t < r ensures !Covered(ws, t) {
        forall k | 0 <= k < |ws| ensures !Contains(ws[k], t) {
          assert k > 0 ==> ws[0].end <= ws[k].start;
        }
      }
    } else {
      FindInDayFirst(ws[1..], c, r);
      forall t | c <= t < r ensures !Covered(ws, t) {
        CoveredCons(ws, t);
      }
    }
  }

  /** In a chain, a covered scan point is its own entry. */
  lemma {:induction false} FindInDayAt(ws: seq<Interval>, c: Instant)
    requires AllPositive(ws) && Chain(ws)
    requires Covered(ws, c)
    ensures FindInDay(ws, c) == Some(c)
  {
    if !Contains(ws[0], c) {
      CoveredCons(ws, c);
      assert ws[0].start <= c by {
        var k :| 0 <= k < |ws[1..]| && Contains(ws[1..][k], c);
        assert ws[1..][k] == ws[k + 1];
      }
      FindInDayAt(ws[1..], c);
    }
  }

  /** Cutting a concatenation cuts each part. */
  lemma {:induction false} CutAllConcat(a: seq<Interval>, b: seq<Interval>, x: Interval)
    ensures CutAll(a + b, x) == CutAll(a, x) + CutAll(b, x)
  {
    if a != [] {
      assert (a + b)[1..] == a[1..] + b;
      CutAllConcat(a[1..], b, x);
    } else {
      assert a + b == b;
    }
  }

  /** Subtraction works window by window: the blackouts are cut out of each part separately. */
  lemma {:induction false} SubtractConcat(a: seq<Interval>, b: seq<Interval>, bs: seq<Interval>)
    ensures Subtract(a + b, bs) == Subtract(a, bs) + Subtract(b, bs)
    decreases |bs|
  {
    if bs != [] {
      CutAllConcat(a, b, bs[0]);
      SubtractConcat(CutAll(a, bs[0]), CutAll(b, bs[0]), bs[1..]);
    }
  }

  /** Nothing is left of no windows. */
  lemma {:induction false} SubtractNil(bs: seq<Interval>)
    ensures Subtract([], bs) == []
    decreases |bs|
  {
    if bs != [] {
      SubtractNil(bs[1..]);
    }
  }

  /** The scan of a concatenation takes the first part's entry, else the second part's. */
  lemma {:induction false} FindInDayConcat(a: seq<Interval>, b: seq<Interval>, c: Instant)
    ensures FindInDay(a + b, c) == if FindInDay(a, c).Some? then FindInDay(a, c) else FindInDay(b, c)
  {
    if a != [] {
      assert (a + b)[0] == a[0];
      assert (a + b)[1..] == a[1..] + b;
      FindInDayConcat(a[1..], b, c);
    } else {
      assert a + b == b;
    }
  }

  /**
   * For windows sorted by start, however they overlap, nothing between the scan
   * point and the entry found in the windows left after the blackouts is covered.
   */
  lemma {:induction false} SortedFirst(ws: seq<Interval>, bs: seq<Interval>, c: Instant, r: Instant)
    requires SortedByStart(ws) && AllPositive(ws)
    requires FindInDay(Subtract(ws, bs), c) == Some(r)
    ensures forall t :: c <= t < r ==> !Covered(Subtract(ws, bs), t)
  {
    if ws == [] {
      SubtractNil(bs);
    } else {
      var w, rest := ws[0], ws[1..];
      assert ws == [w] + rest;
      var g, after := Subtract([w], bs), Subtract(rest, bs);
      SubtractConcat([w], rest, bs);
      FindInDayConcat(g, after, c);
      SubtractPositive([w], bs);
      SubtractChain([w], bs);
      SubtractInside([w], bs);
      if FindInDay(g, c).Some? {
        FindInDayFirst(g, c, r);
        FindInDaySound(g, c, r);
        var k :| 0 <= k < |g| && Contains(g[k], r) && (r == c || r == g[k].start);
        assert g[k] in g;
        assert r < w.end;
        forall t | c <= t < r ensures !Covered(after, t) {
          SubtractCovered(rest, bs, t);
          SubtractCovered([w], bs, t);
          if Covered(rest, t) {
            var j :| 0 <= j < |rest| && Contains(rest[j], t);
            assert ws[j + 1] == rest[j];
            assert Contains(w, t);
            assert Covered([w], t);
          }
        }
      } else {
        FindInDayNone(g, c);
        SortedFirst(rest, bs, c, r);
      }
      forall t | c <= t < r ensures !Covered(Subtract(ws, bs), t) {
        CoveredConcat(g, after, t);
      }
    }
  }

  /** For windows sorted by start, a covered scan point of the windows left after the blackouts is its own entry. */
  lemma SortedAt(ws: seq<Interval>, bs: seq<Interval>, c: Instant)
    requires SortedByStart(ws) && AllPositive(ws)
    requires Covered(Subtract(ws, bs), c)
    ensures FindInDay(Subtract(ws, bs), c) == Some(c)
  {
    var av := Subtract(ws, bs);
    SubtractPositive(ws, bs);
    if FindInDay(av, c).None? {
      FindInDayNone(av, c);
      assert false;
    }
    var r := FindInDay(av, c).value;
    FindInDaySound(av, c, r);
    SortedFirst(ws, bs, c, r);
  }

  /** Nothing between the scan point and the entry found in a day's available windows is available that day. */
  lemma DayFirst(day: int, hours: seq<OperatingHourSlot>, bs: seq<Interval>, c: Instant, r: Instant)
    requires FindInDay(DayAvailable(day, hours, bs), c) == Some(r)
    ensures forall t :: c <= t < r ==> !Covered(DayAvailable(day, hours, bs), t)
  {
    WindowsForDayProperties(day, hours);
    SortedFirst(WindowsForDay(day, hours), bs, c, r);
  }

  /** A scan point inside a day's available windows is that day's entry. */
  lemma DayAt(day: int, hours: seq<OperatingHourSlot>, bs: seq<Interval>, c: Instant)
    requires Covered(DayAvailable(day, hours, bs), c)
    ensures FindInDay(DayAvailable(day, hours, bs), c) == Some(c)
  {
    WindowsForDayProperties(day, hours);
    SortedAt(WindowsForDay(day, hours), bs, c);
  }

  /**
   * A found instant is at or after the scan start, available, on a day the scan
   * reached, and either the scan start itself or the start of an available window.
   */
  lemma {:induction false} NextSlotSound(c: Instant, hours: seq<OperatingHourSlot>, bs: seq<Interval>, days: int, r: Instant)
    requires NextSlotFrom(c, hours, bs, days) == Some(r)
    ensures c <= r && IsAvailable(r, hours, bs)
    ensures DayOf(c) <= DayOf(r) < DayOf(c) + days
    ensures r == c || exists k :: 0 <= k < |DayAvailable(DayOf(r), hours, bs)| && DayAvailable(DayOf(r), hours, bs)[k].start == r
    decreases days
  {
    var day := DayOf(c);
    var av := DayAvailable(day, hours, bs);
    DayAvailableFacts(day, hours, bs);
    match FindInDay(av, c)
    case Some(r0) =>
      FindInDaySound(av, c, r0);
      var k :| 0 <= k < |av| && Contains(av[k], r0) && (r0 == c || r0 == av[k].start);
      DayOfWithin(r0, day);
    case None =>
      var next := StartOfDay(c) + MinutesPerDay;
      NextDay(c);
      NextSlotSound(next, hours, bs, days - 1, r);
      if r == next {
        var av2 := DayAvailable(DayOf(r), hours, bs);
        DayAvailableFacts(DayOf(r), hours, bs);
        var k :| 0 <= k < |av2| && Contains(av2[k], r);
      }
  }

  /** No instant of the scanned days at or after the scan start is available when the scan finds nothing. */
  lemma {:induction false} NextSlotNone(c: Instant, hours: seq<OperatingHourSlot>, bs: seq<Interval>, days: int)
    requires NextSlotFrom(c, hours, bs, days) == None
    ensures forall t :: c <= t < (DayOf(c) + days) * MinutesPerDay ==> !IsAvailable(t, hours, bs)
    decreases days
  {
    if days > 0 {
      var day := DayOf(c);
      var av := DayAvailable(day, hours, bs);
      var next := StartOfDay(c) + MinutesPerDay;
      FindInDayNone(av, c);
      NextDay(c);
      NextSlotNone(next, hours, bs, days - 1);
      forall t | c <= t < (DayOf(c) + days) * MinutesPerDay ensures !IsAvailable(t, hours, bs) {
        if t < next {
          DayOfWithin(t, day);
        }
      }
    }
  }

  /** No available instant lies between the scan start and the instant found. */
  lemma {:induction false} NextSlotMinimal(c: Instant, hours: seq<OperatingHourSlot>, bs: seq<Interval>, days: int, r: Instant)
    requires NextSlotFrom(c, hours, bs, days) == Some(r)
    ensures forall t :: c <= t < r ==> !IsAvailable(t, hours, bs)
    decreases days
  {
    var day := DayOf(c);
    var av := DayAvailable(day, hours, bs);
    var next := StartOfDay(c) + MinutesPerDay;
    DayAvailableFacts(day, hours, bs);
    match FindInDay(av, c)
    case Some(r0) =>
      FindInDaySound(av, c, r0);
      DayFirst(day, hours, bs, c, r0);
      forall t | c <= t < r ensures !IsAvailable(t, hours, bs) {
        DayOfWithin(t, day);
      }
    case None =>
      FindInDayNone(av, c);
      NextDay(c);
      NextSlotMinimal(next, hours, bs, days - 1, r);
      forall t | c <= t < r ensures !IsAvailable(t, hours, bs) {
        if t < next {
          DayOfWithin(t, day);
        }
      }
  }

  /** An available scan start is returned as it is. */
  lemma NextSlotAtAvailable(c: Instant, hours: seq<OperatingHourSlot>, bs: seq<Interval>, days: int)
    requires IsAvailable(c, hours, bs) && days >= 1
    ensures NextSlotFrom(c, hours, bs, days) == Some(c)
  {
    DayAt(DayOf(c), hours, bs, c);
  }

  /** Scanning again from a found instant finds that instant. */
  lemma NextSlotIdempotent(c: Instant, hours: seq<OperatingHourSlot>, bs: seq<Interval>, days: int, r: Instant, again: int)
    requires NextSlotFrom(c, hours, bs, days) == Some(r)
    requires again >= 1
    ensures NextSlotFrom(r, hours, bs, again) == Some(r)
  {
    NextSlotSound(c, hours, bs, days, r);
    NextSlotAtAvailable(r, hours, bs, again);
  }

  /**
   * An instant at or after the close of every available window of its day is
   * not available, and the scan goes on from the start of the next day.
   */
  lemma ClosedAtDayEnd(c: Instant, hours: seq<OperatingHourSlot>, bs: seq<Interval>, days: int)
    requires days >= 1
    requires forall k :: 0 <= k < |DayAvailable(DayOf(c), hours, bs)| ==> DayAvailable(DayOf(c), hours, bs)[k].end <= c
    ensures !IsAvailable(c, hours, bs)
    ensures NextSlotFrom(c, hours, bs, days) == NextSlotFrom(StartOfDay(c) + MinutesPerDay, hours, bs, days - 1)
    ensures NextSlotFrom(c, hours, bs, days).Some? ==> DayOf(NextSlotFrom(c, hours, bs, days).value) > DayOf(c)
  {
    var av := DayAvailable(DayOf(c), hours, bs);
    DayAvailableFacts(DayOf(c), hours, bs);
    FindInDayPast(av, c);
    var next := StartOfDay(c) + MinutesPerDay;
    NextDay(c);
    if NextSlotFrom(next, hours, bs, days - 1).Some? {
      NextSlotSound(next, hours, bs, days - 1, NextSlotFrom(next, hours, bs, days - 1).value);
    }
  }

  // ---------------------------------------------------------------------------
  // computeEndDate
  // ---------------------------------------------------------------------------

  lemma EntryIsMax(w: Interval, c: Instant)
    requires Entry(w, c).Some?
    ensures Entry(w, c).value == Max(w.start, c)
  {
  }

  lemma EntryNone(w: Interval, c: Instant)
    requires Entry(w, c) == None
    ensures w.end <= c
  {
  }

  /** Minutes carried over a day are the day's clipped minutes subtracted from the minutes brought in. */
  lemma {:induction false} ConsumeCarry(ws: seq<Interval>, c: Instant, rem: int, x: Instant, r: int)
    requires forall k :: 0 <= k < |ws| ==> ws[k].end <= x
    requires ConsumeDay(ws, c, rem) == Carry(r)
    ensures rem - r == ClipSum(ws, c, x)
    ensures rem > 0 ==> r > 0
  {
    if ws != [] {
      var w := ws[0];
      match Entry(w, c)
      case None =>
        EntryNone(w, c);
        ConsumeCarry(ws[1..], c, rem, x, r);
      case Some(eff) =>
        EntryIsMax(w, c);
        var avail := w.end - eff;
        if avail <= 0 {
          ConsumeCarry(ws[1..], c, rem, x, r);
        } else if rem > avail {
          ConsumeCarry(ws[1..], c, rem - avail, x, r);
        }
    }
  }

  /** A day that finishes the walk finishes inside one of its windows, after the point it was entered. */
  lemma {:induction false} ConsumeFinish(ws: seq<Interval>, c: Instant, rem: int, e: Instant)
    requires rem > 0
    requires ConsumeDay(ws, c, rem) == Finished(e)
    ensures exists k :: 0 <= k < |ws| && Max(ws[k].start, c) < e <= ws[k].end
  {
    var w := ws[0];
    match Entry(w, c)
    case None =>
      ConsumeFinish(ws[1..], c, rem, e);
      var k :| 0 <= k < |ws[1..]| && Max(ws[1..][k].start, c) < e <= ws[1..][k].end;
      assert ws[1..][k] == ws[k + 1];
    case Some(eff) =>
      EntryIsMax(w, c);
      var avail := w.end - eff;
      if avail <= 0 || rem > avail {
        ConsumeFinish(ws[1..], c, if avail <= 0 then rem else rem - avail, e);
        var k :| 0 <= k < |ws[1..]| && Max(ws[1..][k].start, c) < e <= ws[1..][k].end;
        assert ws[1..][k] == ws[k + 1];
      }
  }

  lemma {:induction false} ClipSumBeyond(ws: seq<Interval>, from: Instant, to: Instant)
    requires forall k :: 0 <= k < |ws| ==> ws[k].start >= to
    ensures ClipSum(ws, from, to) == 0
  {
    if ws != [] {
      ClipSumBeyond(ws[1..], from, to);
    }
  }

  /** In a chain, the minutes clipped between the entry point and the end found are the minutes asked for. */
  lemma {:induction false} ConsumeFinishCount(ws: seq<Interval>, c: Instant, rem: int, e: Instant)
    requires Chain(ws)
    requires rem > 0
    requires ConsumeDay(ws, c, rem) == Finished(e)
    ensures ClipSum(ws, c, e) == rem
  {
    var w := ws[0];
    match Entry(w, c)
    case None =>
      EntryNone(w, c);
      ConsumeFinishCount(ws[1..], c, rem, e);
    case Some(eff) =>
      EntryIsMax(w, c);
      var avail := w.end - eff;
      if avail <= 0 {
        ConsumeFinishCount(ws[1..], c, rem, e);
      } else if rem <= avail {
        forall k | 0 <= k < |ws[1..]| ensures ws[1..][k].start >= e {
          assert ws[1..][k] == ws[k + 1];
        }
        ClipSumBeyond(ws[1..], c, e);
      } else {
        ConsumeFinishCount(ws[1..], c, rem - avail, e);
        ConsumeFinish(ws[1..], c, rem - avail, e);
        var k :| 0 <= k < |ws[1..]| && Max(ws[1..][k].start, c) < e <= ws[1..][k].end;
        assert ws[1..][k] == ws[k + 1];
      }
  }

  /** The walk ends after its start, just after an available minute, on a day it reached. */
  lemma {:induction false} EndFromSound(c: Instant, rem: int, hours: seq<OperatingHourSlot>, bs: seq<Interval>, days: int, e: Instant)
    requires rem > 0
    requires EndFrom(c, rem, hours, bs, days) == Some(e)
    ensures c < e && IsAvailable(e - 1, hours, bs)
    ensures DayOf(c) <= DayOf(e - 1) < DayOf(c) + days
    decreases days
  {
    var day := DayOf(c);
    var av := DayAvailable(day, hours, bs);
    DayAvailableFacts(day, hours, bs);
    match ConsumeDay(av, c, rem)
    case Finished(e0) =>
      ConsumeFinish(av, c, rem, e);
      var k :| 0 <= k < |av| && Max(av[k].start, c) < e <= av[k].end;
      assert Contains(av[k], e - 1);
      DayOfWithin(e - 1, day);
    case Carry(r) =>
      var next := StartOfDay(c) + MinutesPerDay;
      ConsumeCarry(av, c, rem, next, r);
      NextDay(c);
      EndFromSound(next, r, hours, bs, days - 1, e);
  }

  lemma {:induction false} ClipSumFromIrrelevant(ws: seq<Interval>, f1: Instant, f2: Instant, to: Instant)
    requires forall k :: 0 <= k < |ws| ==> ws[k].start >= f1 && ws[k].start >= f2
    ensures ClipSum(ws, f1, to) == ClipSum(ws, f2, to)
  {
    if ws != [] {
      ClipSumFromIrrelevant(ws[1..], f1, f2, to);
    }
  }

  lemma {:induction false} CountDaysFromIrrelevant(day: int, lastDay: int, f1: Instant, f2: Instant, to: Instant,
                                                   hours: seq<OperatingHourSlot>, bs: seq<Interval>)
    requires f1 <= day * MinutesPerDay && f2 <= day * MinutesPerDay
    ensures CountDays(day, lastDay, f1, to, hours, bs) == CountDays(day, lastDay, f2, to, hours, bs)
    decreases lastDay - day
  {
    if day <= lastDay {
      DayAvailableFacts(day, hours, bs);
      ClipSumFromIrrelevant(DayAvailable(day, hours, bs), f1, f2, to);
      CountDaysFromIrrelevant(day + 1, lastDay, f1, f2, to, hours, bs);
    }
  }

  /** With non-overlapping slots, the days from the walk's start to its end hold exactly the minutes walked. */
  lemma {:induction false} EndFromCount(c: Instant, rem: int, hours: seq<OperatingHourSlot>, bs: seq<Interval>, days: int, e: Instant)
    requires Regular(hours)
    requires rem > 0
    requires EndFrom(c, rem, hours, bs, days) == Some(e)
    ensures CountDays(DayOf(c), DayOf(e), c, e, hours, bs) == rem
    decreases days
  {
    match ConsumeDay(DayAvailable(DayOf(c), hours, bs), c, rem)
    case Finished(e0) =>
      FinishDay(c, rem, hours, bs, e);
    case Carry(r) =>
      var next := StartOfDay(c) + MinutesPerDay;
      CarryPositive(c, rem, r, hours, bs);
      EndFromCount(next, r, hours, bs, days - 1, e);
      CarryStep(c, rem, r, hours, bs, days, e);
  }

  /** A carried remainder stays positive. */
  lemma CarryPositive(c: Instant, rem: int, r: int, hours: seq<OperatingHourSlot>, bs: seq<Interval>)
    requires rem > 0
    requires ConsumeDay(DayAvailable(DayOf(c), hours, bs), c, rem) == Carry(r)
    ensures r > 0
  {
    DayAvailableFacts(DayOf(c), hours, bs);
    ConsumeCarry(DayAvailable(DayOf(c), hours, bs), c, rem, StartOfDay(c) + MinutesPerDay, r);
  }

  /** The carried day added in front of the count of the later days. */
  lemma CarryStep(c: Instant, rem: int, r: int, hours: seq<OperatingHourSlot>, bs: seq<Interval>, days: int, e: Instant)
    requires r > 0
    requires ConsumeDay(DayAvailable(DayOf(c), hours, bs), c, rem) == Carry(r)
    requires EndFrom(StartOfDay(c) + MinutesPerDay, r, hours, bs, days - 1) == Some(e)
    requires CountDays(DayOf(StartOfDay(c) + MinutesPerDay), DayOf(e), StartOfDay(c) + MinutesPerDay, e, hours, bs) == r
    ensures CountDays(DayOf(c), DayOf(e), c, e, hours, bs) == rem
  {
    var next := StartOfDay(c) + MinutesPerDay;
    NextDay(c);
    EndFromSound(next, r, hours, bs, days - 1, e);
    CarryDay(c, rem, r, hours, bs, e);
  }

  /** The walk ends on its first day: that day's clipped minutes are the minutes walked. */
  lemma FinishDay(c: Instant, rem: int, hours: seq<OperatingHourSlot>, bs: seq<Interval>, e: Instant)
    requires Regular(hours)
    requires rem > 0
    requires ConsumeDay(DayAvailable(DayOf(c), hours, bs), c, rem) == Finished(e)
    ensures CountDays(DayOf(c), DayOf(e), c, e, hours, bs) == rem
  {
    var day := DayOf(c);
    var av := DayAvailable(day, hours, bs);
    DayAvailableFacts(day, hours, bs);
    ConsumeFinish(av, c, rem, e);
    var k :| 0 <= k < |av| && Max(av[k].start, c) < e <= av[k].end;
    DayOfWithin(e, day);
    ConsumeFinishCount(av, c, rem, e);
  }

  /** One carried day: its clipped minutes plus the later days' minutes give the minutes brought in. */
  lemma CarryDay(c: Instant, rem: int, r: int, hours: seq<OperatingHourSlot>, bs: seq<Interval>, e: Instant)
    requires ConsumeDay(DayAvailable(DayOf(c), hours, bs), c, rem) == Carry(r)
    requires StartOfDay(c) + MinutesPerDay < e
    requires CountDays(DayOf(c) + 1, DayOf(e), StartOfDay(c) + MinutesPerDay, e, hours, bs) == r
    ensures CountDays(DayOf(c), DayOf(e), c, e, hours, bs) == rem
  {
    var day := DayOf(c);
    var av := DayAvailable(day, hours, bs);
    DayAvailableFacts(day, hours, bs);
    ConsumeCarry(av, c, rem, e, r);
    CountDaysFromIrrelevant(day + 1, DayOf(e), c, StartOfDay(c) + MinutesPerDay, e, hours, bs);
    assert day <= DayOf(e);
  }

  /** A non-positive duration ends where it starts; a positive one ends later, just after an available minute. */
  lemma EndDateBounds(s: Instant, d: int, hours: seq<OperatingHourSlot>, bs: seq<Interval>, maxDays: int, e: Instant)
    requires EndDate(s, d, hours, bs, maxDays) == Some(e)
    ensures d <= 0 ==> e == s
    ensures d > 0 ==> s < e && IsAvailable(e - 1, hours, bs) && DayOf(e - 1) < DayOf(s) + maxDays
  {
    if d > 0 {
      EndFromSound(s, d, hours, bs, maxDays, e);
    }
  }

  /** Without operating hours a positive duration never ends. */
  lemma EndDateNoHours(s: Instant, d: int, bs: seq<Interval>, maxDays: int)
    requires d > 0
    ensures EndDate(s, d, [], bs, maxDays) == None
  {
    if EndDate(s, d, [], bs, maxDays).Some? {
      var e := EndDate(s, d, [], bs, maxDays).value;
      EndFromSound(s, d, [], bs, maxDays, e);
      AvailableIff(e - 1, [], bs);
    }
  }

  /**
   * Round trip: with non-overlapping slots, the available minutes between a
   * start and the end the walk computes are exactly the duration walked.
   */
  lemma RoundTrip(s: Instant, d: int, hours: seq<OperatingHourSlot>, bs: seq<Interval>, maxDays: int, e: Instant)
    requires Regular(hours)
    requires EndDate(s, d, hours, bs, maxDays) == Some(e)
    ensures CountAvailable(s, e, hours, bs) == Max(d, 0)
  {
    if d > 0 {
      EndFromSound(s, d, hours, bs, maxDays, e);
      EndFromCount(s, d, hours, bs, maxDays, e);
    }
  }

  // ---------------------------------------------------------------------------
  // countAvailableMinutes
  // ---------------------------------------------------------------------------

  lemma {:induction false} ClipSumNonNegative(ws: seq<Interval>, from: Instant, to: Instant)
    ensures ClipSum(ws, from, to) >= 0
  {
    if ws != [] {
      ClipSumNonNegative(ws[1..], from, to);
    }
  }

  lemma {:induction false} CountDaysNonNegative(day: int, lastDay: int, from: Instant, to: Instant,
                                                hours: seq<OperatingHourSlot>, bs: seq<Interval>)
    ensures CountDays(day, lastDay, from, to, hours, bs) >= 0
    decreases lastDay - day
  {
    if day <= lastDay {
      ClipSumNonNegative(DayAvailable(day, hours, bs), from, to);
      CountDaysNonNegative(day + 1, lastDay, from, to, hours, bs);
    }
  }

  /** The count is never negative, and it is zero for an empty or reversed range. */
  lemma CountNonNegative(from: Instant, to: Instant, hours: seq<OperatingHourSlot>, bs: seq<Interval>)
    ensures CountAvailable(from, to, hours, bs) >= 0
    ensures to <= from ==> CountAvailable(from, to, hours, bs) == 0
  {
    CountDaysNonNegative(DayOf(from), DayOf(to), from, to, hours, bs);
  }

  // ---------------------------------------------------------------------------
  // overlapsBlackout
  // ---------------------------------------------------------------------------

  /** Two intervals of positive length overlap iff they share an instant; touching ends share none. */
  lemma OverlapsIffShared(a: Interval, b: Interval)
    requires Positive(a) && Positive(b)
    ensures Overlaps(a, b) <==> exists t :: Contains(a, t) && Contains(b, t)
    ensures a.end == b.start ==> !Overlaps(a, b)
  {
    if Overlaps(a, b) {
      var t := Max(a.start, b.start);
      assert Contains(a, t) && Contains(b, t);
    }
  }
}
