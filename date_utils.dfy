/**
 * Calendar arithmetic over a channel's recurring weekly operating hours and its
 * absolute blackout windows (utils/date-utils.ts).
 *
 * Every operation of the source is given twice: a recursive specification
 * function, and a method that runs the source's loops and is proved equal to
 * that function. The properties the source promises are lemmas about the
 * functions (module CalendarProperties).
 */
module DateUtils {
  import opened Types

  const MinutesPerDay: int := 1440

  /** The default day cap of every day-scanning loop. */
  const MaxDays: int := 365

  // ---------------------------------------------------------------------------
  // Days and weekdays (UTC)
  // ---------------------------------------------------------------------------

  /** The day number of an instant; Dafny's `/` is floor division for a positive divisor. */
  function DayOf(t: Instant): int
  {
    t / MinutesPerDay
  }

  /** `startOf("day")`. */
  function StartOfDay(t: Instant): Instant
  {
    DayOf(t) * MinutesPerDay
  }

  /** Luxon's ISO weekday of a day number: 1 = Monday ... 7 = Sunday (day 0 was a Thursday). */
  function LuxonWeekday(day: int): int
  {
    (day + 3) % 7 + 1
  }

  /** The 0 = Sunday ... 6 = Saturday weekday the operating-hour slots use. */
  function Weekday(day: int): (w: int)
    ensures 0 <= w < 7
    ensures w == (day + 4) % 7
  {
    var luxon := LuxonWeekday(day);
    if luxon == 7 then 0 else luxon
  }

  /** `Math.ceil(n / k)` for a positive divisor. */
  function CeilDiv(n: int, k: int): (q: int)
    requires k > 0
    ensures (q - 1) * k < n <= q * k
  {
    -((-n) / k)
  }

  // ---------------------------------------------------------------------------
  // Intervals (luxon's Interval, restricted to what the engine uses)
  // ---------------------------------------------------------------------------

  /** `Interval.fromDateTimes` yields a valid interval exactly when end is not before start. */
  predicate Valid(i: Interval)
  {
    i.start <= i.end
  }

  /** `length("minutes") > 0`. */
  predicate Positive(i: Interval)
  {
    i.start < i.end
  }

  /** `contains(t)`: half-open membership. */
  predicate Contains(i: Interval, t: Instant)
  {
    i.start <= t < i.end
  }

  /** `overlaps`: strict overlap of two valid intervals; touching does not count. */
  predicate Overlaps(a: Interval, b: Interval)
  {
    Valid(a) && Valid(b) && a.start < b.end && b.start < a.end
  }

  /** Some window of the list contains the instant. */
  predicate Covered(ws: seq<Interval>, t: Instant)
  {
    exists k :: 0 <= k < |ws| && Contains(ws[k], t)
  }

  predicate AllPositive(ws: seq<Interval>)
  {
    forall k :: 0 <= k < |ws| ==> Positive(ws[k])
  }

  /** Windows in strictly increasing, non-overlapping order. */
  predicate Chain(ws: seq<Interval>)
  {
    forall i, j :: 0 <= i < j < |ws| ==> ws[i].end <= ws[j].start
  }

  /** Every window lies inside day `day`, before its last hour ends. */
  predicate WithinDay(ws: seq<Interval>, day: int)
  {
    forall k :: 0 <= k < |ws| ==>
      day * MinutesPerDay <= ws[k].start && ws[k].end <= day * MinutesPerDay + 23 * 60
  }

  // ---------------------------------------------------------------------------
  // getOperatingWindowsForDate
  // ---------------------------------------------------------------------------

  /** The concrete window of a slot on day `day`: `startOf("day").set({ hour })` for both ends. */
  function SlotWindow(day: int, s: OperatingHourSlot): Interval
  {
    Interval(day * MinutesPerDay + s.startHour * 60, day * MinutesPerDay + s.endHour * 60)
  }

  /** The slot applies to day `day` and its window is not empty. */
  predicate Matches(day: int, s: OperatingHourSlot)
  {
    s.dayOfWeek == Weekday(day) && SlotWindow(day, s).end > SlotWindow(day, s).start
  }

  /** The windows of the matching slots, in slot order. */
  function MatchingWindows(day: int, hours: seq<OperatingHourSlot>): seq<Interval>
  {
    if hours == [] then []
    else (if Matches(day, hours[0]) then [SlotWindow(day, hours[0])] else []) + MatchingWindows(day, hours[1..])
  }

  /** Stable insertion: `x` goes before the first element that does not start earlier. */
  function Insert(x: Interval, ws: seq<Interval>): seq<Interval>
  {
    if ws == [] || x.start <= ws[0].start then [x] + ws
    else [ws[0]] + Insert(x, ws[1..])
  }

  /** A stable sort by start time (the order `Array.prototype.sort` gives with a start comparator). */
  function SortByStart(ws: seq<Interval>): seq<Interval>
  {
    if ws == [] then [] else Insert(ws[0], SortByStart(ws[1..]))
  }

  /** The operating windows of day `day`. */
  function WindowsForDay(day: int, hours: seq<OperatingHourSlot>): seq<Interval>
  {
    SortByStart(MatchingWindows(day, hours))
  }

  method GetOperatingWindowsForDate(date: Instant, hours: seq<OperatingHourSlot>) returns (windows: seq<Interval>)
    ensures windows == WindowsForDay(DayOf(date), hours)
  {
    var day := DayOf(date);
    var specDayOfWeek := Weekday(day);
    windows := [];
    for i := 0 to |hours|
      invariant windows + MatchingWindows(day, hours[i..]) == MatchingWindows(day, hours)
    {
      assert hours[i..][1..] == hours[i + 1..];
      var slot := hours[i];
      if slot.dayOfWeek == specDayOfWeek {
        var start := day * MinutesPerDay + slot.startHour * 60;
        var end := day * MinutesPerDay + slot.endHour * 60;
        if end > start {
          windows := windows + [Interval(start, end)];
        }
      }
    }
    assert hours[|hours|..] == [];
    assert windows == MatchingWindows(day, hours);
    windows := SortByStart(windows);
  }

  // ---------------------------------------------------------------------------
  // parseBlackoutWindows
  // ---------------------------------------------------------------------------

  function ParseBlackoutWindows(blackouts: seq<BlackoutWindow>): (r: seq<Interval>)
    ensures |r| == |blackouts|
    ensures forall i :: 0 <= i < |r| ==> r[i] == Interval(blackouts[i].startDate, blackouts[i].endDate)
  {
    if blackouts == [] then []
    else [Interval(blackouts[0].startDate, blackouts[0].endDate)] + ParseBlackoutWindows(blackouts[1..])
  }

  // ---------------------------------------------------------------------------
  // subtractBlackouts
  // ---------------------------------------------------------------------------

  /**
   * `w.difference(b)` for a blackout that overlaps `w`. A zero-length blackout
   * strictly inside `w` splits it into two abutting halves that luxon merges
   * back, so `w` comes back whole.
   */
  function Difference(w: Interval, b: Interval): seq<Interval>
  {
    if b.start == b.end then [w]
    else
      (if w.start < b.start then [Interval(w.start, b.start)] else []) +
      (if b.end < w.end then [Interval(b.end, w.end)] else [])
  }

  /** The pieces of positive length, in order. */
  function Positives(ws: seq<Interval>): seq<Interval>
  {
    if ws == [] then []
    else (if Positive(ws[0]) then [ws[0]] else []) + Positives(ws[1..])
  }

  /** What one window becomes after one blackout. */
  function Cut(w: Interval, b: Interval): seq<Interval>
  {
    if !Overlaps(w, b) then [w] else Positives(Difference(w, b))
  }

  /** One pass of the outer loop: every window cut by one blackout, in window order. */
  function CutAll(ws: seq<Interval>, b: Interval): seq<Interval>
  {
    if ws == [] then [] else Cut(ws[0], b) + CutAll(ws[1..], b)
  }

  /** The windows after cutting by every blackout in turn. */
  function Subtract(ws: seq<Interval>, bs: seq<Interval>): seq<Interval>
    decreases |bs|
  {
    if bs == [] then ws else Subtract(CutAll(ws, bs[0]), bs[1..])
  }

  method SubtractBlackouts(windows: seq<Interval>, blackouts: seq<Interval>) returns (result: seq<Interval>)
    ensures result == Subtract(windows, blackouts)
  {
    result := windows;
    for j := 0 to |blackouts|
      invariant Subtract(result, blackouts[j..]) == Subtract(windows, blackouts)
    {
      assert blackouts[j..][1..] == blackouts[j + 1..];
      result := CutWindows(result, blackouts[j]);
    }
    assert blackouts[|blackouts|..] == [];
  }

  /** The body of the outer loop: every window split around one blackout into `next`. */
  method CutWindows(result: seq<Interval>, blackout: Interval) returns (next: seq<Interval>)
    ensures next == CutAll(result, blackout)
  {
    next := [];
    for i := 0 to |result|
      invariant next + CutAll(result[i..], blackout) == CutAll(result, blackout)
    {
      var w := result[i];
      var pieces;
      if !Overlaps(w, blackout) {
        pieces := [w];
      } else {
        pieces := KeepPositive(Difference(w, blackout));
      }
      CutAllStep(result, i, blackout);
      ghost var rest := CutAll(result[i + 1..], blackout);
      assert (next + pieces) + rest == next + (pieces + rest);
      next := next + pieces;
    }
    assert result[|result|..] == [];
  }

  lemma CutAllStep(ws: seq<Interval>, i: int, b: Interval)
    requires 0 <= i < |ws|
    ensures CutAll(ws[i..], b) == Cut(ws[i], b) + CutAll(ws[i + 1..], b)
  {
    assert ws[i..][1..] == ws[i + 1..];
  }

  /** The inner loop: the pieces of one window that keep a positive length. */
  method KeepPositive(diff: seq<Interval>) returns (kept: seq<Interval>)
    ensures kept == Positives(diff)
  {
    kept := [];
    assert diff[0..] == diff;
    for k := 0 to |diff|
      invariant kept + Positives(diff[k..]) == Positives(diff)
    {
      assert diff[k..][1..] == diff[k + 1..];
      if diff[k].end - diff[k].start > 0 {
        kept := kept + [diff[k]];
      }
    }
    assert diff[|diff|..] == [];
  }

  /** The available windows of day `day`. */
  function DayAvailable(day: int, hours: seq<OperatingHourSlot>, bs: seq<Interval>): seq<Interval>
  {
    Subtract(WindowsForDay(day, hours), bs)
  }

  /** The instant lies in an available window of its own day. */
  predicate IsAvailable(t: Instant, hours: seq<OperatingHourSlot>, bs: seq<Interval>)
  {
    Covered(DayAvailable(DayOf(t), hours, bs), t)
  }

  // ---------------------------------------------------------------------------
  // findNextOperatingSlot
  // ---------------------------------------------------------------------------

  /** Where a scan at `c` enters window `w`: at `c` when inside (or at its start), at its start when later. */
  function Entry(w: Interval, c: Instant): Option<Instant>
  {
    if Contains(w, c) || w.start == c then Some(c)
    else if w.start > c then Some(w.start)
    else None
  }

  /** The first entry point among a day's windows, in list order. */
  function FindInDay(ws: seq<Interval>, c: Instant): Option<Instant>
  {
    if ws == [] then None
    else if Entry(ws[0], c).Some? then Entry(ws[0], c)
    else FindInDay(ws[1..], c)
  }

  /** The day loop: today's windows from `c`, then from the start of each following day. */
  function NextSlotFrom(c: Instant, hours: seq<OperatingHourSlot>, bs: seq<Interval>, days: int): Option<Instant>
    decreases days
  {
    if days <= 0 then None
    else match FindInDay(DayAvailable(DayOf(c), hours, bs), c)
      case Some(r) => Some(r)
      case None => NextSlotFrom(StartOfDay(c) + MinutesPerDay, hours, bs, days - 1)
  }

  method FindNextOperatingSlot(from: Instant, hours: seq<OperatingHourSlot>, blackouts: seq<Interval>, maxDays: int)
    returns (r: Option<Instant>)
    ensures r == NextSlotFrom(from, hours, blackouts, maxDays)
  {
    var current := from;
    var d := 0;
    while d < maxDays
      invariant 0 <= d
      invariant NextSlotFrom(current, hours, blackouts, maxDays - d) == NextSlotFrom(from, hours, blackouts, maxDays)
    {
      var dayWindows := GetOperatingWindowsForDate(current, hours);
      var available := SubtractBlackouts(dayWindows, blackouts);
      var found := ScanDay(available, current);
      if found.Some? {
        return found;
      }
      current := StartOfDay(current) + MinutesPerDay;
      d := d + 1;
    }
    return None;
  }

  /** The window loop of one day: the first window entered from `current`, in list order. */
  method ScanDay(available: seq<Interval>, current: Instant) returns (found: Option<Instant>)
    ensures found == FindInDay(available, current)
  {
    for i := 0 to |available|
      invariant FindInDay(available[i..], current) == FindInDay(available, current)
    {
      assert available[i..][1..] == available[i + 1..];
      var window := available[i];
      if Contains(window, current) || window.start == current {
        return Some(current);
      }
      if window.start > current {
        return Some(window.start);
      }
    }
    assert available[|available|..] == [];
    return None;
  }

  // ---------------------------------------------------------------------------
  // computeEndDate
  // ---------------------------------------------------------------------------

  /** The outcome of consuming minutes through one day's windows. */
  datatype Consumed = Finished(end: Instant) | Carry(remaining: int)

  /** The inner loop: each window entered from `c` gives `end - entry` minutes. */
  function ConsumeDay(ws: seq<Interval>, c: Instant, rem: int): Consumed
  {
    if ws == [] then Carry(rem)
    else
      match Entry(ws[0], c)
      case None => ConsumeDay(ws[1..], c, rem)
      case Some(eff) =>
        var avail := ws[0].end - eff;
        if avail <= 0 then ConsumeDay(ws[1..], c, rem)
        else if rem <= avail then Finished(eff + rem)
        else ConsumeDay(ws[1..], c, rem - avail)
  }

  /** The day loop of the duration walk. */
  function EndFrom(c: Instant, rem: int, hours: seq<OperatingHourSlot>, bs: seq<Interval>, days: int): Option<Instant>
    decreases days
  {
    if days <= 0 then None
    else match ConsumeDay(DayAvailable(DayOf(c), hours, bs), c, rem)
      case Finished(e) => Some(e)
      case Carry(r) => EndFrom(StartOfDay(c) + MinutesPerDay, r, hours, bs, days - 1)
  }

  /** The end of a walk consuming `duration` available minutes from `start`. */
  function EndDate(start: Instant, duration: int, hours: seq<OperatingHourSlot>, bs: seq<Interval>, maxDays: int): Option<Instant>
  {
    if duration <= 0 then Some(start) else EndFrom(start, duration, hours, bs, maxDays)
  }

  method ComputeEndDate(startTime: Instant, durationMinutes: int, hours: seq<OperatingHourSlot>,
                        blackouts: seq<Interval>, maxDays: int)
    returns (r: Option<Instant>)
    ensures r == EndDate(startTime, durationMinutes, hours, blackouts, maxDays)
  {
    if durationMinutes <= 0 {
      return Some(startTime);
    }
    var remaining := durationMinutes;
    var current := startTime;
    var d := 0;
    while d < maxDays
      invariant 0 <= d
      invariant EndFrom(current, remaining, hours, blackouts, maxDays - d)
             == EndDate(startTime, durationMinutes, hours, blackouts, maxDays)
    {
      var dayWindows := GetOperatingWindowsForDate(current, hours);
      var available := SubtractBlackouts(dayWindows, blackouts);
      var outcome := ConsumeWindows(available, current, remaining);
      if outcome.Finished? {
        return Some(outcome.end);
      }
      remaining := outcome.remaining;
      current := StartOfDay(current) + MinutesPerDay;
      d := d + 1;
    }
    return None;
  }

  /**
   * The body of the day loop: consume from `current` through one day's
   * windows; `Finished` is the source's early return.
   */
  method ConsumeWindows(available: seq<Interval>, current: Instant, remaining0: int) returns (outcome: Consumed)
    ensures outcome == ConsumeDay(available, current, remaining0)
  {
    var remaining := remaining0;
    for i := 0 to |available|
      invariant ConsumeDay(available[i..], current, remaining) == ConsumeDay(available, current, remaining0)
    {
      assert available[i..][1..] == available[i + 1..];
      var window := available[i];
      var effectiveStart := 0;
      var skip := false;
      if Contains(window, current) || window.start == current {
        effectiveStart := current;
      } else if window.start > current {
        effectiveStart := window.start;
      } else {
        skip := true;
      }
      if !skip {
        var availableMinutes := window.end - effectiveStart;
        if availableMinutes > 0 {
          if remaining <= availableMinutes {
            return Finished(effectiveStart + remaining);
          }
          remaining := remaining - availableMinutes;
        }
      }
    }
    assert available[|available|..] == [];
    return Carry(remaining);
  }

  // ---------------------------------------------------------------------------
  // countAvailableMinutes
  // ---------------------------------------------------------------------------

  function Max(a: int, b: int): int { if a >= b then a else b }
  function Min(a: int, b: int): int { if a <= b then a else b }

  /** The minutes of `w` inside `[from, to)`. */
  function ClipMinutes(w: Interval, from: Instant, to: Instant): (m: int)
    ensures m >= 0
  {
    var s := Max(w.start, from);
    var e := Min(w.end, to);
    if e > s then e - s else 0
  }

  function ClipSum(ws: seq<Interval>, from: Instant, to: Instant): int
  {
    if ws == [] then 0 else ClipMinutes(ws[0], from, to) + ClipSum(ws[1..], from, to)
  }

  /** The clipped minutes of days `day` .. `lastDay`. */
  function CountDays(day: int, lastDay: int, from: Instant, to: Instant,
                     hours: seq<OperatingHourSlot>, bs: seq<Interval>): int
    decreases lastDay - day
  {
    if day > lastDay then 0
    else ClipSum(DayAvailable(day, hours, bs), from, to) + CountDays(day + 1, lastDay, from, to, hours, bs)
  }

  /** The available minutes in `[from, to)`, summed day by day. */
  function CountAvailable(from: Instant, to: Instant, hours: seq<OperatingHourSlot>, bs: seq<Interval>): int
  {
    if to <= from then 0 else CountDays(DayOf(from), DayOf(to), from, to, hours, bs)
  }

  lemma {:induction false} ClipSumEmptyRange(ws: seq<Interval>, from: Instant, to: Instant)
    requires to <= from
    ensures ClipSum(ws, from, to) == 0
  {
    if ws != [] {
      ClipSumEmptyRange(ws[1..], from, to);
    }
  }

  lemma NextDay(t: Instant)
    ensures DayOf(StartOfDay(t) + MinutesPerDay) == DayOf(t) + 1
  {
    assert StartOfDay(t) + MinutesPerDay == (DayOf(t) + 1) * MinutesPerDay;
  }

  lemma DayOfMono(a: Instant, b: Instant)
    requires a <= b
    ensures DayOf(a) <= DayOf(b)
  {
  }

  lemma PastDay(k: int, t: Instant)
    requires k * MinutesPerDay > t
    ensures k > DayOf(t)
  {
    assert DayOf(t) * MinutesPerDay <= t;
  }

  /** The loop's own day cap covers every day from `from`'s to `to`'s. */
  lemma DayCapSuffices(from: Instant, to: Instant)
    requires from < to
    ensures CeilDiv(to - from, MinutesPerDay) + 1 >= DayOf(to) - DayOf(from) + 1
  {
    var q := CeilDiv(to - from, MinutesPerDay);
    assert DayOf(from) * MinutesPerDay <= from;
    assert to < (DayOf(to) + 1) * MinutesPerDay;
    assert (DayOf(to) - DayOf(from) - 1) * MinutesPerDay < to - from;
  }

  /** The body of the day loop: one more day's minutes added to the running total. */
  method AddDay(current: Instant, ghost day: int, ghost lastDay: int, from: Instant, to: Instant,
                hours: seq<OperatingHourSlot>, blackouts: seq<Interval>, total: int, ghost whole: int)
    returns (total': int)
    requires DayOf(current) == day
    requires to <= from ==> total == 0
    requires from < to ==> day <= lastDay && total + CountDays(day, lastDay, from, to, hours, blackouts) == whole
    ensures to <= from ==> total' == 0
    ensures from < to ==> total' + CountDays(day + 1, lastDay, from, to, hours, blackouts) == whole
  {
    var minutes := DayMinutes(current, day, from, to, hours, blackouts);
    total' := total + minutes;
  }

  lemma CountDaysPast(day: int, lastDay: int, from: Instant, to: Instant, hours: seq<OperatingHourSlot>, bs: seq<Interval>)
    requires day > lastDay
    ensures CountDays(day, lastDay, from, to, hours, bs) == 0
  {
  }

  method CountAvailableMinutes(from: Instant, to: Instant, hours: seq<OperatingHourSlot>, blackouts: seq<Interval>)
    returns (total: int)
    ensures total == CountAvailable(from, to, hours, blackouts)
  {
    total := 0;
    var current := from;
    var maxDays := CeilDiv(to - from, MinutesPerDay) + 1;
    ghost var first := DayOf(from);
    ghost var last := DayOf(to);
    if from < to {
      DayCapSuffices(from, to);
    }
    var d := 0;
    while d < maxDays
      invariant 0 <= d
      invariant DayOf(current) == first + d
      invariant to <= from ==> total == 0
      invariant from < to ==> first + d <= last
      invariant from < to ==> total + CountDays(first + d, last, from, to, hours, blackouts)
                              == CountDays(first, last, from, to, hours, blackouts)
    {
      total := AddDay(current, first + d, last, from, to, hours, blackouts, total, CountDays(first, last, from, to, hours, blackouts));
      NextDay(current);
      current := StartOfDay(current) + MinutesPerDay;
      d := d + 1;
      if current > to {
        PastDay(first + d, to);
        CountDaysPast(first + d, last, from, to, hours, blackouts);
        break;
      }
      DayOfMono(current, to);
    }
  }

  /** One day of the day loop: that day's available windows, clipped to `[from, to)`. */
  method DayMinutes(current: Instant, ghost day: int, from: Instant, to: Instant, hours: seq<OperatingHourSlot>, blackouts: seq<Interval>)
    returns (minutes: int)
    requires DayOf(current) == day
    ensures minutes == ClipSum(DayAvailable(day, hours, blackouts), from, to)
    ensures to <= from ==> minutes == 0
  {
    var dayWindows := GetOperatingWindowsForDate(current, hours);
    var available := SubtractBlackouts(dayWindows, blackouts);
    minutes := ClipWindows(available, from, to);
    if to <= from {
      ClipSumEmptyRange(available, from, to);
    }
  }

  /** The clipped minutes of one day's windows. */
  method ClipWindows(available: seq<Interval>, from: Instant, to: Instant) returns (minutes: int)
    ensures minutes == ClipSum(available, from, to)
  {
    minutes := 0;
    for i := 0 to |available|
      invariant minutes + ClipSum(available[i..], from, to) == ClipSum(available, from, to)
    {
      assert available[i..][1..] == available[i + 1..];
      var window := available[i];
      var effectiveStart := Max(window.start, from);
      var effectiveEnd := Min(window.end, to);
      if effectiveEnd > effectiveStart {
        minutes := minutes + (effectiveEnd - effectiveStart);
      }
    }
    assert available[|available|..] == [];
  }

  // ---------------------------------------------------------------------------
  // overlapsBlackout
  // ---------------------------------------------------------------------------

  /** `blackouts.some(b => Interval(start, end).overlaps(b))`. */
  function OverlapsBlackout(start: Instant, end: Instant, blackouts: seq<Interval>): (r: bool)
    ensures r <==> exists i :: 0 <= i < |blackouts| && Overlaps(Interval(start, end), blackouts[i])
  {
    if blackouts == [] then false
    else Overlaps(Interval(start, end), blackouts[0]) || OverlapsBlackout(start, end, blackouts[1..])
  }
}
