/** `lib/class-instances.ts`: expanding a class template's recurrence into
    dated instances. The loop visits one day at a time; on a qualifying day it
    moves its cursor to that day's 23:59:59.999, which becomes the stored
    `scheduledDate` and the time of day for every later step. */
module ClassInstances {
  import opened Common
  import opened Schema
  import opened Store

  /** An instance queued for `createMany`, before the database gives it an id. */
  datatype Draft = Draft(classId: nat, scheduledDate: int, scheduledStartTime: int, scheduledEndTime: int, status: string)

  /** The window the dedup query tests, as written: `[00:00, 23:59:59.999)` of the day. */
  const AsWrittenWindow: int := DayMs - 1
  /** The whole calendar day `[00:00, next 00:00)`, which holds the stored `scheduledDate`. */
  const DayWindow: int := DayMs

  /** `lib/class-instances.ts` lines 42-46: "daily" takes every day, "weekly" the listed
      weekdays, anything else none. */
  predicate Qualifies(rec: Recurrence, weekday: int) {
    || rec.pattern == "daily"
    || (rec.pattern == "weekly" && rec.daysOfWeek.Some? && weekday in rec.daysOfWeek.value)
  }

  /** The dedup query: an instance of the class with `lo <= scheduledDate < hi`. */
  predicate AlreadyScheduled(existing: seq<ClassInstance>, classId: nat, lo: int, hi: int) {
    exists i :: 0 <= i < |existing| && existing[i].classId == classId
      && lo <= existing[i].scheduledDate < hi
  }

  ghost predicate ClocksOk(c: ClassDef) {
    ClockPattern(c.startTime) && ClockPattern(c.endTime)
  }

  /** The instance queued for the day starting at `day`: start and end at the
      template's clock times with zero seconds, dated 23:59:59.999. */
  function DraftOn(c: ClassDef, day: int): (d: Draft)
    requires ClocksOk(c)
    ensures d.classId == c.id && d.status == "scheduled"
    ensures d.scheduledDate == day + DayMs - 1
    ensures d.scheduledStartTime == day + ClockOffset(c.startTime)
    ensures d.scheduledEndTime == day + ClockOffset(c.endTime)
    ensures day <= d.scheduledStartTime < day + DayMs && day <= d.scheduledEndTime < day + DayMs
  {
    Draft(c.id, day + DayMs - 1, day + ClockOffset(c.startTime), day + ClockOffset(c.endTime), "scheduled")
  }

  /** What the loop queues from cursor `cur` on, with a dedup window of `window` ms. */
  function Planned(existing: seq<ClassInstance>, c: ClassDef, cur: int, end: int, window: int): seq<Draft>
    requires ClocksOk(c)
    decreases end - cur
  {
    if cur > end then []
    else if Qualifies(c.recurrence, Weekday(cur)) then
      var day := DayStart(cur);
      (if AlreadyScheduled(existing, c.id, day, day + window) then [] else [DraftOn(c, day)])
        + Planned(existing, c, day + DayMs - 1 + DayMs, end, window)
    else Planned(existing, c, cur + DayMs, end, window)
  }

  lemma WeekdayOfDayStart(t: int)
    ensures Weekday(DayStart(t)) == Weekday(t)
  {
    assert DayStart(t) / DayMs == t / DayMs;
  }

  /** A draft the loop may queue: dated the last millisecond of a qualifying
      day between `lo` and `end` that is free of existing instances in the
      window, with the template's times. */
  ghost predicate QueuedDraft(existing: seq<ClassInstance>, c: ClassDef, lo: int, end: int, window: int, d: Draft)
    requires ClocksOk(c)
  {
    var day := d.scheduledDate - (DayMs - 1);
    && day % DayMs == 0 && lo <= day <= end
    && d == DraftOn(c, day)
    && Qualifies(c.recurrence, Weekday(day))
    && !AlreadyScheduled(existing, c.id, day, day + window)
  }

  lemma QueuedDraftWiden(existing: seq<ClassInstance>, c: ClassDef, lo: int, lo': int, end: int, window: int, d: Draft)
    requires ClocksOk(c) && lo' <= lo && QueuedDraft(existing, c, lo, end, window, d)
    ensures QueuedDraft(existing, c, lo', end, window, d)
  {
  }

  /** Every queued instance falls on a qualifying day between the first cursor's
      day and `end`, is free of existing instances in the window, and has the
      template's times. */
  lemma {:induction false} PlannedDrafts(existing: seq<ClassInstance>, c: ClassDef, cur: int, end: int, window: int, i: nat)
    requires ClocksOk(c) && i < |Planned(existing, c, cur, end, window)|
    ensures QueuedDraft(existing, c, DayStart(cur), end, window, Planned(existing, c, cur, end, window)[i])
    decreases end - cur
  {
    var p := Planned(existing, c, cur, end, window);
    var day := DayStart(cur);
    CursorDays(cur);
    if Qualifies(c.recurrence, Weekday(cur)) {
      var head := if AlreadyScheduled(existing, c.id, day, day + window) then [] else [DraftOn(c, day)];
      var next := day + DayMs - 1 + DayMs;
      var rest := Planned(existing, c, next, end, window);
      assert p == head + rest;
      if i >= |head| {
        var j := i - |head|;
        assert p[i] == rest[j];
        PlannedDrafts(existing, c, next, end, window, j);
        QueuedDraftWiden(existing, c, DayStart(next), day, end, window, rest[j]);
      } else {
        assert p[i] == DraftOn(c, day);
      }
    } else {
      assert p == Planned(existing, c, cur + DayMs, end, window);
      PlannedDrafts(existing, c, cur + DayMs, end, window, i);
      QueuedDraftWiden(existing, c, DayStart(cur + DayMs), day, end, window, p[i]);
    }
  }

  /** The day a cursor falls in, and the day each of the loop's two moves
      lands it in. */
  lemma CursorDays(cur: int)
    ensures var day := DayStart(cur);
      && day % DayMs == 0 && day <= cur < day + DayMs
      && Weekday(day) == Weekday(cur)
      && DayStart(day + DayMs - 1 + DayMs) == day + DayMs
      && DayStart(cur + DayMs) == day + DayMs
  {
    var day := DayStart(cur);
    DayStartWithin(day, cur - day);
    WeekdayOfDayStart(cur);
    NextDayStart(day);
    DayStartWithin(day + DayMs, DayMs - 1);
    DayStartWithin(day + DayMs, cur - day);
  }

  /** The converse of `PlannedDrafts`: every qualifying day between the
      cursor's day and `end` that is free of existing instances in the window
      gets its instance. */
  lemma {:induction false} PlannedComplete(existing: seq<ClassInstance>, c: ClassDef, cur: int, end: int, window: int, d: int)
    requires ClocksOk(c) && d % DayMs == 0 && DayStart(cur) <= d && d + DayMs - 1 <= end
    requires Qualifies(c.recurrence, Weekday(d)) && !AlreadyScheduled(existing, c.id, d, d + window)
    ensures DraftOn(c, d) in Planned(existing, c, cur, end, window)
    decreases end - cur
  {
    var p := Planned(existing, c, cur, end, window);
    var day := DayStart(cur);
    CursorDays(cur);
    if day == d {
      assert p == [DraftOn(c, d)] + Planned(existing, c, day + DayMs - 1 + DayMs, end, window);
    } else {
      DayStartsApart(day, d);
      if Qualifies(c.recurrence, Weekday(cur)) {
        var next := day + DayMs - 1 + DayMs;
        var head := if AlreadyScheduled(existing, c.id, day, day + window) then [] else [DraftOn(c, day)];
        assert p == head + Planned(existing, c, next, end, window);
        PlannedComplete(existing, c, next, end, window, d);
      } else {
        assert p == Planned(existing, c, cur + DayMs, end, window);
        PlannedComplete(existing, c, cur + DayMs, end, window, d);
      }
    }
  }

  /** Two different day starts are at least a day apart. */
  lemma DayStartsApart(a: int, b: int)
    requires a % DayMs == 0 && b % DayMs == 0 && a < b
    ensures a + DayMs <= b
  {
    assert a == (a / DayMs) * DayMs;
    assert b == (b / DayMs) * DayMs;
  }

  /** A pattern other than "daily" and "weekly", or a weekly one without
      weekdays, queues nothing whatever the range. */
  lemma {:induction false} NoRecurrencePlansNothing(existing: seq<ClassInstance>, c: ClassDef, cur: int, end: int, window: int)
    requires ClocksOk(c) && c.recurrence.pattern != "daily"
    requires c.recurrence.pattern != "weekly" || c.recurrence.daysOfWeek.None?
    ensures Planned(existing, c, cur, end, window) == []
    decreases end - cur
  {
    if cur <= end {
      NoRecurrencePlansNothing(existing, c, cur + DayMs, end, window);
    }
  }

  /** Each draft is dated at least a day after the one before it. */
  predicate DaysApart(p: seq<Draft>) {
    forall i, j :: 0 <= i < j < |p| ==> p[i].scheduledDate + DayMs <= p[j].scheduledDate
  }

  /** One run queues at most one instance per calendar day, in date order. */
  lemma {:induction false} PlannedIncreasing(existing: seq<ClassInstance>, c: ClassDef, cur: int, end: int, window: int)
    requires ClocksOk(c)
    ensures DaysApart(Planned(existing, c, cur, end, window))
    decreases end - cur
  {
    var p := Planned(existing, c, cur, end, window);
    if cur <= end {
      var day := DayStart(cur);
      if Qualifies(c.recurrence, Weekday(cur)) {
        var next := day + DayMs - 1 + DayMs;
        var rest := Planned(existing, c, next, end, window);
        PlannedIncreasing(existing, c, next, end, window);
        var head := if AlreadyScheduled(existing, c.id, day, day + window) then [] else [DraftOn(c, day)];
        assert p == head + rest;
        CursorDays(cur);
        forall j | 0 <= j < |rest|
          ensures day + DayMs - 1 + DayMs <= rest[j].scheduledDate
        {
          PlannedDrafts(existing, c, next, end, window, j);
          assert DayStart(next) <= rest[j].scheduledDate - (DayMs - 1);
        }
        forall i, j | 0 <= i < j < |p|
          ensures p[i].scheduledDate + DayMs <= p[j].scheduledDate
        {
          if i < |head| {
            assert p[i] == DraftOn(c, day) && p[j] == rest[j - |head|];
            assert day + DayMs - 1 + DayMs <= rest[j - |head|].scheduledDate;
          } else {
            assert p[i] == rest[i - |head|] && p[j] == rest[j - |head|];
            assert rest[i - |head|].scheduledDate + DayMs <= rest[j - |head|].scheduledDate;
          }
        }
      } else {
        assert p == Planned(existing, c, cur + DayMs, end, window);
        PlannedIncreasing(existing, c, cur + DayMs, end, window);
      }
    }
  }

  // ---------------------------------------------------------------------
  // The loop

  /** `lib/class-instances.ts` lines 29-79: the day loop, with the cursor moved by `setHours`
      exactly as written. */
  method QueueInstances(existing: seq<ClassInstance>, c: ClassDef, startDate: int, endDate: int, window: int)
    returns (queued: seq<Draft>)
    requires ClocksOk(c)
    ensures queued == Planned(existing, c, startDate, endDate, window)
  {
    queued := [];
    var currentDate := startDate;
    var (startHour, startMinute) := ParseClock(c.startTime);
    var (endHour, endMinute) := ParseClock(c.endTime);
    while currentDate <= endDate
      invariant queued + Planned(existing, c, currentDate, endDate, window) == Planned(existing, c, startDate, endDate, window)
      decreases endDate - currentDate
    {
      QueueStep(existing, c, currentDate, endDate, window, queued, Planned(existing, c, startDate, endDate, window));
      var dayOfWeek := Weekday(currentDate);
      var shouldCreate := false;
      if c.recurrence.pattern == "daily" {
        shouldCreate := true;
      } else if c.recurrence.pattern == "weekly" {
        shouldCreate := c.recurrence.daysOfWeek.Some? && dayOfWeek in c.recurrence.daysOfWeek.value;
      }
      if shouldCreate {
        var day := DayStart(currentDate);
        var scheduledStartTime := day + startHour * HourMs + startMinute * MinuteMs;
        var scheduledEndTime := day + endHour * HourMs + endMinute * MinuteMs;
        currentDate := day;                      // setHours(0, 0, 0, 0)
        var lo := currentDate;
        currentDate := day + DayMs - 1;          // setHours(23, 59, 59, 999)
        var existingFound := AlreadyScheduled(existing, c.id, lo, lo + window);
        if !existingFound {
          assert Draft(c.id, currentDate, scheduledStartTime, scheduledEndTime, "scheduled") == DraftOn(c, day);
          queued := queued + [Draft(c.id, currentDate, scheduledStartTime, scheduledEndTime, "scheduled")];
        }
      }
      currentDate := currentDate + DayMs;        // setDate(getDate() + 1)
    }
  }

  /** One turn of the loop: the instances still to queue from `cur` are
      this day's (if it qualifies and is free) followed by those from the
      next cursor. */
  lemma QueueStep(existing: seq<ClassInstance>, c: ClassDef, cur: int, end: int, window: int,
                  queued: seq<Draft>, total: seq<Draft>)
    requires ClocksOk(c) && cur <= end
    requires queued + Planned(existing, c, cur, end, window) == total
    ensures var day := DayStart(cur);
      Qualifies(c.recurrence, Weekday(cur)) ==>
        if AlreadyScheduled(existing, c.id, day, day + window)
        then queued + Planned(existing, c, day + DayMs - 1 + DayMs, end, window) == total
        else (queued + [DraftOn(c, day)]) + Planned(existing, c, day + DayMs - 1 + DayMs, end, window) == total
    ensures !Qualifies(c.recurrence, Weekday(cur)) ==> queued + Planned(existing, c, cur + DayMs, end, window) == total
  {
    var day := DayStart(cur);
    if Qualifies(c.recurrence, Weekday(cur)) && !AlreadyScheduled(existing, c.id, day, day + window) {
      var rest := Planned(existing, c, day + DayMs - 1 + DayMs, end, window);
      assert Planned(existing, c, cur, end, window) == [DraftOn(c, day)] + rest;
      assert queued + ([DraftOn(c, day)] + rest) == (queued + [DraftOn(c, day)]) + rest;
    }
  }

  /** `createMany`: the queued rows get the next ids. */
  function Materialize(start: nat, drafts: seq<Draft>): (rows: seq<ClassInstance>)
    ensures |rows| == |drafts|
    ensures forall i :: 0 <= i < |rows| ==>
      rows[i] == ClassInstance(start + i, drafts[i].classId, drafts[i].scheduledDate,
                               drafts[i].scheduledStartTime, drafts[i].scheduledEndTime, drafts[i].status)
  {
    seq(|drafts|, i requires 0 <= i < |drafts| =>
      ClassInstance(start + i, drafts[i].classId, drafts[i].scheduledDate,
                    drafts[i].scheduledStartTime, drafts[i].scheduledEndTime, drafts[i].status))
  }

  /** `lib/class-instances.ts` lines 15-89 with the dedup window over the whole day. Unknown
      class: the thrown "Class not found", answered 500 by the route. Returns the number queued. */
  method GenerateClassInstances(db: Db, classId: nat, startDate: int, endDate: int) returns (r: Result<nat>)
    requires db.Valid()
    modifies db
    ensures db.Valid()
    ensures classId >= |old(db.classes)| ==>
      r == Err(ApiError(500, "Class not found")) && db.instances == old(db.instances)
    ensures classId < |old(db.classes)| ==>
      var planned := Planned(old(db.instances), old(db.classes)[classId], startDate, endDate, DayWindow);
      && ClocksOk(old(db.classes)[classId])
      && r == Ok(|planned|)
      && db.instances == old(db.instances) + Materialize(|old(db.instances)|, planned)
    ensures db.users == old(db.users) && db.customers == old(db.customers) && db.classes == old(db.classes)
    ensures db.bookings == old(db.bookings) && db.transactions == old(db.transactions)
    ensures db.attendances == old(db.attendances) && db.checkpoints == old(db.checkpoints)
    ensures db.notifications == old(db.notifications)
  {
    if classId >= |db.classes| {
      return Err(ApiError(500, "Class not found"));
    }
    var classData := db.classes[classId];
    var instances := QueueInstances(db.instances, classData, startDate, endDate, DayWindow);
    if |instances| > 0 {
      MaterializedRowsOk(db.instances, |db.classes|, classData, startDate, endDate, DayWindow);
      db.instances := db.instances + Materialize(|db.instances|, instances);
    }
    r := Ok(|instances|);
  }

  lemma MaterializedRowsOk(instances: seq<ClassInstance>, nClasses: nat, c: ClassDef, startDate: int, endDate: int, window: int)
    requires InstancesOk(instances, nClasses) && c.id < nClasses && ClocksOk(c)
    ensures InstancesOk(instances + Materialize(|instances|, Planned(instances, c, startDate, endDate, window)), nClasses)
  {
    var p := Planned(instances, c, startDate, endDate, window);
    forall i | 0 <= i < |p|
      ensures p[i].classId == c.id
    {
      PlannedDrafts(instances, c, startDate, endDate, window, i);
    }
  }

  /** `lib/class-instances.ts` lines 95-104: the next `weeks` weeks (default 4) from now. */
  function Horizon(now: int, weeks: Option<int>): (range: (int, int))
    ensures range.0 == now
    ensures weeks.None? ==> range.1 == now + 28 * DayMs
    ensures weeks.Some? ==> range.1 == now + weeks.value * 7 * DayMs
  {
    (now, now + (match weeks case None => 4 case Some(w) => w) * 7 * DayMs)
  }

  method GenerateWeeklyInstances(db: Db, classId: nat, weeks: Option<int>, now: int) returns (r: Result<nat>)
    requires db.Valid()
    modifies db
    ensures db.Valid()
    ensures classId >= |old(db.classes)| ==>
      r == Err(ApiError(500, "Class not found")) && db.instances == old(db.instances)
    ensures classId < |old(db.classes)| ==>
      var planned := Planned(old(db.instances), old(db.classes)[classId], Horizon(now, weeks).0, Horizon(now, weeks).1, DayWindow);
      && ClocksOk(old(db.classes)[classId])
      && r == Ok(|planned|)
      && db.instances == old(db.instances) + Materialize(|old(db.instances)|, planned)
    ensures db.users == old(db.users) && db.customers == old(db.customers) && db.classes == old(db.classes)
    ensures db.bookings == old(db.bookings) && db.transactions == old(db.transactions)
    ensures db.attendances == old(db.attendances) && db.checkpoints == old(db.checkpoints)
    ensures db.notifications == old(db.notifications)
  {
    var (startDate, endDate) := Horizon(now, weeks);
    r := GenerateClassInstances(db, classId, startDate, endDate);
  }

  // ---------------------------------------------------------------------
  // Re-running the generator

  /** Instances dated at 23:59:59.999 never fall in a window `[day, day + DayMs - 1)`. */
  lemma LateRowsOutsideShortWindow(existing: seq<ClassInstance>, added: seq<ClassInstance>, classId: nat, day: int)
    requires day % DayMs == 0
    requires forall k :: 0 <= k < |added| ==> added[k].scheduledDate % DayMs == DayMs - 1
    ensures AlreadyScheduled(existing + added, classId, day, day + AsWrittenWindow)
        <==> AlreadyScheduled(existing, classId, day, day + AsWrittenWindow)
  {
    var all := existing + added;
    if AlreadyScheduled(all, classId, day, day + AsWrittenWindow) {
      var i :| 0 <= i < |all| && all[i].classId == classId && day <= all[i].scheduledDate < day + AsWrittenWindow;
      if i >= |existing| {
        assert false;
      }
    }
    if AlreadyScheduled(existing, classId, day, day + AsWrittenWindow) {
      var i :| 0 <= i < |existing| && existing[i].classId == classId && day <= existing[i].scheduledDate < day + AsWrittenWindow;
      assert all[i] == existing[i];
    }
  }

  lemma {:induction false} AsWrittenIgnoresLateRows(existing: seq<ClassInstance>, added: seq<ClassInstance>, c: ClassDef, cur: int, end: int)
    requires ClocksOk(c)
    requires forall k :: 0 <= k < |added| ==> added[k].scheduledDate % DayMs == DayMs - 1
    ensures Planned(existing + added, c, cur, end, AsWrittenWindow) == Planned(existing, c, cur, end, AsWrittenWindow)
    decreases end - cur
  {
    if cur <= end {
      var day := DayStart(cur);
      if Qualifies(c.recurrence, Weekday(cur)) {
        LateRowsOutsideShortWindow(existing, added, c.id, day);
        AsWrittenIgnoresLateRows(existing, added, c, day + DayMs - 1 + DayMs, end);
      } else {
        AsWrittenIgnoresLateRows(existing, added, c, cur + DayMs, end);
      }
    }
  }

  /** Every queued row is dated at the last millisecond of its day. */
  lemma PlannedLate(existing: seq<ClassInstance>, c: ClassDef, startDate: int, endDate: int, window: int, added: seq<ClassInstance>, k: nat)
    requires ClocksOk(c) && added == Materialize(k, Planned(existing, c, startDate, endDate, window))
    ensures forall j :: 0 <= j < |added| ==> added[j].scheduledDate % DayMs == DayMs - 1
  {
    var first := Planned(existing, c, startDate, endDate, window);
    forall j | 0 <= j < |added|
      ensures added[j].scheduledDate % DayMs == DayMs - 1
    {
      PlannedDrafts(existing, c, startDate, endDate, window, j);
      LastMsOfDay(first[j].scheduledDate - (DayMs - 1));
    }
  }

  /** As written, a second run over the same range queues everything the first
      run queued again: the dedup window misses the rows the first run stored. */
  lemma AsWrittenRerunRequeues(existing: seq<ClassInstance>, c: ClassDef, startDate: int, endDate: int, k: nat)
    requires ClocksOk(c)
    ensures var first := Planned(existing, c, startDate, endDate, AsWrittenWindow);
      Planned(existing + Materialize(k, first), c, startDate, endDate, AsWrittenWindow) == first
  {
    var first := Planned(existing, c, startDate, endDate, AsWrittenWindow);
    PlannedLate(existing, c, startDate, endDate, AsWrittenWindow, Materialize(k, first), k);
    AsWrittenIgnoresLateRows(existing, Materialize(k, first), c, startDate, endDate);
  }

  /** A concrete case: a daily class generated twice for day 0 ends with two
      instances dated the same moment. */
  lemma AsWrittenDuplicatesDay(c: ClassDef)
    requires ClocksOk(c) && c.recurrence.pattern == "daily"
    ensures var first := Planned([], c, 0, 0, AsWrittenWindow);
      var second := Planned(Materialize(0, first), c, 0, 0, AsWrittenWindow);
      && |first| == 1 && second == first
      && (Materialize(0, first) + Materialize(1, second))[0].scheduledDate
         == (Materialize(0, first) + Materialize(1, second))[1].scheduledDate
  {
    var first := Planned([], c, 0, 0, AsWrittenWindow);
    assert DayStart(0) == 0;
    assert !AlreadyScheduled([], c.id, 0, AsWrittenWindow);
    assert first == [DraftOn(c, 0)] + Planned([], c, 2 * DayMs - 1, 0, AsWrittenWindow);
    AsWrittenRerunRequeues([], c, 0, 0, 0);
    assert [] + Materialize(0, first) == Materialize(0, first);
  }

  /** Every draft in `drafts` has a row of the class with the same date in `added`. */
  ghost predicate Covers(added: seq<ClassInstance>, classId: nat, drafts: seq<Draft>) {
    forall j :: 0 <= j < |drafts| ==> HasRowAt(added, classId, drafts[j].scheduledDate)
  }

  ghost predicate HasRowAt(added: seq<ClassInstance>, classId: nat, date: int) {
    exists k :: 0 <= k < |added| && added[k].classId == classId && added[k].scheduledDate == date
  }

  lemma CoversSuffix(added: seq<ClassInstance>, classId: nat, head: seq<Draft>, rest: seq<Draft>)
    requires Covers(added, classId, head + rest)
    ensures Covers(added, classId, rest)
  {
    forall j | 0 <= j < |rest|
      ensures HasRowAt(added, classId, rest[j].scheduledDate)
    {
      assert rest[j] == (head + rest)[|head| + j];
    }
  }

  /** A window that contains the stored date sees every earlier row. */
  lemma {:induction false} CoveredDaysPlanNothing(existing: seq<ClassInstance>, added: seq<ClassInstance>, c: ClassDef, cur: int, end: int)
    requires ClocksOk(c)
    requires Covers(added, c.id, Planned(existing, c, cur, end, DayWindow))
    ensures Planned(existing + added, c, cur, end, DayWindow) == []
    decreases end - cur
  {
    var all := existing + added;
    var p := Planned(existing, c, cur, end, DayWindow);
    if cur <= end {
      var day := DayStart(cur);
      if Qualifies(c.recurrence, Weekday(cur)) {
        var next := day + DayMs - 1 + DayMs;
        var head := if AlreadyScheduled(existing, c.id, day, day + DayWindow) then [] else [DraftOn(c, day)];
        var rest := Planned(existing, c, next, end, DayWindow);
        assert p == head + rest;
        if AlreadyScheduled(existing, c.id, day, day + DayWindow) {
          var i :| 0 <= i < |existing| && existing[i].classId == c.id && day <= existing[i].scheduledDate < day + DayWindow;
          assert all[i] == existing[i];
        } else {
          assert p[0] == DraftOn(c, day);
          var k :| 0 <= k < |added| && added[k].classId == c.id && added[k].scheduledDate == p[0].scheduledDate;
          assert all[|existing| + k] == added[k];
        }
        assert AlreadyScheduled(all, c.id, day, day + DayWindow);
        CoversSuffix(added, c.id, head, rest);
        CoveredDaysPlanNothing(existing, added, c, next, end);
      } else {
        assert p == Planned(existing, c, cur + DayMs, end, DayWindow);
        CoveredDaysPlanNothing(existing, added, c, cur + DayMs, end);
      }
    }
  }

  /** With the whole-day window, a second run over the same range queues nothing. */
  lemma WholeDayRerunPlansNothing(existing: seq<ClassInstance>, c: ClassDef, startDate: int, endDate: int, k: nat)
    requires ClocksOk(c)
    ensures var first := Planned(existing, c, startDate, endDate, DayWindow);
      Planned(existing + Materialize(k, first), c, startDate, endDate, DayWindow) == []
  {
    var first := Planned(existing, c, startDate, endDate, DayWindow);
    var added := Materialize(k, first);
    forall j | 0 <= j < |first|
      ensures HasRowAt(added, c.id, first[j].scheduledDate)
    {
      PlannedDrafts(existing, c, startDate, endDate, DayWindow, j);
      assert added[j].classId == c.id && added[j].scheduledDate == first[j].scheduledDate;
    }
    assert Covers(added, c.id, first);
    CoveredDaysPlanNothing(existing, added, c, startDate, endDate);
  }

  // ---------------------------------------------------------------------
  // The last day of the range

  lemma {:induction false} DailyFromLateCursor(c: ClassDef, cur: int, end: int, window: int)
    requires ClocksOk(c) && c.recurrence.pattern == "daily" && cur % DayMs == DayMs - 1
    ensures var p := Planned([], c, cur, end, window);
      && |p| == (if cur > end then 0 else (end - cur) / DayMs + 1)
      && forall i :: 0 <= i < |p| ==> p[i].scheduledDate <= end && p[i].scheduledDate % DayMs == DayMs - 1
    decreases end - cur
  {
    var p := Planned([], c, cur, end, window);
    if cur <= end {
      var day := cur - (DayMs - 1);
      LateCursorStep(cur, end);
      assert !AlreadyScheduled([], c.id, day, day + window);
      var next := cur + DayMs;
      assert p == [DraftOn(c, day)] + Planned([], c, next, end, window);
      DailyFromLateCursor(c, next, end, window);
    }
  }

  /** The day arithmetic of one step of `DailyFromLateCursor`. */
  lemma LateCursorStep(cur: int, end: int)
    requires cur % DayMs == DayMs - 1 && cur <= end
    ensures var day := cur - (DayMs - 1);
      && day % DayMs == 0 && DayStart(cur) == day
      && (cur + DayMs) % DayMs == DayMs - 1
      && (cur + DayMs <= end ==> (end - cur) / DayMs == (end - (cur + DayMs)) / DayMs + 1)
      && (cur + DayMs > end ==> (end - cur) / DayMs == 0)
  {
    var day := cur - (DayMs - 1);
    assert day % DayMs == 0;
    DayStartWithin(day, DayMs - 1);
    var next := cur + DayMs;
    if next <= end {
      DivPlusMultiple(end - next - (end - next) / DayMs * DayMs, (end - next) / DayMs + 1);
    }
  }

  /** A daily class generated over `n` whole days from a time before 23:59:59.999
      touches `n + 1` calendar days but queues only `n` instances: after the first
      day the cursor sits at 23:59:59.999, past `end` on the last day. */
  lemma FinalDaySkipped(c: ClassDef, startDate: int, n: nat, window: int)
    requires ClocksOk(c) && c.recurrence.pattern == "daily" && n >= 1
    requires startDate % DayMs < DayMs - 1
    ensures var endDate := startDate + n * DayMs;
      var p := Planned([], c, startDate, endDate, window);
      && DayStart(endDate) == DayStart(startDate) + n * DayMs
      && |p| == n
      && forall i :: 0 <= i < |p| ==> p[i].scheduledDate < DayStart(endDate)
  {
    var endDate := startDate + n * DayMs;
    var day := DayStart(startDate);
    var next := day + DayMs - 1 + DayMs;
    FinalDayCursors(startDate, n);
    var dEnd := DayStart(endDate);
    DayStartWithin(day, startDate - day);
    assert !AlreadyScheduled([], c.id, day, day + window);
    var p := Planned([], c, startDate, endDate, window);
    var rest := Planned([], c, next, endDate, window);
    assert p == [DraftOn(c, day)] + rest;
    DailyFromLateCursor(c, next, endDate, window);
    forall i | 0 <= i < |rest|
      ensures rest[i].scheduledDate < dEnd
    {
      LastMsBefore(rest[i].scheduledDate, dEnd, startDate % DayMs);
    }
    assert forall i :: 1 <= i < |p| ==> p[i] == rest[i - 1];
  }

  /** The day arithmetic of `FinalDaySkipped`: where the end falls, and how
      many last milliseconds of a day lie between the second cursor and it. */
  lemma FinalDayCursors(startDate: int, n: nat)
    requires n >= 1 && startDate % DayMs < DayMs - 1
    ensures var day := DayStart(startDate);
      var endDate := startDate + n * DayMs;
      var next := day + DayMs - 1 + DayMs;
      && day % DayMs == 0
      && DayStart(endDate) == day + n * DayMs
      && DayStart(endDate) % DayMs == 0
      && endDate == DayStart(endDate) + startDate % DayMs
      && day + DayMs - 1 < DayStart(endDate)
      && next % DayMs == DayMs - 1
      && (next <= endDate <==> n >= 2)
      && (next <= endDate ==> (endDate - next) / DayMs + 1 == n - 1)
  {
    var r := startDate % DayMs;
    var endDate := startDate + n * DayMs;
    var day := DayStart(startDate);
    var dEnd := day + n * DayMs;
    assert day % DayMs == 0;
    assert dEnd % DayMs == 0;
    DayStartWithin(dEnd, r);
    assert endDate == dEnd + r;
    LastMsOfDay(day + DayMs);
    NextDayStart(day);
    if n >= 2 {
      DivPlusMultiple(r + 1, n - 2);
      assert endDate - (day + DayMs - 1 + DayMs) == r + 1 + (n - 2) * DayMs;
    }
  }
}
