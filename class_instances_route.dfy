/** `/api/class-instances`: listing scheduled instances with their free seats,
    and the generate request that expands a template for the next weeks. */
module ClassInstancesRoute {
  import opened Common
  import opened Schema
  import opened Store
  import opened ClassInstances

  /** The search parameters, already parsed: the date and class filter, and `available`. */
  datatype Window = Window(classId: Option<nat>, startDate: Option<int>, endDate: Option<int>)
  datatype InstanceQuery = InstanceQuery(window: Window, availableOnly: bool)

  /** The class fields the query selects. */
  datatype ClassSummary = ClassSummary(name: string, instructorName: string, priceCredits: int, durationMinutes: int)

  /** One listed instance. `available` is present only with `available=true`;
      `spotsRemaining` is `None` where JavaScript computes `NaN`. */
  datatype InstanceRow = InstanceRow(
    instance: ClassInstance, summary: ClassSummary, bookedCount: nat,
    available: Option<bool>, spotsRemaining: Option<int>)

  /** `app/api/class-instances/route.ts` lines 14-27: status "scheduled", dated from `startDate`
      (default now), up to `endDate` when given, of the class when given. */
  predicate InWindow(q: Window, now: int, inst: ClassInstance) {
    && inst.scheduledDate >= (match q.startDate case Some(d) => d case None => now)
    && inst.status == "scheduled"
    && (q.classId.Some? ==> inst.classId == q.classId.value)
    && (q.endDate.Some? ==> inst.scheduledDate <= q.endDate.value)
  }

  predicate RowsByStart(rows: seq<InstanceRow>) {
    forall i, j :: 0 <= i < j < |rows| ==> rows[i].instance.scheduledStartTime <= rows[j].instance.scheduledStartTime
  }

  /** JavaScript's `bookedCount < capacity`, false when the capacity is `undefined`. */
  function HasRoom(capacity: Option<int>, booked: nat): bool {
    capacity.Some? && booked < capacity.value
  }

  function RowOf(classes: seq<ClassDef>, bookings: seq<Booking>, inst: ClassInstance,
                 selectCapacity: bool, availableOnly: bool): (row: InstanceRow)
    requires inst.classId < |classes|
    ensures row.instance == inst && row.bookedCount == SeatsTaken(bookings, inst.id)
  {
    var cls := classes[inst.classId];
    var capacity := if selectCapacity then Some(cls.maxCapacity) else None;
    var booked := SeatsTaken(bookings, inst.id);
    InstanceRow(inst, ClassSummary(cls.name, cls.instructorName, cls.priceCredits, cls.durationMinutes), booked,
                if availableOnly then Some(HasRoom(capacity, booked)) else None,
                if capacity.Some? then Some(capacity.value - booked) else None)
  }

  function RowsOf(classes: seq<ClassDef>, bookings: seq<Booking>, matching: seq<ClassInstance>,
                  selectCapacity: bool, availableOnly: bool): (rows: seq<InstanceRow>)
    requires forall x :: x in matching ==> x.classId < |classes|
    ensures |rows| == |matching|
    ensures forall i :: 0 <= i < |rows| ==> rows[i] == RowOf(classes, bookings, matching[i], selectCapacity, availableOnly)
  {
    seq(|matching|, i requires 0 <= i < |matching| => RowOf(classes, bookings, matching[i], selectCapacity, availableOnly))
  }

  ghost predicate Linked(classes: seq<ClassDef>, instances: seq<ClassInstance>) {
    forall i :: 0 <= i < |instances| ==> instances[i].classId < |classes|
  }

  /** The instances the `where` clause selects, by start time ascending. */
  function Matching(instances: seq<ClassInstance>, q: Window, now: int): (m: seq<ClassInstance>)
    ensures multiset(m) == multiset(Filter(instances, (inst: ClassInstance) => InWindow(q, now, inst)))
    ensures forall x :: x in m ==> x in instances && InWindow(q, now, x)
    ensures forall k :: 0 <= k < |instances| && InWindow(q, now, instances[k]) ==> instances[k] in m
    ensures forall i, j :: 0 <= i < j < |m| ==> m[i].scheduledStartTime <= m[j].scheduledStartTime
  {
    var filtered := Filter(instances, (inst: ClassInstance) => InWindow(q, now, inst));
    var m := SortBy(filtered, ByStart());
    assert forall x :: x in m ==> x in multiset(m);
    assert forall x :: x in filtered ==> x in multiset(filtered);
    m
  }

  /** `app/api/class-instances/route.ts` lines 29-70, parameterised by whether the class
      `select` includes `maxCapacity`. */
  function InstanceRows(classes: seq<ClassDef>, instances: seq<ClassInstance>, bookings: seq<Booking>,
                        q: InstanceQuery, now: int, selectCapacity: bool): seq<InstanceRow>
    requires Linked(classes, instances)
  {
    var rows := RowsOf(classes, bookings, Matching(instances, q.window, now), selectCapacity, q.availableOnly);
    if q.availableOnly then Filter(rows, (row: InstanceRow) => row.available == Some(true)) else rows
  }

  /** The instances behind a list of rows. */
  function InstancesOf(rows: seq<InstanceRow>): (s: seq<ClassInstance>)
    ensures |s| == |rows| && forall i :: 0 <= i < |rows| ==> s[i] == rows[i].instance
  {
    if rows == [] then [] else [rows[0].instance] + InstancesOf(rows[1..])
  }

  /** A free seat on the instance's class. */
  predicate Roomy(classes: seq<ClassDef>, bookings: seq<Booking>, inst: ClassInstance) {
    inst.classId < |classes| && SeatsTaken(bookings, inst.id) < classes[inst.classId].maxCapacity
  }

  /** The instances listed: all of them, or with `available=true` those with a
      free seat, in the given order. */
  function Listed(classes: seq<ClassDef>, bookings: seq<Booking>, availableOnly: bool, insts: seq<ClassInstance>)
    : (r: seq<ClassInstance>)
    ensures IsSubseq(r, insts)
    ensures forall x :: x in r <==> x in insts && (!availableOnly || Roomy(classes, bookings, x))
  {
    var p := (inst: ClassInstance) => !availableOnly || Roomy(classes, bookings, inst);
    FilterIsSubseq(insts, p);
    SubseqMembers(Filter(insts, p), insts);
    Filter(insts, p)
  }

  /** Without `available=true` nothing is left out. */
  lemma ListedAll(classes: seq<ClassDef>, bookings: seq<Booking>, insts: seq<ClassInstance>)
    ensures Listed(classes, bookings, false, insts) == insts
  {
    FilterAll(insts, (inst: ClassInstance) => !false || Roomy(classes, bookings, inst));
  }

  /** `GET /api/class-instances`, with the capacity the seat count is compared to. */
  function ListInstances(classes: seq<ClassDef>, instances: seq<ClassInstance>, bookings: seq<Booking>,
                         q: InstanceQuery, now: int): (r: seq<InstanceRow>)
    requires Linked(classes, instances)
    ensures forall i :: 0 <= i < |r| ==> r[i].instance in instances && InWindow(q.window, now, r[i].instance)
    ensures RowsByStart(r)
    ensures forall i :: 0 <= i < |r| ==>
      && r[i].bookedCount == SeatsTaken(bookings, r[i].instance.id)
      && r[i].spotsRemaining == Some(classes[r[i].instance.classId].maxCapacity - r[i].bookedCount)
    ensures q.availableOnly ==> forall i :: 0 <= i < |r| ==> r[i].spotsRemaining.value >= 1
    ensures forall k :: 0 <= k < |instances| && InWindow(q.window, now, instances[k]) ==>
      ((!q.availableOnly || SeatsTaken(bookings, instances[k].id) < classes[instances[k].classId].maxCapacity)
       ==> instances[k] in InstancesOf(r))
  {
    var r := InstanceRows(classes, instances, bookings, q, now, true);
    RowsSound(classes, instances, bookings, q, now, true);
    RowsSorted(classes, instances, bookings, q, now, true);
    RowsComplete(classes, instances, bookings, q, now, true);
    r
  }

  /** Each selected instance is listed once: the listing's instances are the
      matching ones, less those without a free seat with `available=true`. */
  lemma ListedOnce(classes: seq<ClassDef>, instances: seq<ClassInstance>, bookings: seq<Booking>,
                   q: InstanceQuery, now: int)
    requires Linked(classes, instances)
    ensures InstancesOf(ListInstances(classes, instances, bookings, q, now))
      == Listed(classes, bookings, q.availableOnly, Matching(instances, q.window, now))
    ensures IsSubseq(InstancesOf(ListInstances(classes, instances, bookings, q, now)), Matching(instances, q.window, now))
    ensures !q.availableOnly ==> InstancesOf(ListInstances(classes, instances, bookings, q, now)) == Matching(instances, q.window, now)
  {
    RowsExact(classes, instances, bookings, q, now);
    ListedAll(classes, bookings, Matching(instances, q.window, now));
  }

  /** Every listed row is a selected instance with its computed fields. */
  lemma RowsSound(classes: seq<ClassDef>, instances: seq<ClassInstance>, bookings: seq<Booking>,
                  q: InstanceQuery, now: int, selectCapacity: bool)
    requires Linked(classes, instances)
    ensures var r := InstanceRows(classes, instances, bookings, q, now, selectCapacity);
      && (forall i :: 0 <= i < |r| ==> r[i].instance in instances && InWindow(q.window, now, r[i].instance))
      && (forall i :: 0 <= i < |r| ==> r[i] == RowOf(classes, bookings, r[i].instance, selectCapacity, q.availableOnly))
      && (q.availableOnly ==> forall i :: 0 <= i < |r| ==> r[i].available == Some(true))
  {
    var m := Matching(instances, q.window, now);
    var rows := RowsOf(classes, bookings, m, selectCapacity, q.availableOnly);
    var r := InstanceRows(classes, instances, bookings, q, now, selectCapacity);
    forall i | 0 <= i < |r|
      ensures r[i].instance in instances && InWindow(q.window, now, r[i].instance)
      ensures r[i] == RowOf(classes, bookings, r[i].instance, selectCapacity, q.availableOnly)
    {
      assert r[i] in rows;
      var j :| 0 <= j < |rows| && rows[j] == r[i];
      assert m[j] in m;
    }
  }

  lemma RowsSorted(classes: seq<ClassDef>, instances: seq<ClassInstance>, bookings: seq<Booking>,
                   q: InstanceQuery, now: int, selectCapacity: bool)
    requires Linked(classes, instances)
    ensures RowsByStart(InstanceRows(classes, instances, bookings, q, now, selectCapacity))
  {
    var m := Matching(instances, q.window, now);
    var rows := RowsOf(classes, bookings, m, selectCapacity, q.availableOnly);
    var le := (a: InstanceRow, b: InstanceRow) => a.instance.scheduledStartTime <= b.instance.scheduledStartTime;
    assert SortedBy(rows, le);
    if q.availableOnly {
      FilterSorted(rows, (row: InstanceRow) => row.available == Some(true), le);
    }
  }

  /** Every selected instance is listed, unless `available=true` and it has no room. */
  lemma RowsComplete(classes: seq<ClassDef>, instances: seq<ClassInstance>, bookings: seq<Booking>,
                     q: InstanceQuery, now: int, selectCapacity: bool)
    requires Linked(classes, instances)
    ensures forall k :: 0 <= k < |instances| && InWindow(q.window, now, instances[k]) ==>
      ((!q.availableOnly || HasRoom(if selectCapacity then Some(classes[instances[k].classId].maxCapacity) else None,
                                    SeatsTaken(bookings, instances[k].id)))
       ==> instances[k] in InstancesOf(InstanceRows(classes, instances, bookings, q, now, selectCapacity)))
  {
    var m := Matching(instances, q.window, now);
    var rows := RowsOf(classes, bookings, m, selectCapacity, q.availableOnly);
    var keep := (row: InstanceRow) => row.available == Some(true);
    var r := InstanceRows(classes, instances, bookings, q, now, selectCapacity);
    forall k | 0 <= k < |instances| && InWindow(q.window, now, instances[k])
        && (!q.availableOnly || HasRoom(if selectCapacity then Some(classes[instances[k].classId].maxCapacity) else None,
                                        SeatsTaken(bookings, instances[k].id)))
      ensures instances[k] in InstancesOf(r)
    {
      var j :| 0 <= j < |m| && m[j] == instances[k];
      assert rows[j].instance == instances[k];
      if q.availableOnly {
        assert keep(rows[j]);
        var n :| 0 <= n < |r| && r[n] == rows[j];
        assert InstancesOf(r)[n] == instances[k];
      } else {
        assert InstancesOf(r)[j] == instances[k];
      }
    }
  }

  /** Each selected instance is listed as often as the selection holds it: all
      of them, or with `available=true` exactly those with a free seat, in order. */
  lemma RowsExact(classes: seq<ClassDef>, instances: seq<ClassInstance>, bookings: seq<Booking>,
                  q: InstanceQuery, now: int)
    requires Linked(classes, instances)
    ensures InstancesOf(InstanceRows(classes, instances, bookings, q, now, true))
      == Listed(classes, bookings, q.availableOnly, Matching(instances, q.window, now))
  {
    var m := Matching(instances, q.window, now);
    var rows := RowsOf(classes, bookings, m, true, q.availableOnly);
    assert InstancesOf(rows) == m;
    if q.availableOnly {
      var keep := (row: InstanceRow) => row.available == Some(true);
      var roomy := (inst: ClassInstance) => !q.availableOnly || Roomy(classes, bookings, inst);
      forall i | 0 <= i < |rows|
        ensures rows[i].instance == m[i] && (keep(rows[i]) <==> roomy(m[i]))
      {
        assert m[i] in m;
      }
      FilterRowsInstances(rows, m, keep, roomy);
    } else {
      ListedAll(classes, bookings, m);
    }
  }

  lemma {:induction false} FilterRowsInstances(rows: seq<InstanceRow>, m: seq<ClassInstance>,
                                               keep: InstanceRow -> bool, roomy: ClassInstance -> bool)
    requires |rows| == |m|
    requires forall i :: 0 <= i < |rows| ==> rows[i].instance == m[i] && (keep(rows[i]) <==> roomy(m[i]))
    ensures InstancesOf(Filter(rows, keep)) == Filter(m, roomy)
    decreases |rows|
  {
    if rows != [] {
      forall i | 0 <= i < |rows[1..]|
        ensures rows[1..][i].instance == m[1..][i] && (keep(rows[1..][i]) <==> roomy(m[1..][i]))
      {
        assert rows[1..][i] == rows[i + 1] && m[1..][i] == m[i + 1];
      }
      FilterRowsInstances(rows[1..], m[1..], keep, roomy);
      if keep(rows[0]) {
        var f := Filter(rows, keep);
        assert f == [rows[0]] + Filter(rows[1..], keep);
        assert f[1..] == Filter(rows[1..], keep);
      }
    }
  }

  /** The `available=true` listing is the full listing with some instances left
      out, in the same order. */
  lemma AvailableIsSubsequence(classes: seq<ClassDef>, instances: seq<ClassInstance>, bookings: seq<Booking>,
                               q: InstanceQuery, now: int)
    requires Linked(classes, instances)
    ensures IsSubseq(InstancesOf(ListInstances(classes, instances, bookings, q.(availableOnly := true), now)),
                     InstancesOf(ListInstances(classes, instances, bookings, q.(availableOnly := false), now)))
  {
    var qa := q.(availableOnly := true);
    var qf := q.(availableOnly := false);
    var m := Matching(instances, q.window, now);
    var rowsA := RowsOf(classes, bookings, m, true, true);
    var rowsF := RowsOf(classes, bookings, m, true, false);
    FilteredRowsSubseq(rowsA, (row: InstanceRow) => row.available == Some(true));
    assert InstancesOf(rowsA) == m == InstancesOf(rowsF);
  }

  lemma {:induction false} FilteredRowsSubseq(rows: seq<InstanceRow>, p: InstanceRow -> bool)
    ensures IsSubseq(InstancesOf(Filter(rows, p)), InstancesOf(rows))
  {
    if rows != [] {
      FilteredRowsSubseq(rows[1..], p);
      assert InstancesOf(rows)[1..] == InstancesOf(rows[1..]);
      if p(rows[0]) {
        assert Filter(rows, p) == [rows[0]] + Filter(rows[1..], p);
        assert InstancesOf(Filter(rows, p))[1..] == InstancesOf(Filter(rows[1..], p));
      } else {
        SubseqOfTail(InstancesOf(Filter(rows[1..], p)), InstancesOf(rows));
      }
    }
  }

  /** As written: the class `select` (`app/api/class-instances/route.ts` lines 32-38) leaves out
      `maxCapacity`, so `bookedCount < undefined` is false and `available=true` lists nothing. */
  lemma AsWrittenAvailableListsNothing(classes: seq<ClassDef>, instances: seq<ClassInstance>, bookings: seq<Booking>,
                                       q: InstanceQuery, now: int)
    requires Linked(classes, instances) && q.availableOnly
    ensures InstanceRows(classes, instances, bookings, q, now, false) == []
  {
    var rows := RowsOf(classes, bookings, Matching(instances, q.window, now), false, true);
    FilterNone(rows, (row: InstanceRow) => row.available == Some(true));
  }

  /** As written, every `spotsRemaining` is `NaN`. */
  lemma AsWrittenSpotsUnknown(classes: seq<ClassDef>, instances: seq<ClassInstance>, bookings: seq<Booking>,
                              q: InstanceQuery, now: int)
    requires Linked(classes, instances)
    ensures forall row :: row in InstanceRows(classes, instances, bookings, q, now, false) ==> row.spotsRemaining.None?
  {
    RowsSound(classes, instances, bookings, q, now, false);
  }

  // ---------------------------------------------------------------------
  // POST /api/class-instances/generate

  datatype GenerateReply = GenerateReply(message: string, count: nat)

  /** `app/api/class-instances/route.ts` lines 82-107: `classId` is required; `weeks` defaults
      to 4; a failure of the generator is answered with its message and status 500. */
  method GenerateRoute(db: Db, classId: Option<nat>, weeks: Option<int>, now: int) returns (r: Result<GenerateReply>)
    requires db.Valid()
    modifies db
    ensures db.Valid()
    ensures classId.None? ==> r == Err(ApiError(400, "classId is required")) && db.instances == old(db.instances)
    ensures classId.Some? && classId.value >= |old(db.classes)| ==>
      r == Err(ApiError(500, "Class not found")) && db.instances == old(db.instances)
    ensures classId.Some? && classId.value < |old(db.classes)| ==>
      var planned := Planned(old(db.instances), old(db.classes)[classId.value],
                             Horizon(now, weeks).0, Horizon(now, weeks).1, DayWindow);
      && ClocksOk(old(db.classes)[classId.value])
      && r == Ok(GenerateReply("Generated " + NatToString(|planned|) + " class instances", |planned|))
      && db.instances == old(db.instances) + Materialize(|old(db.instances)|, planned)
    ensures db.users == old(db.users) && db.customers == old(db.customers) && db.classes == old(db.classes)
    ensures db.bookings == old(db.bookings) && db.transactions == old(db.transactions)
    ensures db.attendances == old(db.attendances) && db.checkpoints == old(db.checkpoints)
    ensures db.notifications == old(db.notifications)
  {
    if classId.None? {
      return Err(ApiError(400, "classId is required"));
    }
    var generated := GenerateWeeklyInstances(db, classId.value, weeks, now);
    match generated {
      case Err(e) => r := Err(e);
      case Ok(count) => r := Ok(GenerateReply("Generated " + NatToString(count) + " class instances", count));
    }
  }
}
