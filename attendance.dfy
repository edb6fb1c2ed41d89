/** `/api/attendance`: marking a booking attended. One step records the
    attendance, sets the booking to ATTENDED, adds one to the customer's
    lifetime count and awards the milestone reached exactly at the new count. */
module AttendanceRoute {
  import opened Common
  import opened Schema
  import opened Store

  datatype AttendanceError = BookingNotFound | AlreadyMarked | NotStarted

  function ErrorOf(e: AttendanceError): (err: ApiError)
    ensures err.status == (if e == BookingNotFound then 404 else 400)
  {
    match e
    case BookingNotFound => ApiError(404, "Booking not found")
    case AlreadyMarked => ApiError(400, "Attendance already marked")
    case NotStarted => ApiError(400, "Cannot mark attendance before class starts")
  }

  /** `checkInMethod` defaults to MANUAL. */
  function CheckInOrDefault(m: Option<CheckInMethod>): (r: CheckInMethod)
    ensures m.None? ==> r == Manual
    ensures m.Some? ==> r == m.value
  {
    match m
    case None => Manual
    case Some(x) => x
  }

  ghost predicate BookingsLinked(bookings: seq<Booking>, instances: seq<ClassInstance>) {
    forall i :: 0 <= i < |bookings| ==> bookings[i].classInstanceId < |instances|
  }

  /** `app/api/attendance/route.ts` lines 28-62: the booking must exist, must not be marked yet,
      and its class must have started (at or before `now`). Nothing else is checked. */
  function AttendanceCheck(bookings: seq<Booking>, instances: seq<ClassInstance>, attendances: seq<Attendance>,
                           bookingId: nat, now: int): (r: Option<AttendanceError>)
    requires BookingsLinked(bookings, instances)
    ensures r == Some(BookingNotFound) <==> bookingId >= |bookings|
    ensures r == Some(AlreadyMarked) <==> bookingId < |bookings| && HasAttendance(attendances, bookingId)
    ensures r == Some(NotStarted) <==>
      bookingId < |bookings| && !HasAttendance(attendances, bookingId)
      && instances[bookings[bookingId].classInstanceId].scheduledStartTime > now
    ensures r.None? <==>
      bookingId < |bookings| && !HasAttendance(attendances, bookingId)
      && instances[bookings[bookingId].classInstanceId].scheduledStartTime <= now
  {
    if bookingId >= |bookings| then Some(BookingNotFound)
    else if HasAttendance(attendances, bookingId) then Some(AlreadyMarked)
    else if instances[bookings[bookingId].classInstanceId].scheduledStartTime > now then Some(NotStarted)
    else None
  }

  /** The booking's status is not consulted: a CANCELLED booking can be marked
      attended like a CONFIRMED one. */
  lemma StatusNotChecked(bookings: seq<Booking>, instances: seq<ClassInstance>, attendances: seq<Attendance>,
                         bookingId: nat, now: int, s: BookingStatus)
    requires BookingsLinked(bookings, instances) && bookingId < |bookings|
    ensures BookingsLinked(bookings[bookingId := bookings[bookingId].(bookingStatus := s)], instances)
    ensures AttendanceCheck(bookings[bookingId := bookings[bookingId].(bookingStatus := s)], instances, attendances, bookingId, now)
         == AttendanceCheck(bookings, instances, attendances, bookingId, now)
  {
  }

  // ---------------------------------------------------------------------
  // Milestone checkpoints

  function Threshold(t: CheckpointType): (n: nat)
    ensures n >= 1
  {
    match t
    case FirstClass => 1
    case ThirdClass => 3
    case TenthClass => 10
  }

  /** The milestones in the order the loop visits them. */
  const Milestones: seq<CheckpointType> := [FirstClass, ThirdClass, TenthClass]

  predicate HasCheckpoint(checkpoints: seq<Checkpoint>, customerId: nat, t: CheckpointType) {
    exists i :: 0 <= i < |checkpoints| && checkpoints[i].customerId == customerId
      && checkpoints[i].checkpointType == t
  }

  /** Those of `types` whose threshold equals `total` and that the customer does not hold yet. */
  function Due(checkpoints: seq<Checkpoint>, customerId: nat, total: int, types: seq<CheckpointType>): seq<CheckpointType> {
    Filter(types, (t: CheckpointType) => Threshold(t) == total && !HasCheckpoint(checkpoints, customerId, t))
  }

  /** The milestone rows created, numbered from `start`. */
  function CheckpointRows(start: nat, customerId: nat, total: int, now: int, types: seq<CheckpointType>): (rows: seq<Checkpoint>)
    ensures |rows| == |types|
    ensures forall i :: 0 <= i < |rows| ==>
      rows[i] == Checkpoint(start + i, customerId, types[i], total, now)
  {
    seq(|types|, i requires 0 <= i < |types| => Checkpoint(start + i, customerId, types[i], total, now))
  }

  /** `app/api/attendance/route.ts` lines 126-150: milestone `t` is awarded exactly when the new
      total equals its threshold and the customer does not hold it yet. */
  lemma DueIff(checkpoints: seq<Checkpoint>, customerId: nat, total: int, t: CheckpointType)
    ensures t in Due(checkpoints, customerId, total, Milestones)
        <==> Threshold(t) == total && !HasCheckpoint(checkpoints, customerId, t)
  {
    assert t == Milestones[0] || t == Milestones[1] || t == Milestones[2];
  }

  /** The thresholds are distinct, so one call awards at most one milestone. */
  lemma AtMostOneDue(checkpoints: seq<Checkpoint>, customerId: nat, total: int)
    ensures |Due(checkpoints, customerId, total, Milestones)| <= 1
    ensures (total != 1 && total != 3 && total != 10) ==> Due(checkpoints, customerId, total, Milestones) == []
  {
    var p := (t: CheckpointType) => Threshold(t) == total && !HasCheckpoint(checkpoints, customerId, t);
    assert Milestones == [FirstClass] + [ThirdClass] + [TenthClass];
    assert Milestones[1..] == [ThirdClass, TenthClass];
    assert Milestones[1..][1..] == [TenthClass];
    assert Milestones[1..][1..][1..] == [];
  }

  /** No milestone is awarded twice, whatever the count reached. */
  lemma HeldMilestoneNotDueAgain(checkpoints: seq<Checkpoint>, customerId: nat, total: int, t: CheckpointType)
    requires HasCheckpoint(checkpoints, customerId, t)
    ensures t !in Due(checkpoints, customerId, total, Milestones)
  {
    DueIff(checkpoints, customerId, total, t);
  }

  /** `checkAndCreateCheckpoints`: the loop over the milestones, inserting the due ones. */
  method CheckAndCreateCheckpoints(db: Db, customerId: nat, total: int, now: int)
    requires db.Valid() && customerId < |db.customers|
    modifies db
    ensures db.Valid()
    ensures db.checkpoints == old(db.checkpoints)
      + CheckpointRows(|old(db.checkpoints)|, customerId, total, now, Due(old(db.checkpoints), customerId, total, Milestones))
    ensures db.users == old(db.users) && db.customers == old(db.customers) && db.classes == old(db.classes)
    ensures db.instances == old(db.instances) && db.bookings == old(db.bookings)
    ensures db.transactions == old(db.transactions) && db.attendances == old(db.attendances)
    ensures db.notifications == old(db.notifications)
  {
    ghost var before := db.checkpoints;
    ghost var p := (t: CheckpointType) => Threshold(t) == total && !HasCheckpoint(before, customerId, t);
    for k := 0 to |Milestones|
      invariant db.Valid()
      invariant db.checkpoints == before + CheckpointRows(|before|, customerId, total, now, Filter(Milestones[..k], p))
      invariant db.users == old(db.users) && db.customers == old(db.customers) && db.classes == old(db.classes)
      invariant db.instances == old(db.instances) && db.bookings == old(db.bookings)
      invariant db.transactions == old(db.transactions) && db.attendances == old(db.attendances)
      invariant db.notifications == old(db.notifications)
    {
      var m := Milestones[k];
      assert Milestones[..k + 1] == Milestones[..k] + [m];
      FilterAppend(Milestones[..k], m, p);
      if total == Threshold(m) {
        NewRowsHaveOtherTypes(before, customerId, total, now, Milestones[..k], p, m);
        var existing := HasCheckpoint(db.checkpoints, customerId, m);
        if !existing {
          var row := Checkpoint(|db.checkpoints|, customerId, m, total, now);
          CheckpointsStayUnique(db.checkpoints, |db.customers|, row);
          RowsStep(before, customerId, total, now, Filter(Milestones[..k], p), m);
          db.checkpoints := db.checkpoints + [row];
        }
      }
    }
    assert Milestones[..|Milestones|] == Milestones;
  }

  /** Awarding one more milestone appends its row, numbered after the others. */
  lemma RowsStep(before: seq<Checkpoint>, customerId: nat, total: int, now: int,
                 types: seq<CheckpointType>, m: CheckpointType)
    ensures before + CheckpointRows(|before|, customerId, total, now, types + [m])
         == (before + CheckpointRows(|before|, customerId, total, now, types))
            + [Checkpoint(|before| + |types|, customerId, m, total, now)]
  {
    var rows := CheckpointRows(|before|, customerId, total, now, types);
    var row := Checkpoint(|before| + |types|, customerId, m, total, now);
    RowsAppend(|before|, customerId, total, now, types, m);
    assert before + (rows + [row]) == (before + rows) + [row];
  }

  lemma RowsAppend(start: nat, customerId: nat, total: int, now: int, types: seq<CheckpointType>, m: CheckpointType)
    ensures CheckpointRows(start, customerId, total, now, types + [m])
         == CheckpointRows(start, customerId, total, now, types) + [Checkpoint(start + |types|, customerId, m, total, now)]
  {
    var rows := CheckpointRows(start, customerId, total, now, types);
    var rows' := CheckpointRows(start, customerId, total, now, types + [m]);
    var rhs := rows + [Checkpoint(start + |types|, customerId, m, total, now)];
    assert |rows'| == |rhs|;
    forall i | 0 <= i < |rhs|
      ensures rows'[i] == rhs[i]
    {
      if i < |types| {
        assert (types + [m])[i] == types[i];
      }
    }
  }

  /** During the loop, a milestone not yet visited is held now iff it was held before. */
  lemma NewRowsHaveOtherTypes(before: seq<Checkpoint>, customerId: nat, total: int, now: int,
                              visited: seq<CheckpointType>, p: CheckpointType -> bool, m: CheckpointType)
    requires |visited| < |Milestones| && visited == Milestones[..|visited|] && m == Milestones[|visited|]
    ensures HasCheckpoint(before + CheckpointRows(|before|, customerId, total, now, Filter(visited, p)), customerId, m)
        <==> HasCheckpoint(before, customerId, m)
  {
    var rows := CheckpointRows(|before|, customerId, total, now, Filter(visited, p));
    var all := before + rows;
    if HasCheckpoint(all, customerId, m) {
      var i :| 0 <= i < |all| && all[i].customerId == customerId && all[i].checkpointType == m;
      if i >= |before| {
        assert false;
      }
    }
    if HasCheckpoint(before, customerId, m) {
      var i :| 0 <= i < |before| && before[i].customerId == customerId && before[i].checkpointType == m;
      assert all[i] == before[i];
    }
  }

  lemma CheckpointsStayUnique(checkpoints: seq<Checkpoint>, nCustomers: nat, row: Checkpoint)
    requires CheckpointsOk(checkpoints, nCustomers)
    requires row.id == |checkpoints| && row.customerId < nCustomers
    requires !HasCheckpoint(checkpoints, row.customerId, row.checkpointType)
    ensures CheckpointsOk(checkpoints + [row], nCustomers)
  {
  }

  // ---------------------------------------------------------------------
  // POST /api/attendance

  method MarkAttendance(db: Db, bookingId: nat, checkInMethod: Option<CheckInMethod>, notes: Option<string>, now: int)
    returns (r: Result<Attendance>)
    requires db.Valid()
    modifies db
    ensures db.Valid()
    ensures BookingsLinked(old(db.bookings), old(db.instances))
    ensures var check := AttendanceCheck(old(db.bookings), old(db.instances), old(db.attendances), bookingId, now);
      check.Some? ==>
        && r == Err(ErrorOf(check.value))
        && db.attendances == old(db.attendances) && db.bookings == old(db.bookings)
        && db.customers == old(db.customers) && db.checkpoints == old(db.checkpoints)
    ensures var check := AttendanceCheck(old(db.bookings), old(db.instances), old(db.attendances), bookingId, now);
      check.None? ==>
        var b := old(db.bookings)[bookingId];
        var customer := old(db.customers)[b.customerId];
        var total := customer.totalClassesAttended + 1;
        && r == Ok(Attendance(|old(db.attendances)|, bookingId, b.customerId, b.classInstanceId,
                              CheckInOrDefault(checkInMethod), notes, now))
        && db.attendances == old(db.attendances) + [r.value]
        && db.bookings == old(db.bookings)[bookingId := b.(bookingStatus := Attended)]
        && db.customers == old(db.customers)[b.customerId := customer.(totalClassesAttended := total)]
        && db.checkpoints == old(db.checkpoints)
             + CheckpointRows(|old(db.checkpoints)|, b.customerId, total, now,
                              Due(old(db.checkpoints), b.customerId, total, Milestones))
        && BookingsLinked(db.bookings, db.instances)
        && forall later :: AttendanceCheck(db.bookings, db.instances, db.attendances, bookingId, later) == Some(AlreadyMarked)
    ensures db.users == old(db.users) && db.classes == old(db.classes) && db.instances == old(db.instances)
    ensures db.transactions == old(db.transactions) && db.notifications == old(db.notifications)
  {
    if bookingId >= |db.bookings| {
      return Err(ErrorOf(BookingNotFound));
    }
    var b := db.bookings[bookingId];
    var existing := HasAttendance(db.attendances, bookingId);
    if existing {
      return Err(ErrorOf(AlreadyMarked));
    }
    if db.instances[b.classInstanceId].scheduledStartTime > now {
      return Err(ErrorOf(NotStarted));
    }

    var attendance := RecordAttendance(db, bookingId, checkInMethod, notes, now);
    assert HasAttendance(db.attendances, bookingId) by {
      assert db.attendances[|db.attendances| - 1].bookingId == bookingId;
    }
    r := Ok(attendance);
  }

  /** `app/api/attendance/route.ts` lines 65-101, the transaction: the attendance row, the
      booking set to ATTENDED, the count up by one and the milestones due at the new count. */
  method RecordAttendance(db: Db, bookingId: nat, checkInMethod: Option<CheckInMethod>, notes: Option<string>, now: int)
    returns (attendance: Attendance)
    requires db.Valid() && bookingId < |db.bookings| && !HasAttendance(db.attendances, bookingId)
    modifies db
    ensures db.Valid()
    ensures var b := old(db.bookings)[bookingId];
      var customer := old(db.customers)[b.customerId];
      var total := customer.totalClassesAttended + 1;
      && attendance == Attendance(|old(db.attendances)|, bookingId, b.customerId, b.classInstanceId,
                                  CheckInOrDefault(checkInMethod), notes, now)
      && db.attendances == old(db.attendances) + [attendance]
      && db.bookings == old(db.bookings)[bookingId := b.(bookingStatus := Attended)]
      && db.customers == old(db.customers)[b.customerId := customer.(totalClassesAttended := total)]
      && db.checkpoints == old(db.checkpoints)
           + CheckpointRows(|old(db.checkpoints)|, b.customerId, total, now,
                            Due(old(db.checkpoints), b.customerId, total, Milestones))
    ensures db.users == old(db.users) && db.classes == old(db.classes) && db.instances == old(db.instances)
    ensures db.transactions == old(db.transactions) && db.notifications == old(db.notifications)
  {
    var b := db.bookings[bookingId];
    attendance := Attendance(|db.attendances|, bookingId, b.customerId, b.classInstanceId,
                             CheckInOrDefault(checkInMethod), notes, now);
    var customer := db.customers[b.customerId];
    var updated := customer.(totalClassesAttended := customer.totalClassesAttended + 1);
    var attendances := db.attendances + [attendance];
    var bookings := db.bookings[bookingId := b.(bookingStatus := Attended)];
    var customers := db.customers[b.customerId := updated];
    RecordedTablesOk(db.customers, |db.users|, db.bookings, |db.instances|, db.attendances,
                     db.transactions, db.checkpoints, attendance, updated);
    db.attendances, db.bookings, db.customers := attendances, bookings, customers;
    CheckAndCreateCheckpoints(db, b.customerId, updated.totalClassesAttended, now);
  }

  /** The three tables the transaction rewrites keep their invariants: the
      new attendance row is the booking's first, and the customer's balance
      is untouched. */
  lemma RecordedTablesOk(customers: seq<Customer>, nUsers: nat, bookings: seq<Booking>, nInstances: nat,
                         attendances: seq<Attendance>, txs: seq<CreditTransaction>, checkpoints: seq<Checkpoint>,
                         a: Attendance, updated: Customer)
    requires CustomersOk(customers, nUsers) && BookingsOk(bookings, |customers|, nInstances)
    requires AttendancesOk(attendances, |bookings|) && TransactionsOk(txs, customers)
    requires CheckpointsOk(checkpoints, |customers|)
    requires a.id == |attendances| && a.bookingId < |bookings| && !HasAttendance(attendances, a.bookingId)
    requires a.customerId == bookings[a.bookingId].customerId
    requires updated == customers[a.customerId].(totalClassesAttended := updated.totalClassesAttended)
    ensures var b := bookings[a.bookingId];
      var customers' := customers[a.customerId := updated];
      && CustomersOk(customers', nUsers)
      && BookingsOk(bookings[a.bookingId := b.(bookingStatus := Attended)], |customers'|, nInstances)
      && AttendancesOk(attendances + [a], |bookings|)
      && TransactionsOk(txs, customers')
      && CheckpointsOk(checkpoints, |customers'|)
  {
    SameBalances(txs, customers, a.customerId, updated);
  }

  /** Changing a customer's counters, not the balance, keeps the ledger invariant. */
  lemma SameBalances(txs: seq<CreditTransaction>, customers: seq<Customer>, c: nat, updated: Customer)
    requires TransactionsOk(txs, customers) && c < |customers|
    requires updated.creditsRemaining == customers[c].creditsRemaining
    ensures TransactionsOk(txs, customers[c := updated])
  {
    var customers' := customers[c := updated];
    forall d | 0 <= d < |customers'|
      ensures Chained(LedgerOf(txs, d), customers'[d].creditsRemaining)
    {
      assert customers'[d].creditsRemaining == customers[d].creditsRemaining;
    }
  }
}
