/** `/api/bookings`: listing a customer's bookings, and booking a class
    instance, which charges the class's price in credits and records the
    charge in the credit ledger. */
module Bookings {
  import opened Common
  import opened Schema
  import opened Store

  // ---------------------------------------------------------------------
  // GET: the customer's bookings, newest first

  /** The `status` query parameter: "upcoming", "past", or anything else (all). */
  predicate MatchesStatusFilter(instances: seq<ClassInstance>, b: Booking, status: Option<string>, now: int) {
    if status == Some("upcoming") then
      b.classInstanceId < |instances| && instances[b.classInstanceId].scheduledStartTime >= now && HoldsSeat(b)
    else if status == Some("past") then
      b.classInstanceId < |instances| && instances[b.classInstanceId].scheduledStartTime < now
    else true
  }

  function ListBookings(customers: seq<Customer>, instances: seq<ClassInstance>, bookings: seq<Booking>,
                        userId: nat, status: Option<string>, now: int): (r: Result<seq<Booking>>)
    ensures r.Err? <==> FindCustomer(customers, userId).None?
    ensures r.Err? ==> r.error == ApiError(404, "Customer not found")
    ensures r.Ok? ==>
      var c := FindCustomer(customers, userId).value;
      && multiset(r.value) == multiset(Filter(bookings, (b: Booking) =>
            b.customerId == c && MatchesStatusFilter(instances, b, status, now)))
      && SortedBy(r.value, NewestFirst())
  {
    match FindCustomer(customers, userId)
    case None => Err(ApiError(404, "Customer not found"))
    case Some(c) =>
      var mine := Filter(bookings, (b: Booking) => b.customerId == c && MatchesStatusFilter(instances, b, status, now));
      Ok(SortBy(mine, NewestFirst()))
  }

  /** Every booking listed as upcoming starts now or later and still holds its seat;
      every booking listed as past started before now. */
  lemma ListedBookingsMatchFilter(customers: seq<Customer>, instances: seq<ClassInstance>, bookings: seq<Booking>,
                                  userId: nat, status: Option<string>, now: int, i: nat)
    requires ListBookings(customers, instances, bookings, userId, status, now).Ok?
    requires i < |ListBookings(customers, instances, bookings, userId, status, now).value|
    ensures var b := ListBookings(customers, instances, bookings, userId, status, now).value[i];
      && b in bookings
      && b.customerId == FindCustomer(customers, userId).value
      && (status == Some("upcoming") ==>
            b.classInstanceId < |instances| && instances[b.classInstanceId].scheduledStartTime >= now
            && (b.bookingStatus == Confirmed || b.bookingStatus == Attended))
      && (status == Some("past") ==>
            b.classInstanceId < |instances| && instances[b.classInstanceId].scheduledStartTime < now)
  {
    var c := FindCustomer(customers, userId).value;
    var p := (b: Booking) => b.customerId == c && MatchesStatusFilter(instances, b, status, now);
    var r := ListBookings(customers, instances, bookings, userId, status, now).value;
    assert r[i] in multiset(Filter(bookings, p));
    assert r[i] in Filter(bookings, p);
    var k :| 0 <= k < |Filter(bookings, p)| && Filter(bookings, p)[k] == r[i];
  }

  // ---------------------------------------------------------------------
  // POST: the guard chain

  datatype BookingError =
    | CustomerNotFound | MembershipInactive | InstanceNotFound | PastClass
    | FullyBooked | AlreadyBooked | InsufficientCredits

  /** The position of a guard in the chain. */
  function Rank(e: BookingError): nat {
    match e
    case CustomerNotFound => 0
    case MembershipInactive => 1
    case InstanceNotFound => 2
    case PastClass => 3
    case FullyBooked => 4
    case AlreadyBooked => 5
    case InsufficientCredits => 6
  }

  function ErrorOf(e: BookingError): (err: ApiError)
    ensures err.status == (if e == CustomerNotFound || e == InstanceNotFound then 404 else 400)
  {
    match e
    case CustomerNotFound => ApiError(404, "Customer not found")
    case MembershipInactive => ApiError(400, "Membership is not active")
    case InstanceNotFound => ApiError(404, "Class instance not found")
    case PastClass => ApiError(400, "Cannot book past classes")
    case FullyBooked => ApiError(400, "Class is fully booked")
    case AlreadyBooked => ApiError(400, "Already booked for this class")
    case InsufficientCredits => ApiError(400, "Insufficient credits")
  }

  /** The customer already holds a CONFIRMED or ATTENDED booking for the instance. */
  predicate HasActiveBooking(bookings: seq<Booking>, customerId: nat, instanceId: nat) {
    exists i :: 0 <= i < |bookings| && bookings[i].customerId == customerId
      && bookings[i].classInstanceId == instanceId && HoldsSeat(bookings[i])
  }

  /** The tables a booking request reads. */
  datatype View = View(customers: seq<Customer>, classes: seq<ClassDef>,
                       instances: seq<ClassInstance>, bookings: seq<Booking>)

  ghost predicate Linked(v: View) {
    forall i :: 0 <= i < |v.instances| ==> v.instances[i].classId < |v.classes|
  }

  /** Guard `e` lets the request through. Each guard may rely on the ones before it. */
  ghost predicate Passes(v: View, userId: nat, instanceId: nat, now: int, e: BookingError)
    requires Linked(v)
  {
    var c := FindCustomer(v.customers, userId);
    match e
    case CustomerNotFound => c.Some?
    case MembershipInactive => c.Some? ==> v.customers[c.value].membershipStatus == Active
    case InstanceNotFound => instanceId < |v.instances|
    case PastClass => instanceId < |v.instances| ==> v.instances[instanceId].scheduledStartTime >= now
    case FullyBooked => instanceId < |v.instances| ==>
      SeatsTaken(v.bookings, instanceId) < v.classes[v.instances[instanceId].classId].maxCapacity
    case AlreadyBooked => c.Some? ==> !HasActiveBooking(v.bookings, c.value, instanceId)
    case InsufficientCredits => c.Some? && instanceId < |v.instances| ==>
      v.customers[c.value].creditsRemaining >= v.classes[v.instances[instanceId].classId].priceCredits
  }

  /** `app/api/bookings/route.ts` lines 97-179: the first guard that fails decides the error. */
  function BookingCheck(v: View, userId: nat, instanceId: nat, now: int): (r: Option<BookingError>)
    requires Linked(v)
    ensures r.Some? ==> !Passes(v, userId, instanceId, now, r.value)
    ensures r.None? <==> forall e :: Passes(v, userId, instanceId, now, e)
    ensures r.Some? ==> forall e :: Rank(e) < Rank(r.value) ==> Passes(v, userId, instanceId, now, e)
  {
    match FindCustomer(v.customers, userId)
    case None => Some(CustomerNotFound)
    case Some(c) =>
      var customer := v.customers[c];
      if customer.membershipStatus != Active then Some(MembershipInactive)
      else if instanceId >= |v.instances| then Some(InstanceNotFound)
      else
        var inst := v.instances[instanceId];
        var cls := v.classes[inst.classId];
        if inst.scheduledStartTime < now then Some(PastClass)
        else if SeatsTaken(v.bookings, instanceId) >= cls.maxCapacity then Some(FullyBooked)
        else if HasActiveBooking(v.bookings, c, instanceId) then Some(AlreadyBooked)
        else if customer.creditsRemaining < cls.priceCredits then Some(InsufficientCredits)
        else None
  }

  /** An inactive membership is rejected whatever instance is asked for, even one
      that does not exist. */
  lemma InactiveRejectedBeforeInstanceLookup(v: View, userId: nat, i1: nat, i2: nat, now: int)
    requires Linked(v)
    requires FindCustomer(v.customers, userId).Some?
    requires v.customers[FindCustomer(v.customers, userId).value].membershipStatus != Active
    ensures BookingCheck(v, userId, i1, now) == BookingCheck(v, userId, i2, now) == Some(MembershipInactive)
  {
  }

  /** A class that starts exactly now is not a past class. */
  lemma StartingNowIsNotPast(v: View, userId: nat, instanceId: nat)
    requires Linked(v) && instanceId < |v.instances|
    ensures BookingCheck(v, userId, instanceId, v.instances[instanceId].scheduledStartTime) != Some(PastClass)
  {
  }

  /** A CANCELLED booking neither takes a seat nor blocks booking again. */
  lemma CancelledBookingDoesNotBlock(bookings: seq<Booking>, b: Booking)
    requires b.bookingStatus == BookingStatus.Cancelled
    ensures SeatsTaken(bookings + [b], b.classInstanceId) == SeatsTaken(bookings, b.classInstanceId)
    ensures HasActiveBooking(bookings + [b], b.customerId, b.classInstanceId)
        == HasActiveBooking(bookings, b.customerId, b.classInstanceId)
  {
    FilterAppend(bookings, b, (x: Booking) => x.classInstanceId == b.classInstanceId && HoldsSeat(x));
    if HasActiveBooking(bookings + [b], b.customerId, b.classInstanceId) {
      var i :| 0 <= i < |bookings + [b]| && (bookings + [b])[i].customerId == b.customerId
        && (bookings + [b])[i].classInstanceId == b.classInstanceId && HoldsSeat((bookings + [b])[i]);
      assert i < |bookings|;
      assert bookings[i] == (bookings + [b])[i];
    }
    if HasActiveBooking(bookings, b.customerId, b.classInstanceId) {
      var i :| 0 <= i < |bookings| && bookings[i].customerId == b.customerId
        && bookings[i].classInstanceId == b.classInstanceId && HoldsSeat(bookings[i]);
      assert (bookings + [b])[i] == bookings[i];
    }
  }

  /** Adding a seat-holding booking on an instance takes exactly one more seat. */
  lemma {:induction false} SeatsAfterBooking(bookings: seq<Booking>, b: Booking)
    requires HoldsSeat(b)
    ensures SeatsTaken(bookings + [b], b.classInstanceId) == SeatsTaken(bookings, b.classInstanceId) + 1
  {
    FilterAppend(bookings, b, (x: Booking) => x.classInstanceId == b.classInstanceId && HoldsSeat(x));
  }

  /** Adding a booking on another instance leaves an instance's seat count alone. */
  lemma {:induction false} SeatsElsewhere(bookings: seq<Booking>, b: Booking, instanceId: nat)
    requires b.classInstanceId != instanceId
    ensures SeatsTaken(bookings + [b], instanceId) == SeatsTaken(bookings, instanceId)
  {
    FilterAppend(bookings, b, (x: Booking) => x.classInstanceId == instanceId && HoldsSeat(x));
  }

  // ---------------------------------------------------------------------
  // POST: the handler

  /** The ledger entry of a booking charge. */
  function ChargeEntry(id: nat, customerId: nat, balance: int, price: int, className: string, now: int): (t: CreditTransaction)
    ensures t.amount == -price && t.balanceBefore == balance && t.balanceAfter == t.balanceBefore + t.amount
    ensures t.transactionType == "CLASS_BOOKING" && t.customerId == customerId && t.id == id
  {
    CreditTransaction(id, customerId, "CLASS_BOOKING", -price, balance, balance - price,
                      "Booking for " + className, now)
  }

  /** POST /api/bookings. On any failed guard nothing changes; otherwise, in one
      step, a CONFIRMED booking is added, the balance drops by the price and one
      CLASS_BOOKING entry records the charge. */
  method CreateBooking(db: Db, userId: nat, instanceId: nat, now: int) returns (r: Result<Booking>)
    requires db.Valid()
    modifies db
    ensures db.Valid()
    ensures Linked(View(old(db.customers), old(db.classes), old(db.instances), old(db.bookings)))
    ensures var check := BookingCheck(View(old(db.customers), old(db.classes), old(db.instances), old(db.bookings)),
                                      userId, instanceId, now);
      check.Some? ==>
        && r == Err(ErrorOf(check.value))
        && db.customers == old(db.customers) && db.bookings == old(db.bookings)
        && db.transactions == old(db.transactions)
    ensures var check := BookingCheck(View(old(db.customers), old(db.classes), old(db.instances), old(db.bookings)),
                                      userId, instanceId, now);
      check.None? ==>
        var c := FindCustomer(old(db.customers), userId).value;
        var cls := old(db.classes)[old(db.instances)[instanceId].classId];
        && r == Ok(Booking(|old(db.bookings)|, c, instanceId, Confirmed, cls.priceCredits, now))
        && Charged(old(db.customers), old(db.bookings), old(db.transactions),
                   db.customers, db.bookings, db.transactions, r.value, cls)
        && SeatsTaken(db.bookings, instanceId) <= cls.maxCapacity
    ensures db.users == old(db.users) && db.classes == old(db.classes) && db.instances == old(db.instances)
    ensures db.attendances == old(db.attendances) && db.checkpoints == old(db.checkpoints)
    ensures db.notifications == old(db.notifications)
  {
    ghost var v := View(db.customers, db.classes, db.instances, db.bookings);
    var found := FindCustomer(db.customers, userId);
    if found.None? {
      return Err(ErrorOf(CustomerNotFound));
    }
    var c := found.value;
    var customer := db.customers[c];
    if customer.membershipStatus != Active {
      return Err(ErrorOf(MembershipInactive));
    }
    if instanceId >= |db.instances| {
      return Err(ErrorOf(InstanceNotFound));
    }
    var inst := db.instances[instanceId];
    var cls := db.classes[inst.classId];
    if inst.scheduledStartTime < now {
      return Err(ErrorOf(PastClass));
    }
    if SeatsTaken(db.bookings, instanceId) >= cls.maxCapacity {
      return Err(ErrorOf(FullyBooked));
    }
    if HasActiveBooking(db.bookings, c, instanceId) {
      return Err(ErrorOf(AlreadyBooked));
    }
    if customer.creditsRemaining < cls.priceCredits {
      return Err(ErrorOf(InsufficientCredits));
    }
    assert BookingCheck(v, userId, instanceId, now).None?;
    var booking := Commit(db, c, instanceId, cls, now);
    SeatsAfterBooking(v.bookings, booking);
    r := Ok(booking);
  }

  /** The new state after a charge: the booking appended, the customer's balance
      lowered by the price, one CLASS_BOOKING entry appended; the balance stays
      non-negative when it covered the price. */
  ghost predicate Charged(customers: seq<Customer>, bookings: seq<Booking>, txs: seq<CreditTransaction>,
                          customers': seq<Customer>, bookings': seq<Booking>, txs': seq<CreditTransaction>,
                          b: Booking, cls: ClassDef)
  {
    && b.customerId < |customers|
    && var customer := customers[b.customerId];
    && bookings' == bookings + [b]
    && customers' == customers[b.customerId := customer.(creditsRemaining := customer.creditsRemaining - cls.priceCredits)]
    && txs' == txs + [ChargeEntry(|txs|, b.customerId, customer.creditsRemaining, cls.priceCredits, cls.name, b.bookedAt)]
    && (customer.creditsRemaining >= cls.priceCredits ==> customers'[b.customerId].creditsRemaining >= 0)
  }

  /** The `$transaction` of `app/api/bookings/route.ts` lines 182-228. */
  method Commit(db: Db, c: nat, instanceId: nat, cls: ClassDef, now: int) returns (booking: Booking)
    requires db.Valid() && c < |db.customers| && instanceId < |db.instances|
    modifies db
    ensures db.Valid()
    ensures booking == Booking(|old(db.bookings)|, c, instanceId, Confirmed, cls.priceCredits, now)
    ensures Charged(old(db.customers), old(db.bookings), old(db.transactions),
                    db.customers, db.bookings, db.transactions, booking, cls)
    ensures db.users == old(db.users) && db.classes == old(db.classes) && db.instances == old(db.instances)
    ensures db.attendances == old(db.attendances) && db.checkpoints == old(db.checkpoints)
    ensures db.notifications == old(db.notifications)
  {
    var customer := db.customers[c];
    booking := Booking(|db.bookings|, c, instanceId, Confirmed, cls.priceCredits, now);
    var entry := ChargeEntry(|db.transactions|, c, customer.creditsRemaining, cls.priceCredits, cls.name, now);
    var bookings := db.bookings + [booking];
    var customers := db.customers[c := customer.(creditsRemaining := entry.balanceAfter)];
    var txs := db.transactions + [entry];
    CommittedTablesOk(db.customers, |db.users|, db.bookings, |db.instances|, db.attendances,
                      db.transactions, db.checkpoints, booking, entry);
    db.bookings, db.customers, db.transactions := bookings, customers, txs;
  }

  /** The three tables the transaction rewrites keep their invariants: the
      booking's keys are in range and the charge opens at the balance. */
  lemma CommittedTablesOk(customers: seq<Customer>, nUsers: nat, bookings: seq<Booking>, nInstances: nat,
                          attendances: seq<Attendance>, txs: seq<CreditTransaction>, checkpoints: seq<Checkpoint>,
                          b: Booking, t: CreditTransaction)
    requires CustomersOk(customers, nUsers) && BookingsOk(bookings, |customers|, nInstances)
    requires AttendancesOk(attendances, |bookings|) && TransactionsOk(txs, customers)
    requires b.id == |bookings| && b.customerId < |customers| && b.classInstanceId < nInstances
    requires t.id == |txs| && t.customerId == b.customerId
    requires t.balanceBefore == customers[b.customerId].creditsRemaining
    requires t.balanceAfter == t.balanceBefore + t.amount
    ensures var customers' := customers[b.customerId := customers[b.customerId].(creditsRemaining := t.balanceAfter)];
      && CustomersOk(customers', nUsers)
      && BookingsOk(bookings + [b], |customers'|, nInstances)
      && AttendancesOk(attendances, |bookings + [b]|)
      && TransactionsOk(txs + [t], customers')
  {
    LedgerAfterEntry(txs, customers, b.customerId, t);
  }
}
