/** The admin dashboard (`GET /api/admin/stats`): head counts, this week's
    classes, the attendance rate and the five most recent bookings. */
module AdminStats {
  import opened Common
  import opened Schema
  import opened Store

  /** Sunday 00:00 of the week holding `now`: `setDate(getDate() - getDay())`
      followed by `setHours(0, 0, 0, 0)`. */
  function WeekStart(now: int): (ws: int)
    ensures ws % DayMs == 0 && Weekday(ws) == 0
    ensures ws <= now < ws + 7 * DayMs
  {
    var k := now / DayMs;
    var w := Weekday(now);
    var ws := DayStart(now) - w * DayMs;
    assert DayStart(now) == k * DayMs;
    assert ws == (k - w) * DayMs;
    DivPlusMultiple(0, k - w);
    assert ws / DayMs == k - w;
    ws
  }

  /** An instance starting in the week `[WeekStart(now), WeekStart(now) + 7 days)`. */
  predicate ThisWeek(now: int, inst: ClassInstance) {
    WeekStart(now) <= inst.scheduledStartTime < WeekStart(now) + 7 * DayMs
  }

  /** The number of instances starting this week. */
  function WeekCount(instances: seq<ClassInstance>, now: int): (n: nat)
    ensures n <= |instances|
  {
    Count(instances, (inst: ClassInstance) => ThisWeek(now, inst))
  }

  /** `Math.round(attended / held * 100)`, 0 when no booking holds a seat. */
  function AverageAttendance(bookings: seq<Booking>): (avg: int)
    ensures 0 <= avg <= 100
    ensures Count(bookings, HoldsSeat) == 0 ==> avg == 0
    ensures Count(bookings, HoldsSeat) > 0 ==>
      var a := Count(bookings, IsAttended);
      var t := Count(bookings, HoldsSeat);
      2 * t * avg - t <= 200 * a < 2 * t * avg + t
  {
    CountMono(bookings, IsAttended, HoldsSeat);
    RoundRatio(Count(bookings, IsAttended), Count(bookings, HoldsSeat), 100)
  }

  predicate IsAttended(b: Booking) {
    b.bookingStatus == Attended
  }

  /** When every seat-holding booking was attended the rate is 100. */
  lemma AllAttendedIsHundred(bookings: seq<Booking>)
    requires Count(bookings, HoldsSeat) > 0
    requires forall i :: 0 <= i < |bookings| && HoldsSeat(bookings[i]) ==> IsAttended(bookings[i])
    ensures AverageAttendance(bookings) == 100
  {
    CountMono(bookings, IsAttended, HoldsSeat);
    CountMono(bookings, HoldsSeat, IsAttended);
    var t := Count(bookings, HoldsSeat);
    var avg := AverageAttendance(bookings);
    if avg <= 99 {
      MulLeft(2 * t, avg, 99);
      assert false;
    }
  }

  /** When no booking was attended the rate is 0. */
  lemma NoneAttendedIsZero(bookings: seq<Booking>)
    requires forall i :: 0 <= i < |bookings| ==> !IsAttended(bookings[i])
    ensures AverageAttendance(bookings) == 0
  {
    FilterNone(bookings, IsAttended);
    var t := Count(bookings, HoldsSeat);
    var avg := AverageAttendance(bookings);
    if t > 0 && avg >= 1 {
      MulLeft(2 * t, 1, avg);
      assert false;
    }
  }

  /** `take: 5, orderBy: { bookedAt: 'desc' }`. */
  function RecentBookings(bookings: seq<Booking>): (r: seq<Booking>)
    ensures |r| == Min(5, |bookings|)
    ensures forall i, j :: 0 <= i < j < |r| ==> r[i].bookedAt >= r[j].bookedAt
    ensures multiset(r) <= multiset(bookings)
    ensures forall i :: 0 <= i < |r| ==> r[i] in bookings
    ensures forall b :: b in bookings && b !in r ==> forall i :: 0 <= i < |r| ==> b.bookedAt <= r[i].bookedAt
  {
    var le := NewestFirst();
    var r := TopBy(bookings, le, 5);
    assert forall i, j :: 0 <= i < j < |r| ==> le(r[i], r[j]);
    assert forall i :: 0 <= i < |r| ==> r[i] in multiset(bookings);
    r
  }

  /** A line of the dashboard's recent activity. */
  datatype RecentEntry = RecentEntry(
    id: nat, customerName: string, className: string, bookedAt: int, status: BookingStatus)

  datatype Dashboard = Dashboard(
    totalCustomers: nat, activeMemberships: nat, classesThisWeek: nat,
    averageAttendance: int, recentBookings: seq<RecentEntry>)

  /** The tables the dashboard reads, with their foreign keys in range. */
  ghost predicate Linked(users: seq<User>, customers: seq<Customer>, classes: seq<ClassDef>,
                         instances: seq<ClassInstance>, bookings: seq<Booking>)
  {
    && CustomersOk(customers, |users|)
    && InstancesOk(instances, |classes|)
    && BookingsOk(bookings, |customers|, |instances|)
  }

  /** The booking with its customer's full name and its class's name. */
  function Entry(users: seq<User>, customers: seq<Customer>, classes: seq<ClassDef>,
                 instances: seq<ClassInstance>, b: Booking): (e: RecentEntry)
    requires b.customerId < |customers| && customers[b.customerId].userId < |users|
    requires b.classInstanceId < |instances| && instances[b.classInstanceId].classId < |classes|
    ensures e.id == b.id && e.bookedAt == b.bookedAt && e.status == b.bookingStatus
    ensures var u := users[customers[b.customerId].userId];
      e.customerName == u.firstName + " " + u.lastName
    ensures e.className == classes[instances[b.classInstanceId].classId].name
  {
    var u := users[customers[b.customerId].userId];
    RecentEntry(b.id, u.firstName + " " + u.lastName,
                classes[instances[b.classInstanceId].classId].name, b.bookedAt, b.bookingStatus)
  }

  /** A booking of the table has its customer, user, instance and class. */
  lemma BookingResolves(users: seq<User>, customers: seq<Customer>, classes: seq<ClassDef>,
                        instances: seq<ClassInstance>, bookings: seq<Booking>, b: Booking)
    requires Linked(users, customers, classes, instances, bookings) && b in bookings
    ensures b.customerId < |customers| && customers[b.customerId].userId < |users|
    ensures b.classInstanceId < |instances| && instances[b.classInstanceId].classId < |classes|
  {
    var k :| 0 <= k < |bookings| && bookings[k] == b;
  }

  /** `recentBookings.map(...)`. */
  function Entries(users: seq<User>, customers: seq<Customer>, classes: seq<ClassDef>,
                   instances: seq<ClassInstance>, bookings: seq<Booking>, recent: seq<Booking>): (es: seq<RecentEntry>)
    requires Linked(users, customers, classes, instances, bookings)
    requires forall i :: 0 <= i < |recent| ==> recent[i] in bookings
    ensures |es| == |recent|
    ensures forall i :: 0 <= i < |recent| ==> es[i] == Entry(users, customers, classes, instances, recent[i])
  {
    if recent == [] then []
    else
      BookingResolves(users, customers, classes, instances, bookings, recent[0]);
      [Entry(users, customers, classes, instances, recent[0])]
        + Entries(users, customers, classes, instances, bookings, recent[1..])
  }

  predicate ActiveMember(c: Customer) {
    c.membershipStatus == Active
  }

  /** `GET /api/admin/stats` for a caller whose token carries `role`. */
  function GetStats(users: seq<User>, customers: seq<Customer>, classes: seq<ClassDef>,
                    instances: seq<ClassInstance>, bookings: seq<Booking>, role: string, now: int)
    : (r: Result<Dashboard>)
    requires Linked(users, customers, classes, instances, bookings)
    ensures role != "ADMIN" <==> r == Err(ApiError(403, "Forbidden: Admin access required"))
    ensures r.Ok? ==>
      var d := r.value;
      && d.totalCustomers == |customers|
      && d.activeMemberships == Count(customers, ActiveMember)
      && d.activeMemberships <= d.totalCustomers
      && d.classesThisWeek == WeekCount(instances, now)
      && d.averageAttendance == AverageAttendance(bookings)
      && |d.recentBookings| == Min(5, |bookings|)
      && (forall i :: 0 <= i < |d.recentBookings| ==>
            d.recentBookings[i] == Entry(users, customers, classes, instances, RecentBookings(bookings)[i]))
  {
    if role != "ADMIN" then Err(ApiError(403, "Forbidden: Admin access required"))
    else
      var recent := RecentBookings(bookings);
      Ok(Dashboard(
        |customers|,
        Count(customers, ActiveMember),
        WeekCount(instances, now),
        AverageAttendance(bookings),
        Entries(users, customers, classes, instances, bookings, recent)))
  }

  /** This week's classes are exactly those whose day is one of the seven
      days from Sunday `WeekStart(now)` on. */
  lemma ThisWeekIsSundayToSunday(now: int, inst: ClassInstance)
    ensures ThisWeek(now, inst) <==> exists d :: 0 <= d < 7 && OnDay(inst, WeekStart(now), d)
  {
    var ws := WeekStart(now);
    var s := inst.scheduledStartTime;
    if ThisWeek(now, inst) {
      var d := (s - ws) / DayMs;
      var x := (s - ws) % DayMs;
      assert s == ws + d * DayMs + x;
      assert 0 <= d < 7;
      NextDays(ws, d);
      DayStartWithin(ws + d * DayMs, x);
      assert OnDay(inst, ws, d);
    }
  }

  /** `inst` starts on the day `d` days after `ws`. */
  predicate OnDay(inst: ClassInstance, ws: int, d: int) {
    DayStart(inst.scheduledStartTime) == ws + d * DayMs
  }

  lemma NextDays(ws: int, d: int)
    requires ws % DayMs == 0
    ensures (ws + d * DayMs) % DayMs == 0
  {
    assert ws == (ws / DayMs) * DayMs;
    assert ws + d * DayMs == (ws / DayMs + d) * DayMs;
  }
}
