/** The rows of the studio's database: users, customers, class templates,
    class instances, bookings, the credit ledger, attendance, milestone
    checkpoints and notifications. Every row carries its `id`, which is its
    position in its table. */
module Schema {
  import opened Common

  datatype MembershipStatus = Active | Paused | Cancelled

  /** The enum value as the database spells it. */
  function MembershipName(m: MembershipStatus): string {
    match m
    case Active => "ACTIVE"
    case Paused => "PAUSED"
    case Cancelled => "CANCELLED"
  }

  datatype BookingStatus = Confirmed | Attended | Cancelled

  datatype CheckInMethod = Automatic | Manual | QrCode

  datatype CheckpointType = FirstClass | ThirdClass | TenthClass

  datatype User = User(
    id: nat, email: string, firstName: string, lastName: string,
    phone: Option<string>, role: string)

  datatype Customer = Customer(
    id: nat, userId: nat, membershipType: string, membershipStatus: MembershipStatus,
    creditsRemaining: int, totalClassesAttended: int, consecutiveWeeksStreak: int,
    createdAt: int)

  /** A class template's recurrence: "weekly" on some weekdays (0 = Sunday) or "daily". */
  datatype Recurrence = Recurrence(pattern: string, daysOfWeek: Option<seq<int>>, timezone: string)

  datatype ClassDef = ClassDef(
    id: nat, name: string, description: Option<string>, instructorName: string,
    durationMinutes: int, maxCapacity: int, priceCredits: int, recurrence: Recurrence,
    startTime: string, endTime: string, timezone: string, isActive: bool)

  datatype ClassInstance = ClassInstance(
    id: nat, classId: nat, scheduledDate: int, scheduledStartTime: int,
    scheduledEndTime: int, status: string)

  datatype Booking = Booking(
    id: nat, customerId: nat, classInstanceId: nat, bookingStatus: BookingStatus,
    creditsUsed: int, bookedAt: int)

  datatype CreditTransaction = CreditTransaction(
    id: nat, customerId: nat, transactionType: string, amount: int,
    balanceBefore: int, balanceAfter: int, notes: string, createdAt: int)

  datatype Attendance = Attendance(
    id: nat, bookingId: nat, customerId: nat, classInstanceId: nat,
    checkInMethod: CheckInMethod, notes: Option<string>, attendedAt: int)

  datatype Checkpoint = Checkpoint(
    id: nat, customerId: nat, checkpointType: CheckpointType,
    classCountAtAchievement: int, achievedAt: int)

  datatype Notification = Notification(id: nat, userId: nat, isRead: bool, createdAt: int)

  /** The customer row created for a new CUSTOMER account. */
  function NewCustomer(id: nat, userId: nat, createdAt: int): (c: Customer)
    ensures c.id == id && c.userId == userId && c.createdAt == createdAt
    ensures c.membershipStatus == Active && c.membershipType == "MONTHLY"
    ensures c.creditsRemaining == 0 && c.consecutiveWeeksStreak == 0 && c.totalClassesAttended == 0
  {
    Customer(id, userId, "MONTHLY", Active, 0, 0, 0, createdAt)
  }

  /** CONFIRMED and ATTENDED bookings hold a seat; CANCELLED ones do not. */
  predicate HoldsSeat(b: Booking) {
    b.bookingStatus == Confirmed || b.bookingStatus == Attended
  }

  /** The seats taken on an instance: its CONFIRMED or ATTENDED bookings. */
  function SeatsTaken(bookings: seq<Booking>, instanceId: nat): (n: nat)
    ensures n <= |bookings|
  {
    Count(bookings, (b: Booking) => b.classInstanceId == instanceId && HoldsSeat(b))
  }

  /** Bookings newest `bookedAt` first (`orderBy: { bookedAt: 'desc' }`). */
  function NewestFirst(): (le: (Booking, Booking) -> bool)
    ensures TotalPreorder(le)
    ensures forall a, b :: le(a, b) <==> a.bookedAt >= b.bookedAt
  {
    (a: Booking, b: Booking) => a.bookedAt >= b.bookedAt
  }

  /** Bookings earliest `bookedAt` first (`orderBy: { bookedAt: 'asc' }`). */
  function OldestFirst(): (le: (Booking, Booking) -> bool)
    ensures TotalPreorder(le)
    ensures forall a, b :: le(a, b) <==> a.bookedAt <= b.bookedAt
  {
    (a: Booking, b: Booking) => a.bookedAt <= b.bookedAt
  }

  /** Instances earliest start first (`orderBy: { scheduledStartTime: 'asc' }`). */
  function ByStart(): (le: (ClassInstance, ClassInstance) -> bool)
    ensures TotalPreorder(le)
    ensures forall a, b :: le(a, b) <==> a.scheduledStartTime <= b.scheduledStartTime
  {
    (a: ClassInstance, b: ClassInstance) => a.scheduledStartTime <= b.scheduledStartTime
  }

  /** The booking has an attendance row. */
  predicate HasAttendance(attendances: seq<Attendance>, bookingId: nat) {
    exists i :: 0 <= i < |attendances| && attendances[i].bookingId == bookingId
  }

  /** The first customer row of a user (the column is unique). */
  function FindCustomer(customers: seq<Customer>, userId: nat): (r: Option<nat>)
    ensures r.Some? ==> r.value < |customers| && customers[r.value].userId == userId
    ensures r.Some? ==> forall i :: 0 <= i < r.value ==> customers[i].userId != userId
    ensures r.None? ==> forall i :: 0 <= i < |customers| ==> customers[i].userId != userId
  {
    if customers == [] then None
    else if customers[|customers| - 1].userId == userId
         && FindCustomer(customers[..|customers| - 1], userId).None?
    then Some(|customers| - 1)
    else FindCustomer(customers[..|customers| - 1], userId)
  }

  // ---------------------------------------------------------------------
  // Clock times "H:MM" / "HH:MM" (the pattern ^([0-1]?[0-9]|2[0-3]):[0-5][0-9]$)

  predicate HourField(h: string) {
    || (|h| == 1 && IsDigit(h[0]))
    || (|h| == 2 && (('0' <= h[0] <= '1' && IsDigit(h[1])) || (h[0] == '2' && '0' <= h[1] <= '3')))
  }

  predicate MinuteField(m: string) {
    |m| == 2 && '0' <= m[0] <= '5' && IsDigit(m[1])
  }

  predicate ClockPattern(s: string) {
    |s| >= 3 && s[|s| - 3] == ':' && HourField(s[..|s| - 3]) && MinuteField(s[|s| - 2..])
  }

  /** `s.split(':').map(Number)` on a string the pattern accepts. */
  function ParseClock(s: string): (hm: (int, int))
    requires ClockPattern(s)
    ensures 0 <= hm.0 < 24 && 0 <= hm.1 < 60
  {
    var h := s[..|s| - 3];
    var hour := if |h| == 1 then DigitValue(h[0]) else 10 * DigitValue(h[0]) + DigitValue(h[1]);
    (hour, 10 * DigitValue(s[|s| - 2]) + DigitValue(s[|s| - 1]))
  }

  /** The time of day `s` names, in ms after midnight (`setHours(h, m, 0, 0)`). */
  function ClockOffset(s: string): (o: int)
    requires ClockPattern(s)
    ensures o == ParseClock(s).0 * HourMs + ParseClock(s).1 * MinuteMs
    ensures 0 <= o < DayMs
  {
    var hm := ParseClock(s);
    hm.0 * HourMs + hm.1 * MinuteMs
  }

  function Pad2(n: int): (s: string)
    requires 0 <= n < 100
    ensures |s| == 2
  {
    [DigitChar(n / 10), DigitChar(n % 10)]
  }

  /** "9:05", "14:30": the hour without a leading zero. */
  function FormatClock(h: int, m: int): string
    requires 0 <= h < 24 && 0 <= m < 60
  {
    NatToString(h) + ":" + Pad2(m)
  }

  /** "09:05", "14:30": the hour with two digits. */
  function FormatClockPadded(h: int, m: int): string
    requires 0 <= h < 24 && 0 <= m < 60
  {
    Pad2(h) + ":" + Pad2(m)
  }

  /** The template as the class schema admits it. */
  predicate SchemaValid(c: ClassDef) {
    && |c.name| >= 1 && |c.instructorName| >= 1
    && c.durationMinutes > 0 && c.maxCapacity > 0 && c.priceCredits > 0
    && (c.recurrence.pattern == "weekly" || c.recurrence.pattern == "daily")
    && (c.recurrence.daysOfWeek.Some? ==>
          forall i :: 0 <= i < |c.recurrence.daysOfWeek.value| ==> 0 <= c.recurrence.daysOfWeek.value[i] <= 6)
    && ClockPattern(c.startTime) && ClockPattern(c.endTime)
  }
}
