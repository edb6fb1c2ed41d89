/** The leaderboard (`GET /api/admin/leaderboard`): the top customers by
    classes attended, by weekly streak, or by classes attended re-ranked by
    attendance rate. Any authenticated caller may read it; the handler does
    not check the admin role. */
module Leaderboard {
  import opened Common
  import opened Schema
  import opened Store

  const InvalidType := ApiError(400, "Invalid type. Must be: classes, streak, or attendance")
  const FetchFailed := ApiError(500, "Failed to fetch leaderboard")

  /** `searchParams.get('type') || 'classes'`. */
  function BoardType(param: Option<string>): (t: string)
    ensures param.None? || param.value == "" ==> t == "classes"
    ensures param.Some? && param.value != "" ==> t == param.value
  {
    if param.None? || param.value == "" then "classes" else param.value
  }

  /** `parseInt(searchParams.get('limit') || '10')`; `None` stands for NaN. */
  function BoardLimit(param: Option<string>): (n: Option<nat>)
    ensures param.None? || param.value == "" ==> n == Some(10)
    ensures param.Some? && param.value != "" ==> n == ParseNat(param.value)
  {
    if param.None? || param.value == "" then Some(10) else ParseNat(param.value)
  }

  /** Customers with the most classes attended first. */
  function MostClasses(): (le: (Customer, Customer) -> bool)
    ensures TotalPreorder(le)
    ensures forall a, b :: le(a, b) <==> a.totalClassesAttended >= b.totalClassesAttended
  {
    (a: Customer, b: Customer) => a.totalClassesAttended >= b.totalClassesAttended
  }

  /** Customers with the longest weekly streak first. */
  function LongestStreak(): (le: (Customer, Customer) -> bool)
    ensures TotalPreorder(le)
    ensures forall a, b :: le(a, b) <==> a.consecutiveWeeksStreak >= b.consecutiveWeeksStreak
  {
    (a: Customer, b: Customer) => a.consecutiveWeeksStreak >= b.consecutiveWeeksStreak
  }

  // ---------------------------------------------------------------------
  // Attendance rate

  /** All of the customer's bookings, whatever their status. */
  function OwnBookings(bookings: seq<Booking>, customerId: nat): (own: seq<Booking>)
    ensures forall i :: 0 <= i < |own| ==> own[i] in bookings && own[i].customerId == customerId
    ensures forall i :: 0 <= i < |bookings| && bookings[i].customerId == customerId ==> bookings[i] in own
  {
    Filter(bookings, (b: Booking) => b.customerId == customerId)
  }

  /** The bookings that have an attendance row. */
  function AttendedCount(own: seq<Booking>, attendances: seq<Attendance>): (n: nat)
    ensures n <= |own|
  {
    Count(own, (b: Booking) => HasAttendance(attendances, b.id))
  }

  /** `Math.round(attended / total * 100 * 10) / 10`, in tenths of a percent:
      0 with no bookings, else the whole number of tenths nearest the rate. */
  function RateTenths(bookings: seq<Booking>, attendances: seq<Attendance>, customerId: nat): (r: int)
    ensures 0 <= r <= 1000
    ensures OwnBookings(bookings, customerId) == [] ==> r == 0
    ensures var t := |OwnBookings(bookings, customerId)|;
      var a := AttendedCount(OwnBookings(bookings, customerId), attendances);
      t > 0 ==> 2 * t * r - t <= 2000 * a < 2 * t * r + t
  {
    var own := OwnBookings(bookings, customerId);
    RoundRatio(AttendedCount(own, attendances), |own|, 1000)
  }

  /** A customer all of whose bookings were attended has a rate of 100.0. */
  lemma FullAttendanceRate(bookings: seq<Booking>, attendances: seq<Attendance>, customerId: nat)
    requires OwnBookings(bookings, customerId) != []
    requires forall i :: 0 <= i < |bookings| && bookings[i].customerId == customerId ==>
      HasAttendance(attendances, bookings[i].id)
    ensures RateTenths(bookings, attendances, customerId) == 1000
  {
    var own := OwnBookings(bookings, customerId);
    var p := (b: Booking) => HasAttendance(attendances, b.id);
    assert forall i :: 0 <= i < |own| ==> p(own[i]) by {
      forall i | 0 <= i < |own|
        ensures p(own[i])
      {
        var k :| 0 <= k < |bookings| && bookings[k] == own[i];
      }
    }
    FilterAll(own, p);
    var t := |own|;
    var r := RateTenths(bookings, attendances, customerId);
    if r <= 999 {
      MulLeft(2 * t, r, 999);
      assert false;
    }
  }

  // ---------------------------------------------------------------------
  // Rows of the board

  /** A customer with their user's name and email; `attendanceRate` only on
      the attendance board. */
  datatype BoardRow = BoardRow(
    customer: Customer, firstName: string, lastName: string, email: string,
    attendanceRate: Option<int>)

  datatype Board = Board(boardType: string, customers: seq<BoardRow>)

  function RowOf(users: seq<User>, c: Customer, rate: Option<int>): (row: BoardRow)
    requires c.userId < |users|
    ensures row.customer == c && row.attendanceRate == rate
    ensures row.firstName == users[c.userId].firstName && row.lastName == users[c.userId].lastName
    ensures row.email == users[c.userId].email
  {
    var u := users[c.userId];
    BoardRow(c, u.firstName, u.lastName, u.email, rate)
  }

  ghost predicate FromTable(customers: seq<Customer>, nUsers: nat, cs: seq<Customer>) {
    forall i :: 0 <= i < |cs| ==> cs[i] in customers && cs[i].userId < nUsers
  }

  /** The rows of the classes and streak boards. */
  function PlainRows(users: seq<User>, customers: seq<Customer>, cs: seq<Customer>): (rows: seq<BoardRow>)
    requires FromTable(customers, |users|, cs)
    ensures |rows| == |cs|
    ensures forall i :: 0 <= i < |cs| ==> rows[i] == RowOf(users, cs[i], None)
  {
    if cs == [] then [] else [RowOf(users, cs[0], None)] + PlainRows(users, customers, cs[1..])
  }

  /** The rows of the attendance board, before they are re-sorted. */
  function RatedRows(users: seq<User>, customers: seq<Customer>, bookings: seq<Booking>,
                     attendances: seq<Attendance>, cs: seq<Customer>): (rows: seq<BoardRow>)
    requires FromTable(customers, |users|, cs)
    ensures |rows| == |cs|
    ensures forall i :: 0 <= i < |cs| ==>
      rows[i] == RowOf(users, cs[i], Some(RateTenths(bookings, attendances, cs[i].id)))
  {
    if cs == [] then []
    else
      [RowOf(users, cs[0], Some(RateTenths(bookings, attendances, cs[0].id)))]
        + RatedRows(users, customers, bookings, attendances, cs[1..])
  }

  function CustomersOfRows(rows: seq<BoardRow>): (cs: seq<Customer>)
    ensures |cs| == |rows|
    ensures forall i :: 0 <= i < |rows| ==> cs[i] == rows[i].customer
  {
    if rows == [] then [] else [rows[0].customer] + CustomersOfRows(rows[1..])
  }

  /** Rows with the highest attendance rate first; a row without a rate
      counts as 0. */
  function HighestRate(): (le: (BoardRow, BoardRow) -> bool)
    ensures TotalPreorder(le)
    ensures forall a, b :: le(a, b) <==> RateOr0(a) >= RateOr0(b)
  {
    (a: BoardRow, b: BoardRow) => RateOr0(a) >= RateOr0(b)
  }

  function RateOr0(row: BoardRow): int {
    if row.attendanceRate.Some? then row.attendanceRate.value else 0
  }

  /** The `limit` best customers by `le`, each from the table. */
  lemma TopFromTable(customers: seq<Customer>, nUsers: nat, le: (Customer, Customer) -> bool, limit: nat)
    requires CustomersOk(customers, nUsers) && TotalPreorder(le)
    ensures FromTable(customers, nUsers, TopBy(customers, le, limit))
  {
    var top := TopBy(customers, le, limit);
    forall i | 0 <= i < |top|
      ensures top[i] in customers && top[i].userId < nUsers
    {
      assert top[i] in multiset(customers);
      var k :| 0 <= k < |customers| && customers[k] == top[i];
    }
  }

  /** The `limit` best customers by `le` with their user's details: the
      classes board by `MostClasses`, the streak board by `LongestStreak`. No
      customer left out ranks above a listed one. */
  function RankedRows(users: seq<User>, customers: seq<Customer>, le: (Customer, Customer) -> bool, limit: nat)
    : (rows: seq<BoardRow>)
    requires CustomersOk(customers, |users|) && TotalPreorder(le)
    ensures |rows| == Min(limit, |customers|)
    ensures forall i :: 0 <= i < |rows| ==>
      rows[i].customer in customers && rows[i].customer.userId < |users| &&
      rows[i] == RowOf(users, rows[i].customer, None)
    ensures forall i, j :: 0 <= i < j < |rows| ==> le(rows[i].customer, rows[j].customer)
    ensures forall c :: c in customers && c !in CustomersOfRows(rows) ==>
      forall i :: 0 <= i < |rows| ==> le(rows[i].customer, c)
    ensures multiset(CustomersOfRows(rows)) <= multiset(customers)
  {
    var top := TopBy(customers, le, limit);
    TopFromTable(customers, |users|, le, limit);
    PlainRowsRanked(users, customers, le, top);
    PlainRows(users, customers, top)
  }

  /** The rows of an ordered selection keep its order and what it leaves out. */
  lemma PlainRowsRanked(users: seq<User>, customers: seq<Customer>, le: (Customer, Customer) -> bool,
                        top: seq<Customer>)
    requires FromTable(customers, |users|, top) && SortedBy(top, le)
    requires forall x :: x in customers && x !in top ==> forall i :: 0 <= i < |top| ==> le(top[i], x)
    ensures forall i, j :: 0 <= i < j < |PlainRows(users, customers, top)| ==>
      le(PlainRows(users, customers, top)[i].customer, PlainRows(users, customers, top)[j].customer)
    ensures forall c :: c in customers && c !in CustomersOfRows(PlainRows(users, customers, top)) ==>
      forall i :: 0 <= i < |PlainRows(users, customers, top)| ==> le(PlainRows(users, customers, top)[i].customer, c)
    ensures CustomersOfRows(PlainRows(users, customers, top)) == top
  {
    var rows := PlainRows(users, customers, top);
    PlainRowsCustomers(users, customers, top);
    assert forall i :: 0 <= i < |rows| ==> rows[i].customer == top[i];
  }

  /** The rows of the plain boards list the given customers, in order. */
  lemma PlainRowsCustomers(users: seq<User>, customers: seq<Customer>, cs: seq<Customer>)
    requires FromTable(customers, |users|, cs)
    ensures CustomersOfRows(PlainRows(users, customers, cs)) == cs
  {
    var rows := PlainRows(users, customers, cs);
    assert forall i :: 0 <= i < |cs| ==> CustomersOfRows(rows)[i] == rows[i].customer == cs[i];
  }

  /** The attendance board: the customers of the classes board, each with
      their attendance rate, re-sorted highest rate first. */
  function RatedBoard(users: seq<User>, customers: seq<Customer>, bookings: seq<Booking>,
                      attendances: seq<Attendance>, limit: nat): (rows: seq<BoardRow>)
    requires CustomersOk(customers, |users|)
    ensures |rows| == Min(limit, |customers|)
    ensures forall i :: 0 <= i < |rows| ==>
      rows[i].customer.userId < |users| &&
      rows[i] == RowOf(users, rows[i].customer, Some(RateTenths(bookings, attendances, rows[i].customer.id)))
    ensures forall i, j :: 0 <= i < j < |rows| ==> RateOr0(rows[i]) >= RateOr0(rows[j])
    ensures forall i :: 0 <= i < |rows| ==>
      rows[i].customer in CustomersOfRows(RankedRows(users, customers, MostClasses(), limit))
    ensures forall c :: c in CustomersOfRows(RankedRows(users, customers, MostClasses(), limit)) ==>
      c in CustomersOfRows(rows)
  {
    var top := TopBy(customers, MostClasses(), limit);
    TopFromTable(customers, |users|, MostClasses(), limit);
    var rated := RatedRows(users, customers, bookings, attendances, top);
    var rows := SortBy(rated, HighestRate());
    PermutationMembers(rows, rated);
    RankedCustomers(users, customers, limit);
    RatedMembers(users, customers, bookings, attendances, top, rows);
    RatedCustomersKept(users, customers, bookings, attendances, top, rows);
    rows
  }

  lemma RankedCustomers(users: seq<User>, customers: seq<Customer>, limit: nat)
    requires CustomersOk(customers, |users|)
    ensures CustomersOfRows(RankedRows(users, customers, MostClasses(), limit)) == TopBy(customers, MostClasses(), limit)
  {
    var top := TopBy(customers, MostClasses(), limit);
    TopFromTable(customers, |users|, MostClasses(), limit);
    assert CustomersOfRows(PlainRows(users, customers, top)) == top;
  }

  /** Rows drawn from the rated rows of `top` are customers of `top` with their rates. */
  lemma RatedMembers(users: seq<User>, customers: seq<Customer>, bookings: seq<Booking>,
                     attendances: seq<Attendance>, top: seq<Customer>, rows: seq<BoardRow>)
    requires FromTable(customers, |users|, top)
    requires forall i :: 0 <= i < |rows| ==> rows[i] in RatedRows(users, customers, bookings, attendances, top)
    ensures forall i :: 0 <= i < |rows| ==>
      rows[i].customer in top && rows[i].customer.userId < |users| &&
      rows[i] == RowOf(users, rows[i].customer, Some(RateTenths(bookings, attendances, rows[i].customer.id)))
  {
    var rated := RatedRows(users, customers, bookings, attendances, top);
    forall i | 0 <= i < |rows|
      ensures rows[i].customer in top && rows[i].customer.userId < |users|
      ensures rows[i] == RowOf(users, rows[i].customer, Some(RateTenths(bookings, attendances, rows[i].customer.id)))
    {
      var k :| 0 <= k < |rated| && rated[k] == rows[i];
    }
  }

  lemma RatedCustomersKept(users: seq<User>, customers: seq<Customer>, bookings: seq<Booking>,
                           attendances: seq<Attendance>, top: seq<Customer>, rows: seq<BoardRow>)
    requires FromTable(customers, |users|, top)
    requires forall i :: 0 <= i < |top| ==> RatedRows(users, customers, bookings, attendances, top)[i] in rows
    ensures forall c :: c in top ==> c in CustomersOfRows(rows)
  {
    var rated := RatedRows(users, customers, bookings, attendances, top);
    forall c | c in top
      ensures c in CustomersOfRows(rows)
    {
      var k :| 0 <= k < |top| && top[k] == c;
      var j :| 0 <= j < |rows| && rows[j] == rated[k];
      assert CustomersOfRows(rows)[j] == c;
    }
  }

  const BoardTypes: set<string> := {"classes", "streak", "attendance"}

  /** `GET /api/admin/leaderboard?type=&limit=`: 400 for an unknown type, 500
      when `limit` is not a number (the database rejects `take: NaN`). */
  function GetLeaderboard(users: seq<User>, customers: seq<Customer>, bookings: seq<Booking>,
                          attendances: seq<Attendance>, typeParam: Option<string>, limitParam: Option<string>)
    : (r: Result<Board>)
    requires CustomersOk(customers, |users|)
    ensures BoardType(typeParam) !in BoardTypes ==> r == Err(InvalidType)
    ensures BoardType(typeParam) in BoardTypes && BoardLimit(limitParam).None? ==> r == Err(FetchFailed)
    ensures r.Ok? <==> BoardType(typeParam) in BoardTypes && BoardLimit(limitParam).Some?
    ensures r.Ok? ==> r.value.boardType == BoardType(typeParam)
    ensures r.Ok? && r.value.boardType == "classes" ==>
      r.value.customers == RankedRows(users, customers, MostClasses(), BoardLimit(limitParam).value)
    ensures r.Ok? && r.value.boardType == "streak" ==>
      r.value.customers == RankedRows(users, customers, LongestStreak(), BoardLimit(limitParam).value)
    ensures r.Ok? && r.value.boardType == "attendance" ==>
      r.value.customers == RatedBoard(users, customers, bookings, attendances, BoardLimit(limitParam).value)
  {
    var t := BoardType(typeParam);
    if t !in BoardTypes then Err(InvalidType)
    else if BoardLimit(limitParam).None? then Err(FetchFailed)
    else
      var limit := BoardLimit(limitParam).value;
      if t == "classes" then Ok(Board(t, RankedRows(users, customers, MostClasses(), limit)))
      else if t == "streak" then Ok(Board(t, RankedRows(users, customers, LongestStreak(), limit)))
      else Ok(Board(t, RatedBoard(users, customers, bookings, attendances, limit)))
  }

  /** A limit written in decimal is read back as that number. */
  lemma LimitRoundTrip(limit: nat)
    ensures BoardLimit(Some(NatToString(limit))) == Some(limit)
  {
    ParseNatToString(limit);
  }
}
