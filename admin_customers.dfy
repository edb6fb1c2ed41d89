/** The admin customer list (`GET /api/admin/customers?status=&search=`): the
    customers matching a membership status and a name or email search, newest
    first, each with its latest booking and the time of its last class. */
module AdminCustomers {
  import opened Common
  import opened Schema
  import opened Store

  const FetchFailed := ApiError(500, "Failed to fetch customers")

  // ---------------------------------------------------------------------
  // The `where` clause

  /** The status filter: `Ok(None)` for none (the parameter absent, empty or
      "all"), `Ok(Some(m))` for the status the upper-cased parameter names,
      and the query's failure for a name that is no membership status. */
  function StatusFilter(status: Option<string>): (r: Result<Option<MembershipStatus>>)
    ensures (status.None? || status.value == "" || status.value == "all") ==> r == Ok(None)
    ensures (status.Some? && status.value != "" && status.value != "all") ==>
      && (r.Ok? <==> exists m :: MembershipName(m) == ToUpper(status.value))
      && (r.Ok? ==> r.value.Some? && MembershipName(r.value.value) == ToUpper(status.value))
      && (r.Err? ==> r.error == FetchFailed)
  {
    if status.None? || status.value == "" || status.value == "all" then Ok(None)
    else
      var s := ToUpper(status.value);
      assert MembershipName(Active) == "ACTIVE" && MembershipName(Paused) == "PAUSED";
      assert MembershipName(MembershipStatus.Cancelled) == "CANCELLED";
      if s == "ACTIVE" then Ok(Some(Active))
      else if s == "PAUSED" then Ok(Some(Paused))
      else if s == "CANCELLED" then Ok(Some(MembershipStatus.Cancelled))
      else
        assert forall m :: MembershipName(m) != s;
        Err(FetchFailed)
  }

  /** `status=active` and `status=ACTIVE` select the same customers. */
  lemma StatusIgnoresCase(s: string)
    requires s != "" && ToLower(s) != "all" && s != "all"
    ensures StatusFilter(Some(ToLower(s))) == StatusFilter(Some(s))
  {
    UpperOfLower(s);
    assert ToLower(s) != "";
  }

  /** Only the lower-case "all" means no filter: `ALL` is upper-cased and
      names no status. */
  lemma UpperAllFails()
    ensures StatusFilter(Some("all")) == Ok(None)
    ensures StatusFilter(Some("ALL")) == Err(FetchFailed)
  {
    assert ToUpper("ALL") == "ALL";
  }

  lemma UpperOfLower(s: string)
    ensures ToUpper(ToLower(s)) == ToUpper(s)
  {
    var a := ToUpper(ToLower(s));
    var b := ToUpper(s);
    assert |a| == |b|;
    assert forall i :: 0 <= i < |s| ==> a[i] == b[i];
  }

  lemma LowerOfUpper(s: string)
    ensures ToLower(ToUpper(s)) == ToLower(s)
  {
    var a := ToLower(ToUpper(s));
    var b := ToLower(s);
    assert |a| == |b|;
    assert forall i :: 0 <= i < |s| ==> a[i] == b[i];
  }

  /** `contains` with `mode: 'insensitive'`. */
  predicate ContainsInsensitive(field: string, query: string) {
    Contains(ToLower(field), ToLower(query))
  }

  /** The `OR` of the search: none without a query (absent or empty);
      otherwise the first name, the last name or the email contains it. */
  predicate SearchMatches(search: Option<string>, u: User) {
    search.None? || search.value == ""
    || ContainsInsensitive(u.firstName, search.value)
    || ContainsInsensitive(u.lastName, search.value)
    || ContainsInsensitive(u.email, search.value)
  }

  /** The search does not see case. */
  lemma SearchIgnoresCase(q: string, u: User)
    ensures SearchMatches(Some(ToUpper(q)), u) == SearchMatches(Some(q), u)
  {
    LowerOfUpper(q);
  }

  /** Every sequence contains itself. */
  lemma ContainsSelf(s: string)
    ensures Contains(s, s)
  {
    assert s[..|s|] == s;
  }

  /** A search for a customer's exact email, in any case, finds them. */
  lemma SearchFindsEmail(u: User)
    ensures SearchMatches(Some(ToUpper(u.email)), u)
  {
    LowerOfUpper(u.email);
    ContainsSelf(ToLower(u.email));
  }

  /** A customer the whole `where` clause keeps. */
  predicate Selected(users: seq<User>, filter: Option<MembershipStatus>, search: Option<string>, c: Customer)
    requires c.userId < |users|
  {
    && (filter.Some? ==> c.membershipStatus == filter.value)
    && SearchMatches(search, users[c.userId])
  }

  // ---------------------------------------------------------------------
  // The included relations

  /** `bookings: { orderBy: { bookedAt: 'desc' }, take: 1 }`: the customer's
      latest booking, of any status. */
  function LastBooking(bookings: seq<Booking>, customerId: nat): (r: Option<Booking>)
    ensures r.None? <==> forall i :: 0 <= i < |bookings| ==> bookings[i].customerId != customerId
    ensures r.Some? ==> r.value in bookings && r.value.customerId == customerId
    ensures r.Some? ==> forall i :: 0 <= i < |bookings| && bookings[i].customerId == customerId ==>
      bookings[i].bookedAt <= r.value.bookedAt
  {
    var own := Filter(bookings, (b: Booking) => b.customerId == customerId);
    var top := TopBy(own, NewestFirst(), 1);
    if top == [] then
      assert forall i :: 0 <= i < |bookings| ==> bookings[i].customerId != customerId by {
        FilterNone(bookings, (b: Booking) => b.customerId == customerId);
      }
      None
    else
      assert top[0] in multiset(own);
      assert forall i :: 0 <= i < |bookings| && bookings[i].customerId == customerId ==>
        bookings[i] in own && (bookings[i] == top[0] || bookings[i] !in top);
      Some(top[0])
  }

  /** The attendance row of a booking, if it has one. */
  function AttendanceOf(attendances: seq<Attendance>, bookingId: nat): (r: Option<Attendance>)
    ensures r.None? <==> !HasAttendance(attendances, bookingId)
    ensures r.Some? ==> r.value in attendances && r.value.bookingId == bookingId
  {
    if attendances == [] then None
    else if attendances[0].bookingId == bookingId then Some(attendances[0])
    else
      var r := AttendanceOf(attendances[1..], bookingId);
      assert HasAttendance(attendances, bookingId) ==> HasAttendance(attendances[1..], bookingId) by {
        if HasAttendance(attendances, bookingId) {
          var i :| 0 <= i < |attendances| && attendances[i].bookingId == bookingId;
          assert attendances[1..][i - 1] == attendances[i];
        }
      }
      assert HasAttendance(attendances[1..], bookingId) ==> HasAttendance(attendances, bookingId) by {
        if HasAttendance(attendances[1..], bookingId) {
          var i :| 0 <= i < |attendances[1..]| && attendances[1..][i].bookingId == bookingId;
          assert attendances[i + 1].bookingId == bookingId;
        }
      }
      r
  }

  /** `lastAttendance || lastClass`: when the latest booking was attended, the
      check-in time; otherwise that booking's class start; without a booking,
      nothing. */
  function LastClassAttended(instances: seq<ClassInstance>, attendances: seq<Attendance>, last: Option<Booking>)
    : (t: Option<int>)
    requires last.Some? ==> last.value.classInstanceId < |instances|
    ensures last.None? <==> t.None?
    ensures last.Some? && HasAttendance(attendances, last.value.id) ==>
      exists i :: 0 <= i < |attendances| && attendances[i].bookingId == last.value.id
               && t == Some(attendances[i].attendedAt)
    ensures last.Some? && !HasAttendance(attendances, last.value.id) ==>
      t == Some(instances[last.value.classInstanceId].scheduledStartTime)
  {
    match last
    case None => None
    case Some(b) =>
      match AttendanceOf(attendances, b.id)
      case Some(a) => Some(a.attendedAt)
      case None => Some(instances[b.classInstanceId].scheduledStartTime)
  }

  /** With at most one attendance per booking, the time is that row's. */
  lemma LastClassIsTheCheckIn(instances: seq<ClassInstance>, attendances: seq<Attendance>, b: Booking, k: nat)
    requires b.classInstanceId < |instances|
    requires forall i, j :: 0 <= i < j < |attendances| ==> attendances[i].bookingId != attendances[j].bookingId
    requires k < |attendances| && attendances[k].bookingId == b.id
    ensures LastClassAttended(instances, attendances, Some(b)) == Some(attendances[k].attendedAt)
  {
    var i :| 0 <= i < |attendances| && attendances[i].bookingId == b.id
             && LastClassAttended(instances, attendances, Some(b)) == Some(attendances[i].attendedAt);
    assert i == k;
  }

  // ---------------------------------------------------------------------
  // The handler

  /** The user fields the list selects. */
  datatype Contact = Contact(id: nat, email: string, firstName: string, lastName: string, phone: Option<string>)

  /** A line of the list. */
  datatype CustomerRow = CustomerRow(
    customer: Customer, user: Contact, bookings: seq<Booking>, lastClassAttended: Option<int>)

  /** The tables the list reads, with their foreign keys in range. */
  ghost predicate Linked(users: seq<User>, customers: seq<Customer>, instances: seq<ClassInstance>,
                         bookings: seq<Booking>)
  {
    && CustomersOk(customers, |users|)
    && BookingsOk(bookings, |customers|, |instances|)
  }

  function ContactOf(u: User): (c: Contact)
    ensures c.id == u.id && c.email == u.email && c.firstName == u.firstName
    ensures c.lastName == u.lastName && c.phone == u.phone
  {
    Contact(u.id, u.email, u.firstName, u.lastName, u.phone)
  }

  /** `customers.map(...)` on one customer. */
  function RowOf(users: seq<User>, instances: seq<ClassInstance>, bookings: seq<Booking>,
                 attendances: seq<Attendance>, c: Customer): (row: CustomerRow)
    requires c.userId < |users|
    requires forall i :: 0 <= i < |bookings| ==> bookings[i].classInstanceId < |instances|
    ensures row.customer == c && row.user == ContactOf(users[c.userId])
    ensures var last := LastBooking(bookings, c.id);
      && row.bookings == (if last.Some? then [last.value] else [])
      && row.lastClassAttended == LastClassAttended(instances, attendances, last)
  {
    var last := LastBooking(bookings, c.id);
    CustomerRow(c, ContactOf(users[c.userId]), if last.Some? then [last.value] else [],
                LastClassAttended(instances, attendances, last))
  }

  function Rows(users: seq<User>, instances: seq<ClassInstance>, bookings: seq<Booking>,
                attendances: seq<Attendance>, cs: seq<Customer>): (rows: seq<CustomerRow>)
    requires forall i :: 0 <= i < |cs| ==> cs[i].userId < |users|
    requires forall i :: 0 <= i < |bookings| ==> bookings[i].classInstanceId < |instances|
    ensures |rows| == |cs|
    ensures forall i :: 0 <= i < |cs| ==> rows[i] == RowOf(users, instances, bookings, attendances, cs[i])
  {
    seq(|cs|, i requires 0 <= i < |cs| => RowOf(users, instances, bookings, attendances, cs[i]))
  }

  /** Customers newest `createdAt` first. */
  function NewestCustomerFirst(): (le: (Customer, Customer) -> bool)
    ensures TotalPreorder(le)
    ensures forall a, b :: le(a, b) <==> a.createdAt >= b.createdAt
  {
    (a: Customer, b: Customer) => a.createdAt >= b.createdAt
  }

  /** The customers the `where` clause keeps, newest first. */
  function Matching(users: seq<User>, customers: seq<Customer>, filter: Option<MembershipStatus>,
                    search: Option<string>): (r: seq<Customer>)
    requires CustomersOk(customers, |users|)
    ensures multiset(r) == multiset(Filter(customers, (c: Customer) =>
      c.userId < |users| && Selected(users, filter, search, c)))
    ensures forall i :: 0 <= i < |r| ==> r[i] in customers && r[i].userId < |users|
    ensures forall i :: 0 <= i < |r| ==> Selected(users, filter, search, r[i])
    ensures forall i :: 0 <= i < |customers| && Selected(users, filter, search, customers[i]) ==> customers[i] in r
    ensures forall i, j :: 0 <= i < j < |r| ==> r[i].createdAt >= r[j].createdAt
  {
    var p := (c: Customer) => c.userId < |users| && Selected(users, filter, search, c);
    var kept := Filter(customers, p);
    var le := NewestCustomerFirst();
    var r := SortBy(kept, le);
    PermutationMembers(r, kept);
    assert forall i, j :: 0 <= i < j < |r| ==> le(r[i], r[j]);
    r
  }

  /** `GET /api/admin/customers?status=&search=`. Any signed-in caller is
      served: the handler has no role check. */
  function ListCustomers(users: seq<User>, customers: seq<Customer>, instances: seq<ClassInstance>,
                         bookings: seq<Booking>, attendances: seq<Attendance>,
                         status: Option<string>, search: Option<string>): (r: Result<seq<CustomerRow>>)
    requires Linked(users, customers, instances, bookings)
    ensures StatusFilter(status).Err? <==> r == Err(FetchFailed)
    ensures r.Ok? ==>
      var matching := Matching(users, customers, StatusFilter(status).value, search);
      && |r.value| == |matching|
      && forall i :: 0 <= i < |matching| ==> r.value[i] == RowOf(users, instances, bookings, attendances, matching[i])
  {
    match StatusFilter(status)
    case Err(e) => Err(e)
    case Ok(filter) =>
      var matching := Matching(users, customers, filter, search);
      Ok(Rows(users, instances, bookings, attendances, matching))
  }

  /** Without parameters every customer is listed. */
  lemma NoParametersListsAll(users: seq<User>, customers: seq<Customer>, instances: seq<ClassInstance>,
                             bookings: seq<Booking>, attendances: seq<Attendance>)
    requires Linked(users, customers, instances, bookings)
    ensures var r := ListCustomers(users, customers, instances, bookings, attendances, None, None);
      r.Ok? && |r.value| == |customers|
  {
    var p := (c: Customer) => c.userId < |users| && Selected(users, None, None, c);
    var m := Matching(users, customers, None, None);
    FilterAll(customers, p);
    assert |multiset(m)| == |customers|;
  }

  /** The status a parameter names, in any case, is the filter. */
  lemma StatusNamesFilter(status: string, m: MembershipStatus)
    requires status != "" && status != "all" && ToUpper(status) == MembershipName(m)
    ensures StatusFilter(Some(status)) == Ok(Some(m))
  {
    var f := StatusFilter(Some(status));
    assert f.Ok? && MembershipName(f.value.value) == MembershipName(m);
  }

  lemma RowsFollowMatching(users: seq<User>, instances: seq<ClassInstance>, bookings: seq<Booking>,
                           attendances: seq<Attendance>, cs: seq<Customer>, rows: seq<CustomerRow>)
    requires forall i :: 0 <= i < |cs| ==> cs[i].userId < |users|
    requires forall i :: 0 <= i < |bookings| ==> bookings[i].classInstanceId < |instances|
    requires |rows| == |cs|
    requires forall i :: 0 <= i < |cs| ==> rows[i] == RowOf(users, instances, bookings, attendances, cs[i])
    ensures forall i :: 0 <= i < |rows| ==> rows[i].customer == cs[i]
  {
  }

  /** A status filter lists only customers of that status, and every one of
      them that the search keeps. */
  lemma StatusFilterExact(users: seq<User>, customers: seq<Customer>, instances: seq<ClassInstance>,
                          bookings: seq<Booking>, attendances: seq<Attendance>,
                          status: string, search: Option<string>, m: MembershipStatus)
    requires Linked(users, customers, instances, bookings)
    requires status != "" && status != "all" && ToUpper(status) == MembershipName(m)
    ensures var r := ListCustomers(users, customers, instances, bookings, attendances, Some(status), search);
      && r.Ok?
      && (forall i :: 0 <= i < |r.value| ==> r.value[i].customer.membershipStatus == m)
      && (forall i ::
            (0 <= i < |customers| && customers[i].membershipStatus == m
             && SearchMatches(search, users[customers[i].userId])) ==>
            exists j :: 0 <= j < |r.value| && r.value[j].customer == customers[i])
  {
    StatusNamesFilter(status, m);
    var matching := Matching(users, customers, Some(m), search);
    var r := ListCustomers(users, customers, instances, bookings, attendances, Some(status), search);
    RowsFollowMatching(users, instances, bookings, attendances, matching, r.value);
    forall i | 0 <= i < |customers| && customers[i].membershipStatus == m
        && SearchMatches(search, users[customers[i].userId])
      ensures exists j :: 0 <= j < |r.value| && r.value[j].customer == customers[i]
    {
      assert Selected(users, Some(m), search, customers[i]);
      var j :| 0 <= j < |matching| && matching[j] == customers[i];
      assert r.value[j].customer == customers[i];
    }
  }
}
