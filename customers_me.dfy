/** The signed-in customer's own record (`/api/customers/me`): `GET` reads the
    profile with its first active bookings and upcoming classes, `PATCH`
    edits the name and phone of the user. */
module CustomerProfile {
  import opened Common
  import opened Schema
  import opened Store

  const CustomerNotFound := ApiError(404, "Customer not found")

  // ---------------------------------------------------------------------
  // GET

  /** The customer's CONFIRMED or ATTENDED bookings. */
  function ActiveBookingsOf(bookings: seq<Booking>, customerId: nat): (r: seq<Booking>)
    ensures forall i :: 0 <= i < |r| ==> r[i] in bookings && r[i].customerId == customerId && HoldsSeat(r[i])
    ensures forall i :: 0 <= i < |bookings| && bookings[i].customerId == customerId && HoldsSeat(bookings[i]) ==>
      bookings[i] in r
  {
    Filter(bookings, (b: Booking) => b.customerId == customerId && HoldsSeat(b))
  }

  /** The bookings the profile loads: `take: 5`, `orderBy: { bookedAt: 'asc' }`. */
  function LoadedBookings(bookings: seq<Booking>, customerId: nat): (r: seq<Booking>)
    ensures |r| == Min(5, |ActiveBookingsOf(bookings, customerId)|)
    ensures multiset(r) <= multiset(ActiveBookingsOf(bookings, customerId))
    ensures forall i :: 0 <= i < |r| ==> r[i] in bookings && r[i].customerId == customerId && HoldsSeat(r[i])
    ensures forall i, j :: 0 <= i < j < |r| ==> r[i].bookedAt <= r[j].bookedAt
    ensures forall b :: b in ActiveBookingsOf(bookings, customerId) && b !in r ==>
      forall i :: 0 <= i < |r| ==> r[i].bookedAt <= b.bookedAt
  {
    var active := ActiveBookingsOf(bookings, customerId);
    var le := OldestFirst();
    var r := TopBy(active, le, 5);
    assert forall i :: 0 <= i < |r| ==> r[i] in multiset(active);
    assert forall i, j :: 0 <= i < j < |r| ==> le(r[i], r[j]);
    r
  }

  /** A booking whose class starts strictly after `now`. */
  predicate Upcoming(instances: seq<ClassInstance>, now: int, b: Booking) {
    b.classInstanceId < |instances| && instances[b.classInstanceId].scheduledStartTime > now
  }

  /** `customer.bookings.filter(b => start > now)`: the loaded bookings that
      are still ahead, in the order they were loaded. */
  function UpcomingOf(instances: seq<ClassInstance>, loaded: seq<Booking>, now: int): (r: seq<Booking>)
    ensures IsSubseq(r, loaded)
    ensures forall i :: 0 <= i < |r| ==> Upcoming(instances, now, r[i])
    ensures forall i :: 0 <= i < |loaded| && Upcoming(instances, now, loaded[i]) ==> loaded[i] in r
  {
    var p := (b: Booking) => Upcoming(instances, now, b);
    FilterIsSubseq(loaded, p);
    Filter(loaded, p)
  }

  function LatestCheckpointFirst(): (le: (Checkpoint, Checkpoint) -> bool)
    ensures TotalPreorder(le)
    ensures forall a, b :: le(a, b) <==> a.achievedAt >= b.achievedAt
  {
    (a: Checkpoint, b: Checkpoint) => a.achievedAt >= b.achievedAt
  }

  /** The customer's checkpoints, latest first. */
  function CheckpointsOf(checkpoints: seq<Checkpoint>, customerId: nat): (r: seq<Checkpoint>)
    ensures multiset(r) == multiset(Filter(checkpoints, (k: Checkpoint) => k.customerId == customerId))
    ensures forall i, j :: 0 <= i < j < |r| ==> r[i].achievedAt >= r[j].achievedAt
  {
    var le := LatestCheckpointFirst();
    var r := SortBy(Filter(checkpoints, (k: Checkpoint) => k.customerId == customerId), le);
    assert forall i, j :: 0 <= i < j < |r| ==> le(r[i], r[j]);
    r
  }

  datatype Profile = Profile(
    customer: Customer, user: User, bookings: seq<Booking>, checkpoints: seq<Checkpoint>,
    upcomingClasses: seq<Booking>)

  /** `GET /api/customers/me` for the user `userId` at time `now`. */
  function GetProfile(users: seq<User>, customers: seq<Customer>, instances: seq<ClassInstance>,
                      bookings: seq<Booking>, checkpoints: seq<Checkpoint>, userId: nat, now: int)
    : (r: Result<Profile>)
    requires CustomersOk(customers, |users|)
    ensures FindCustomer(customers, userId).None? <==> r == Err(CustomerNotFound)
    ensures r.Ok? ==>
      var c := FindCustomer(customers, userId).value;
      && r.value.customer == customers[c]
      && r.value.user == users[customers[c].userId]
      && r.value.bookings == LoadedBookings(bookings, c)
      && r.value.checkpoints == CheckpointsOf(checkpoints, c)
      && r.value.upcomingClasses == UpcomingOf(instances, r.value.bookings, now)
  {
    match FindCustomer(customers, userId)
    case None => Err(CustomerNotFound)
    case Some(c) =>
      var loaded := LoadedBookings(bookings, c);
      Ok(Profile(customers[c], users[customers[c].userId], loaded, CheckpointsOf(checkpoints, c),
                 UpcomingOf(instances, loaded, now)))
  }

  /** A class starting exactly now is no longer upcoming. */
  lemma StartingNowNotUpcoming(instances: seq<ClassInstance>, loaded: seq<Booking>, now: int, b: Booking)
    requires b.classInstanceId < |instances| && instances[b.classInstanceId].scheduledStartTime == now
    ensures b !in UpcomingOf(instances, loaded, now)
  {
  }

  // ---------------------------------------------------------------------
  // PATCH

  /** A field of the JSON body: left out (`undefined`, which the update
      ignores) or given. */
  datatype Edit<T> = Keep | Put(value: T)

  function Edited<T>(e: Edit<T>, current: T): T {
    if e.Put? then e.value else current
  }

  datatype ProfileEdit = ProfileEdit(
    firstName: Edit<string>, lastName: Edit<string>, phone: Edit<Option<string>>)

  /** The user row after `prisma.user.update({ data: { firstName, lastName, phone } })`. */
  function ApplyEdit(u: User, e: ProfileEdit): (v: User)
    ensures v.id == u.id && v.email == u.email && v.role == u.role
    ensures v.firstName == (if e.firstName.Put? then e.firstName.value else u.firstName)
    ensures v.lastName == (if e.lastName.Put? then e.lastName.value else u.lastName)
    ensures v.phone == (if e.phone.Put? then e.phone.value else u.phone)
  {
    u.(firstName := Edited(e.firstName, u.firstName),
       lastName := Edited(e.lastName, u.lastName),
       phone := Edited(e.phone, u.phone))
  }

  /** Editing twice with the same body is editing once. */
  lemma ApplyEditIdempotent(u: User, e: ProfileEdit)
    ensures ApplyEdit(ApplyEdit(u, e), e) == ApplyEdit(u, e)
  {
  }

  /** A body with none of the three fields changes nothing. */
  lemma EmptyEditKeepsUser(u: User)
    ensures ApplyEdit(u, ProfileEdit(Keep, Keep, Keep)) == u
  {
  }

  /** The fields the `PATCH` answers with. */
  datatype UserView = UserView(id: nat, email: string, firstName: string, lastName: string, phone: Option<string>)

  function ViewOf(u: User): (v: UserView)
    ensures v.id == u.id && v.email == u.email && v.firstName == u.firstName
    ensures v.lastName == u.lastName && v.phone == u.phone
  {
    UserView(u.id, u.email, u.firstName, u.lastName, u.phone)
  }

  /** `PATCH /api/customers/me` for the user `userId`. */
  method UpdateProfile(db: Db, userId: nat, e: ProfileEdit) returns (r: Result<UserView>)
    requires db.Valid()
    modifies db
    ensures FindCustomer(old(db.customers), userId).None? ==>
      r == Err(CustomerNotFound) && db.users == old(db.users)
    ensures FindCustomer(old(db.customers), userId).Some? ==>
      var u := old(db.customers)[FindCustomer(old(db.customers), userId).value].userId;
      && u < |old(db.users)|
      && db.users == old(db.users)[u := ApplyEdit(old(db.users)[u], e)]
      && r == Ok(ViewOf(db.users[u]))
    ensures db.customers == old(db.customers) && db.classes == old(db.classes)
    ensures db.instances == old(db.instances) && db.bookings == old(db.bookings)
    ensures db.transactions == old(db.transactions) && db.attendances == old(db.attendances)
    ensures db.checkpoints == old(db.checkpoints) && db.notifications == old(db.notifications)
    ensures db.Valid()
  {
    var found := FindCustomer(db.customers, userId);
    if found.None? {
      return Err(CustomerNotFound);
    }
    var u := db.customers[found.value].userId;
    var updated := ApplyEdit(db.users[u], e);
    db.users := db.users[u := updated];
    r := Ok(ViewOf(updated));
  }
}
