/** The database the route handlers share: one table per entity, each a
    sequence whose `i`-th row has id `i`. `Valid` holds the referential
    integrity the schema enforces, the uniqueness rules the handlers keep,
    and the credit ledger's chaining rule. */
module Store {
  import opened Common
  import opened Schema

  // ---------------------------------------------------------------------
  // The credit ledger of one customer

  /** A customer's transactions, oldest first. */
  function LedgerOf(txs: seq<CreditTransaction>, customerId: nat): (h: seq<CreditTransaction>)
    ensures |h| <= |txs|
    ensures forall i :: 0 <= i < |h| ==> h[i].customerId == customerId
  {
    if txs == [] then []
    else
      var last := txs[|txs| - 1];
      LedgerOf(txs[..|txs| - 1], customerId) + (if last.customerId == customerId then [last] else [])
  }

  /** Each transaction balances (after = before + amount), each starts where the
      previous one ended, and the last one ends at the current balance. */
  ghost predicate Chained(h: seq<CreditTransaction>, balance: int) {
    && (forall i :: 0 <= i < |h| ==> h[i].balanceAfter == h[i].balanceBefore + h[i].amount)
    && (forall i :: 0 < i < |h| ==> h[i].balanceBefore == h[i - 1].balanceAfter)
    && (|h| > 0 ==> h[|h| - 1].balanceAfter == balance)
  }

  function SumAmounts(h: seq<CreditTransaction>): int {
    if h == [] then 0 else SumAmounts(h[..|h| - 1]) + h[|h| - 1].amount
  }

  /** A chained ledger telescopes: the balance is the first opening balance plus
      the sum of all amounts. */
  lemma {:induction false} ChainedTelescopes(h: seq<CreditTransaction>, balance: int)
    requires Chained(h, balance) && |h| > 0
    ensures balance == h[0].balanceBefore + SumAmounts(h)
    decreases |h|
  {
    var n := |h|;
    if n > 1 {
      var init := h[..n - 1];
      assert Chained(init, h[n - 2].balanceAfter);
      ChainedTelescopes(init, h[n - 2].balanceAfter);
      assert init[0] == h[0];
    } else {
      assert h[..0] == [];
    }
  }

  /** Appending a transaction that opens at the current balance keeps the chain. */
  lemma ChainedAppend(h: seq<CreditTransaction>, balance: int, t: CreditTransaction)
    requires Chained(h, balance)
    requires t.balanceBefore == balance && t.balanceAfter == t.balanceBefore + t.amount
    ensures Chained(h + [t], t.balanceAfter)
  {
  }

  /** Recording one entry that opens at a customer's balance, and moving the
      balance to the entry's closing balance, keeps every customer's ledger chained. */
  lemma LedgerAfterEntry(txs: seq<CreditTransaction>, customers: seq<Customer>, c: nat, t: CreditTransaction)
    requires TransactionsOk(txs, customers)
    requires c < |customers| && t.customerId == c && t.id == |txs|
    requires t.balanceBefore == customers[c].creditsRemaining
    requires t.balanceAfter == t.balanceBefore + t.amount
    ensures TransactionsOk(txs + [t], customers[c := customers[c].(creditsRemaining := t.balanceAfter)])
  {
    var customers' := customers[c := customers[c].(creditsRemaining := t.balanceAfter)];
    assert (txs + [t])[..|txs|] == txs;
    forall d | 0 <= d < |customers'|
      ensures Chained(LedgerOf(txs + [t], d), customers'[d].creditsRemaining)
    {
      if d == c {
        assert LedgerOf(txs + [t], d) == LedgerOf(txs, c) + [t];
        ChainedAppend(LedgerOf(txs, c), customers[c].creditsRemaining, t);
      } else {
        assert LedgerOf(txs + [t], d) == LedgerOf(txs, d);
      }
    }
  }

  // ---------------------------------------------------------------------
  // Table-level invariants, each over the fields it mentions

  ghost predicate UsersOk(users: seq<User>) {
    forall i :: 0 <= i < |users| ==> users[i].id == i
  }

  ghost predicate CustomersOk(customers: seq<Customer>, nUsers: nat) {
    forall i :: 0 <= i < |customers| ==> customers[i].id == i && customers[i].userId < nUsers
  }

  ghost predicate ClassesOk(classes: seq<ClassDef>) {
    forall i :: 0 <= i < |classes| ==> classes[i].id == i && SchemaValid(classes[i])
  }

  ghost predicate InstancesOk(instances: seq<ClassInstance>, nClasses: nat) {
    forall i :: 0 <= i < |instances| ==> instances[i].id == i && instances[i].classId < nClasses
  }

  ghost predicate BookingsOk(bookings: seq<Booking>, nCustomers: nat, nInstances: nat) {
    forall i :: 0 <= i < |bookings| ==>
      bookings[i].id == i && bookings[i].customerId < nCustomers && bookings[i].classInstanceId < nInstances
  }

  /** At most one attendance row per booking (the column is unique). */
  ghost predicate AttendancesOk(attendances: seq<Attendance>, nBookings: nat) {
    && (forall i :: 0 <= i < |attendances| ==> attendances[i].id == i && attendances[i].bookingId < nBookings)
    && (forall i, j :: 0 <= i < j < |attendances| ==> attendances[i].bookingId != attendances[j].bookingId)
  }

  ghost predicate TransactionsOk(txs: seq<CreditTransaction>, customers: seq<Customer>) {
    && (forall i :: 0 <= i < |txs| ==> txs[i].id == i && txs[i].customerId < |customers|)
    && (forall c :: 0 <= c < |customers| ==> Chained(LedgerOf(txs, c), customers[c].creditsRemaining))
  }

  /** At most one checkpoint per customer and milestone. */
  ghost predicate CheckpointsOk(checkpoints: seq<Checkpoint>, nCustomers: nat) {
    && (forall i :: 0 <= i < |checkpoints| ==> checkpoints[i].id == i && checkpoints[i].customerId < nCustomers)
    && (forall i, j :: 0 <= i < j < |checkpoints| ==>
          checkpoints[i].customerId != checkpoints[j].customerId
          || checkpoints[i].checkpointType != checkpoints[j].checkpointType)
  }

  ghost predicate NotificationsOk(notifications: seq<Notification>, nUsers: nat) {
    forall i :: 0 <= i < |notifications| ==> notifications[i].id == i && notifications[i].userId < nUsers
  }

  class Db {
    var users: seq<User>
    var customers: seq<Customer>
    var classes: seq<ClassDef>
    var instances: seq<ClassInstance>
    var bookings: seq<Booking>
    var transactions: seq<CreditTransaction>
    var attendances: seq<Attendance>
    var checkpoints: seq<Checkpoint>
    var notifications: seq<Notification>

    ghost predicate Valid()
      reads this
    {
      && UsersOk(users)
      && CustomersOk(customers, |users|)
      && ClassesOk(classes)
      && InstancesOk(instances, |classes|)
      && BookingsOk(bookings, |customers|, |instances|)
      && AttendancesOk(attendances, |bookings|)
      && TransactionsOk(transactions, customers)
      && CheckpointsOk(checkpoints, |customers|)
      && NotificationsOk(notifications, |users|)
    }

    /** An empty studio. */
    constructor ()
      ensures Valid()
      ensures users == [] && customers == [] && classes == [] && instances == []
      ensures bookings == [] && transactions == [] && attendances == []
      ensures checkpoints == [] && notifications == []
    {
      users, customers, classes, instances := [], [], [], [];
      bookings, transactions, attendances := [], [], [];
      checkpoints, notifications := [], [];
    }
  }
}
