/** What a payment is answered, and when a hold ends: from the columns of the order and the clock alone. */
module HoldTimes {
  import opened Wrappers
  import opened Sums
  import opened Store
  import opened Inventory
  import opened Protocol
  import opened Safety
  import opened Transactions
  import opened Guarantees
  import opened Services
  import opened Sweeper

  // ---------- one payment ----------

  /** The answer to a payment, from the row of the order, the clock and the payments table. */
  function PaymentAnswer(row: Order, paid: bool, amount: int, now: int): Outcome {
    match row.status
    case Paid => AlreadyPaid
    case Confirmed => AlreadyPaid
    case Expired => HoldGone
    case Cancelled => OrderCancelled
    case Pending =>
      match row.expiresAt
      case Some(deadline) =>
        if now > deadline then HoldGone
        else if amount != row.total then WrongAmount
        else if paid then AlreadyPaid
        else PaymentDone
      case None => if amount != row.total then WrongAmount else if paid then AlreadyPaid else PaymentDone
  }

  /** The tables after the held tickets of one order, and the order itself, have got a new status. */
  ghost predicate Decided(before: Postgres, o: nat, order: Order, ticket: TicketStatus, after: Postgres) {
    && o < |before.orders| && after.orders == before.orders[o := order]
    && |after.tickets| == |before.tickets|
    && forall i :: 0 <= i < |before.tickets| ==>
         after.tickets[i] == if before.tickets[i].order == o && before.tickets[i].status == Held
                             then before.tickets[i].(status := ticket) else before.tickets[i]
  }

  ghost predicate HasPaid(payments: seq<Payment>, o: nat) {
    exists i :: 0 <= i < |payments| && payments[i].order == o && payments[i].status == Completed
  }

  lemma PaidWhen(payments: seq<Payment>, o: nat)
    ensures HasPaid(payments, o) <==> CompletedCount(payments, o) > 0
  {
    if i :| 0 <= i < |payments| && payments[i].order == o && payments[i].status == Completed {
      SumAtLeast(payments, CompletedFor(o), i);
    } else {
      SumZero(payments, CompletedFor(o));
    }
  }

  lemma IndexAdmits(payments: seq<Payment>, o: nat, amount: int)
    requires PaidOnce(payments)
    ensures PaidOnce(payments + [Payment(o, amount, Completed)]) <==> !HasPaid(payments, o)
  {
    FirstPaymentFits(payments, o, amount);
    PaidWhen(payments, o);
    SumAtLeast(payments, CompletedFor(o), 0);
  }

  /** Every payment of an existing order is answered by its row, the clock and the payments, and nothing else. */
  lemma PaymentAnswered(zones: Zones, db: Postgres, o: nat, amount: int, now: int, net: nat -> Fault, c: nat)
    requires o < |db.orders| && PaidOnce(db.payments)
    ensures PayResult(zones, db, o, amount, now, net, c, true).outcome
         == PaymentAnswer(db.orders[o], HasPaid(db.payments, o), amount, now)
  {
    IndexAdmits(db.payments, o, db.orders[o].total);
  }

  /** Without the order, or without PostgreSQL, nothing happens. */
  lemma PaymentRefused(zones: Zones, db: Postgres, o: nat, amount: int, now: int, net: nat -> Fault, c: nat, up: bool)
    requires !up || o >= |db.orders|
    ensures PayResult(zones, db, o, amount, now, net, c, up)
         == Ending(db, zones, c, if !up then Unavailable else NoSuchOrder, [])
  {}

  /** What a payment writes: the confirmation with its payment, the expiry, or nothing. */
  lemma PaymentWrites(zones: Zones, db: Postgres, o: nat, amount: int, now: int, net: nat -> Fault, c: nat)
    requires o < |db.orders|
    ensures var e := PayResult(zones, db, o, amount, now, net, c, true);
      var row := db.orders[o];
      if e.outcome == PaymentDone then
        && Decided(db, o, row.(status := Confirmed, expiresAt := None), Valid, e.db)
        && e.db.payments == db.payments + [Payment(o, row.total, Completed)]
        && e.db.outbox == db.outbox + [OutboxRow(OrderPaid, o, Queued)]
      else if e.outcome == HoldGone && row.status == Pending then
        && Decided(db, o, row.(status := Expired), Voided, e.db)
        && e.db.payments == db.payments && e.db.outbox == db.outbox + [OutboxRow(HoldExpired, o, Queued)]
      else e.db == db
  {
    var row := db.orders[o];
    assert SetExpired(db.orders, [o]) == db.orders[o := row.(status := Expired)];
    assert ExpiryRows([o]) == [OutboxRow(HoldExpired, o, Queued)];
  }

  // ---------- the ten minutes ----------

  /** An order placed at `placed`, still pending in a later database and not paid: its total is taken up to the last
    second of the ten minutes, and not after. */
  lemma PaidInTime(after: Postgres, o: nat, placed: int, later: Postgres, zones: Zones, now: int, net: nat -> Fault,
                   c: nat)
    requires o < |after.orders| && after.orders[o].status == Pending && after.orders[o].expiresAt == Some(placed + 600)
    requires Linked(later) && Evolves(after, later) && later.orders[o].status == Pending
    requires PaidOnce(later.payments) && CompletedCount(later.payments, o) == 0
    ensures var e := PayResult(zones, later, o, after.orders[o].total, now, net, c, true);
      && e.outcome == (if now <= placed + 600 then PaymentDone else HoldGone)
      && e.db.orders[o].status == (if now <= placed + 600 then Confirmed else Expired)
  {
    assert OrderEvolves(after.orders[o], later.orders[o]);
    PaidWhen(later.payments, o);
    PaymentAnswered(zones, later, o, after.orders[o].total, now, net, c);
    PaymentWrites(zones, later, o, after.orders[o].total, now, net, c);
  }

  /** The sweeper claims no such order within the ten minutes, and after them every one it finds unlocked. */
  lemma SweptInTime(after: Postgres, o: nat, placed: int, later: Postgres, now: int, locked: set<nat>, batch: nat)
    requires o < |after.orders| && after.orders[o].status == Pending && after.orders[o].expiresAt == Some(placed + 600)
    requires Linked(later) && Evolves(after, later) && later.orders[o].status == Pending
    ensures o in Batch(later.orders, now, locked, batch) ==> now > placed + 600
    ensures now > placed + 600 && o !in locked <==> o in Queue(later.orders, now, locked)
  {
    assert OrderEvolves(after.orders[o], later.orders[o]);
    InQueue(later.orders, now, locked, o);
  }

  /** The claim, from the columns: pending orders past their deadline and not locked, earliest deadline first and then
    by id. */
  lemma QueueByDeadline(orders: seq<Order>, now: int, locked: set<nat>)
    ensures var q := Queue(orders, now, locked);
      && (forall o: nat :: o in q <==>
            o < |orders| && o !in locked && orders[o].status == Pending
            && orders[o].expiresAt.Some? && orders[o].expiresAt.value < now)
      && (forall i, j :: 0 <= i < j < |q| ==> EarlierHold(orders, q[i], q[j]))
  {
    QueueIsQueue(orders, now, locked);
    forall o: nat ensures o in Queue(orders, now, locked) <==> Claimable(orders, now, locked, o) {
      InQueue(orders, now, locked, o);
    }
    var q := Queue(orders, now, locked);
    forall i, j | 0 <= i < j < |q| ensures EarlierHold(orders, q[i], q[j]) {
      assert Claimable(orders, now, locked, q[i]) && Claimable(orders, now, locked, q[j]);
      assert Sooner(orders, q[i], q[j]);
    }
  }

  predicate EarlierHold(orders: seq<Order>, a: nat, b: nat) {
    && a < |orders| && b < |orders| && orders[a].expiresAt.Some? && orders[b].expiresAt.Some?
    && var x, y := orders[a].expiresAt.value, orders[b].expiresAt.value;
       x < y || (x == y && a < b)
  }

  /** Over every run: an order placed at `placed` that is still pending is confirmed by its total within the ten minutes
    and expired by any later payment; sweeps leave it alone until then, and claim it afterwards. */
  lemma HoldLastsTenMinutes(start: State, before: seq<Action>, s: State, p: nat, placed: int, actions: seq<Action>,
                            t: State, now: int, net: nat -> Fault, c: nat, locked: set<nat>, batch: nat)
    requires Reachable(start, before, s) && Enabled(s, Write(p, placed))
    requires Step(s, Write(p, placed)).procs[p] == Finished(Placed(|s.db.orders|))
    requires Run(Step(s, Write(p, placed)), actions, t)
    requires |s.db.orders| < |t.db.orders| && t.db.orders[|s.db.orders|].status == Pending
    ensures var o := |s.db.orders|;
      var e := PayResult(t.zones, t.db, o, t.db.orders[o].total, now, net, c, true);
      && e.outcome == (if now <= placed + 600 then PaymentDone else HoldGone)
      && e.db.orders[o].status == (if now <= placed + 600 then Confirmed else Expired)
      && (o in Batch(t.db.orders, now, locked, batch) ==> now > placed + 600)
      && (now > placed + 600 && o !in locked <==> o in Queue(t.db.orders, now, locked))
  {
    var o, m := |s.db.orders|, Step(s, Write(p, placed));
    ReachableInv(start, before, s);
    StepKeeps(s, Write(p, placed));
    RunKeeps(m, actions, t);
    RunEvolves(m, actions, t);
    PlacedHold(s, p, placed);
    assert OrderEvolves(m.db.orders[o], t.db.orders[o]);
    RunPayments(m, actions, t, o);
    SumZero(s.db.payments, CompletedFor(o));
    PaidInTime(m.db, o, placed, t.db, t.zones, now, net, c);
    SweptInTime(m.db, o, placed, t.db, now, locked, batch);
  }

  lemma PlacedHold(s: State, p: nat, placed: int)
    requires Enabled(s, Write(p, placed))
    requires Step(s, Write(p, placed)).procs[p] == Finished(Placed(|s.db.orders|))
    ensures var o, db := |s.db.orders|, Step(s, Write(p, placed)).db;
      && |db.orders| == o + 1 && db.payments == s.db.payments
      && db.orders[o].status == Pending && db.orders[o].expiresAt == Some(placed + 600)
  {}
}
