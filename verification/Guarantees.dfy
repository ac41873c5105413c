/** What the protocol promises over every run: every interleaving, fault and crash of any number of processes. */
module Guarantees {
  import opened Sums
  import opened Store
  import opened Inventory
  import opened Booking
  import opened Protocol
  import opened Safety
  import opened Transactions
  import opened Audit

  /** `t` is reachable from a consistent start. */
  ghost predicate Reachable(s: State, actions: seq<Action>, t: State) { Initial(s) && Run(s, actions, t) }

  lemma ReachableInv(s: State, actions: seq<Action>, t: State)
    requires Reachable(s, actions, t)
    ensures Inv(t)
  {
    InitialInv(s);
    RunKeeps(s, actions, t);
  }

  /** No process is at work. */
  predicate Quiescent(s: State) { forall i :: 0 <= i < |s.procs| ==> s.procs[i].Over() }

  // ---------- seats ----------

  /** Seat conservation; hence never an oversell, whatever crashes. */
  lemma SeatConservation(s: State, actions: seq<Action>, t: State, z: ZoneKey)
    requires Reachable(s, actions, t)
    ensures Booked(t.zones, z) == ActiveSeats(t.db.tickets, z) + InFlightSeats(t.procs, z) + OwedSeats(t.procs, z)
                                  + Seats(t.lost, z) + Seats(t.unreleased, z)
    ensures z in t.zones ==> 0 <= ActiveSeats(t.db.tickets, z) <= t.zones[z].booked <= t.zones[z].capacity
    ensures z !in t.zones ==> ActiveSeats(t.db.tickets, z) == 0
    ensures VoidedSeats(t.db.tickets, z) == Seats(t.returned, z) + OwedSeats(t.procs, z) + Seats(t.unreleased, z)
  {
    ReachableInv(s, actions, t);
    assert BalancedAt(t, z) && SettledAt(t, z);
    BooksCover(t, z);
  }

  lemma BooksCover(t: State, z: ZoneKey)
    requires Inv(t)
    ensures 0 <= ActiveSeats(t.db.tickets, z) <= Booked(t.zones, z)
    ensures InFlightSeats(t.procs, z) >= 0 && OwedSeats(t.procs, z) >= 0
    ensures Seats(t.lost, z) >= 0 && Seats(t.unreleased, z) >= 0 && Seats(t.returned, z) >= 0
  {
    assert BalancedAt(t, z);
    forall gs ensures Seats(gs, z) >= 0 { SeatsNonNegative(gs, z); }
    SumAtLeast(t.procs, FlyingAt(z), 0);
    SumAtLeast(t.procs, OwedAt(z), 0);
    SumAtLeast(t.db.tickets, ActiveAt(z), 0);
  }

  lemma QuietBooks(t: State, z: ZoneKey)
    requires Quiescent(t)
    ensures InFlightSeats(t.procs, z) == 0 && OwedSeats(t.procs, z) == 0
  {
    SumZero(t.procs, FlyingAt(z));
    SumZero(t.procs, OwedAt(z));
  }

  // ---------- the auditor ----------

  lemma NoDuplicates(db: Postgres)
    requires SeatsUnique(db.tickets)
    ensures DuplicateActiveSeats(db) == {}
  {
    forall t | t in db.tickets && t.Active() && t.seat.Some? ensures Sum(db.tickets, SeatIs(t.key, t.seat.value)) <= 1 {
      if Sum(db.tickets, SeatIs(t.key, t.seat.value)) > 1 {
        var i, j := SumTwo(db.tickets, SeatIs(t.key, t.seat.value));
      }
    }
  }

  /** With at most one completed payment an order, having one is a count of one. */
  lemma CompletedIsOne(db: Postgres, o: nat)
    requires PaidOnce(db.payments)
    ensures CompletedCount(db.payments, o) == if HasCompleted(db, o) then 1 else 0
  {
    SumAtLeast(db.payments, CompletedFor(o), 0);
    if HasCompleted(db, o) {
      var i :| 0 <= i < |db.payments| && db.payments[i].order == o && db.payments[i].status == Completed;
      SumAtLeast(db.payments, CompletedFor(o), i);
    } else {
      SumZero(db.payments, CompletedFor(o));
    }
    if CompletedCount(db.payments, o) > 1 {
      var i, j := SumTwo(db.payments, CompletedFor(o));
      assert false;
    }
  }

  lemma TablesGreen(db: Postgres)
    requires TablesOk(db)
    ensures PostgresGreen(db)
  {
    NoDuplicates(db);
    forall o: nat
      ensures CompletedCount(db.payments, o) == (if HasCompleted(db, o) then 1 else 0)
      ensures o < |db.orders| ==> PaidUp(db, o)
    {
      CompletedIsOne(db, o);
    }
    forall t | t in db.tickets ensures StatusFits(db.orders[t.order].status, t.status) {
      var i :| 0 <= i < |db.tickets| && db.tickets[i] == t;
    }
  }

  // ---------- a green audit is a consistent start ----------

  /** What the schema enforces: foreign keys and unique indexes. */
  predicate SchemaHolds(db: Postgres) {
    Linked(db) && KeysUnique(db.orders) && SeatsUnique(db.tickets) && PaidOnce(db.payments)
  }

  lemma GreenTables(db: Postgres)
    requires SchemaHolds(db) && PostgresGreen(db)
    ensures TablesOk(db)
  {
    forall i | 0 <= i < |db.tickets| ensures StatusFits(db.orders[db.tickets[i].order].status, db.tickets[i].status) {
      var t := db.tickets[i];
      assert t.order !in DeadOrderWithActiveTickets(db) && t.order !in TicketStateMismatch(db);
    }
    forall o: nat | o < |db.orders| ensures PaidUp(db, o) && db.orders[o].total == TicketTotal(db.tickets, o) {
      assert o !in ConfirmedWithoutPayment(db) && o !in PaymentAmountMismatch(db) && o !in OrderTotalMismatch(db);
      CompletedIsOne(db, o);
    }
  }

  function VoidedGroups(tickets: seq<Ticket>): seq<Group> {
    if tickets == [] then []
    else (if tickets[0].status == Voided then [Group(tickets[0].key, 1)] else []) + VoidedGroups(tickets[1..])
  }

  lemma {:induction false} VoidedGroupsCount(tickets: seq<Ticket>, z: ZoneKey)
    ensures Seats(VoidedGroups(tickets), z) == VoidedSeats(tickets, z)
  {
    if tickets != [] {
      VoidedGroupsCount(tickets[1..], z);
      var first := if tickets[0].status == Voided then [Group(tickets[0].key, 1)] else [];
      SeatsConcat(first, VoidedGroups(tickets[1..]), z);
    }
  }

  /** The state a server finds when it starts: nobody at work, and cancelled seats already back. */
  function Startup(catalog: Catalog, users: set<int>, zones: Zones, db: Postgres): State {
    State(catalog, users, zones, db, [], [], [], VoidedGroups(db.tickets))
  }

  /** Any databases that pass the audit are a start from which all of the guarantees hold: seeded or in service for
    years, whatever the outbox still contains. */
  lemma GreenStart(catalog: Catalog, users: set<int>, zones: Zones, db: Postgres)
    requires CatalogOk(catalog, zones) && SchemaHolds(db) && PostgresGreen(db)
    requires InventoryGreen(zones, db.tickets)
    ensures Initial(Startup(catalog, users, zones, db))
  {
    var s := Startup(catalog, users, zones, db);
    GreenTables(db);
    InventoryChecksExact(zones, db.tickets);
    forall z ensures BalancedAt(s, z) && SettledAt(s, z) {
      VoidedGroupsCount(db.tickets, z);
      ActiveSeatsCount(db.tickets, z);
      assert z !in UnknownZone(zones, db.tickets);
    }
    forall z | z in zones ensures ZoneValid(zones[z]) {
      ActiveSeatsCount(db.tickets, z);
    }
  }

  /** In every reachable state the audit finds at most lost sales: all seven PostgreSQL checks and five of the six
    inventory checks report nothing. */
  lemma AuditorStaysGreen(s: State, actions: seq<Action>, t: State)
    requires Reachable(s, actions, t)
    ensures PostgresGreen(t.db)
    ensures NegativeCount(t.zones) == {} && MongoOverCapacity(t.zones) == {}
    ensures PgOverCapacity(t.zones, t.db.tickets) == {} && DriftBelow(t.zones, t.db.tickets) == {}
    ensures UnknownZone(t.zones, t.db.tickets) == {}
  {
    ReachableInv(s, actions, t);
    TablesGreen(t.db);
    forall k | k in ActiveKeys(t.db.tickets) ensures k in t.zones {
      var i :| 0 <= i < |t.db.tickets| && t.db.tickets[i].Active() && t.db.tickets[i].key == k;
      ActiveKnown(t, i);
    }
    forall z | z in t.zones
      ensures 0 <= ActiveSeats(t.db.tickets, z) <= t.zones[z].booked <= t.zones[z].capacity
    {
      BooksCover(t, z);
    }
  }

  // ---------- the safety nets ----------

  /** A reservation that reaches MongoDB is never refused by the validator. */
  lemma ReserveNeverRefused(t: State, p: nat)
    requires Inv(t) && Enabled(t, Reserve(p, Fine))
    ensures var g := t.procs[p].todo[0];
            ReplyOf(t.zones, g.key, RoomFor(t.zones, g), g.quantity, Fine) != Raised
  {
    assert ProcOk(t.db, t.zones, t.procs[p]);
    var g := t.procs[p].todo[0];
    assert ZoneValidAt(t.zones, g.key);
    if g.key in t.zones && RoomFor(t.zones, g).Holds(t.zones[g.key].booked) {
      InRangeAccepted(t.zones, g.key, RoomFor(t.zones, g), g.quantity);
    }
  }

  predicate ZoneValidAt(zones: Zones, k: ZoneKey) { k in zones ==> ZoneValid(zones[k]) }

  /** A compensation always finds its seats in the counter. */
  lemma UndoAlwaysCovered(t: State, p: nat)
    requires Inv(t) && Enabled(t, Undo(p, Fine))
    ensures var g := t.procs[p].owed[0];
            ReplyOf(t.zones, g.key, AnyCount, -(g.quantity as int), Fine) == Count(1)
  {
    var g := t.procs[p].owed[0];
    assert ProcOk(t.db, t.zones, t.procs[p]);
    assert ZoneValidAt(t.zones, g.key);
    CounterCovers(t, p, g.key);
    SeatsNonNegative(t.procs[p].owed, g.key);
    InRangeAccepted(t.zones, g.key, AnyCount, -(g.quantity as int));
  }

  /** The guard of a release always succeeds. */
  lemma ReleaseAlwaysCovered(t: State, p: nat)
    requires Inv(t) && Enabled(t, Release(p, Fine))
    ensures t.procs[p].Releasing?
    ensures var g := t.procs[p].owed[0];
            ReplyOf(t.zones, g.key, AtLeast(g.quantity), -(g.quantity as int), Fine) == Count(1)
  {
    ReleaseShape(t, p, Fine);
    ReleaseGuardHolds(t, p);
    DecrementAccepted(t.zones, t.procs[p].owed[0].key, t.procs[p].owed[0].quantity);
  }

  /** The orders that have a completed payment. */
  function PaidOrders(db: Postgres): set<nat> { set o: nat | o < |db.orders| && HasCompleted(db, o) }

  /** The partial unique index never refuses the payment of a pending order that has none. */
  lemma PaymentNeverDoubled(t: State, p: nat, now: int)
    requires Inv(t) && Enabled(t, Pay(p, now)) && t.procs[p].order !in PaidOrders(t.db)
    ensures PaidOnce(t.db.payments + [Payment(t.procs[p].order, t.procs[p].row.total, Completed)])
  {
    CompletedIsOne(t.db, t.procs[p].order);
    FirstPaymentFits(t.db.payments, t.procs[p].order, t.procs[p].row.total);
  }

  /** What must not happen when an enabled action runs, if the safety nets are never needed; the orders in `paid` had
    been paid before they were decided. */
  predicate NetUnused(paid: set<nat>, t: State, a: Action)
    requires Enabled(t, a)
  {
    match a
    case Reserve(p, _) =>
      var g := t.procs[p].todo[0];
      ReplyOf(t.zones, g.key, RoomFor(t.zones, g), g.quantity, Fine) != Raised
    case Undo(p, _) =>
      var g := t.procs[p].owed[0];
      ReplyOf(t.zones, g.key, AnyCount, -(g.quantity as int), Fine) == Count(1)
    case Release(p, _) =>
      t.procs[p].Releasing?
      && var g := t.procs[p].owed[0];
         ReplyOf(t.zones, g.key, AtLeast(g.quantity), -(g.quantity as int), Fine) == Count(1)
    case Pay(p, now) =>
      var q := t.procs[p];
      q.row.status == Pending && q.order !in paid ==>
        PaidOnce(t.db.payments + [Payment(q.order, q.row.total, Completed)])
    case _ => true
  }

  /** A call that reaches MongoDB is never refused by the validator, undo and release always find their seats, the
    one-seat-at-a-time fallback is never entered, and the double-charge index never fires but for orders that came
    into the run pending and paid. */
  lemma SafetyNetsNeverNeeded(s: State, actions: seq<Action>, t: State, a: Action)
    requires Reachable(s, actions, t) && Enabled(t, a)
    ensures NetUnused(PaidOrders(s.db), t, a)
    ensures forall i :: 0 <= i < |t.procs| ==> !t.procs[i].ReleasingOne?
  {
    ReachableInv(s, actions, t);
    assert forall i :: 0 <= i < |t.procs| ==> ProcOk(t.db, t.zones, t.procs[i]);
    NetUnusedIn(t, a);
    if a.Pay? && t.procs[a.p].row.status == Pending && t.procs[a.p].order !in PaidOrders(s.db) {
      InitialInv(s);
      RunPayments(s, actions, t, t.procs[a.p].order);
      CompletedIsOne(s.db, t.procs[a.p].order);
      CompletedIsOne(t.db, t.procs[a.p].order);
    }
  }

  lemma NetUnusedIn(t: State, a: Action)
    requires Inv(t) && Enabled(t, a)
    ensures NetUnused(PaidOrders(t.db), t, a)
  {
    match a
    case Reserve(p, _) => ReserveNeverRefused(t, p);
    case Undo(p, _) => UndoAlwaysCovered(t, p);
    case Release(p, _) => ReleaseAlwaysCovered(t, p);
    case Pay(p, now) => if t.procs[p].order !in PaidOrders(t.db) { PaymentNeverDoubled(t, p, now); }
    case _ =>
  }

  // ---------- pay vs expire vs sweep ----------

  /** The status a ticket that was held has once its order has this status. */
  function Fate(order: OrderStatus): TicketStatus {
    match order
    case Confirmed => Valid
    case Expired => Voided
    case _ => Held
  }

  /** What may happen to an existing order, and to an existing ticket whose order now has status `now`. */
  predicate OrderEvolves(a: Order, b: Order) {
    && b.user == a.user && b.total == a.total && b.key == a.key
    && if a.status == Pending then b.status in {Pending, Confirmed, Expired} && (b.status == Pending ==> b == a)
       else b == a
  }

  predicate TicketEvolves(a: Ticket, b: Ticket, now: OrderStatus) {
    b == a.(status := if a.status == Held then Fate(now) else a.status)
  }

  ghost predicate Evolves(a: Postgres, b: Postgres)
    requires Linked(b)
  {
    && |a.orders| <= |b.orders| && |a.tickets| <= |b.tickets| && a.payments <= b.payments
    && (forall o :: 0 <= o < |a.orders| ==> OrderEvolves(a.orders[o], b.orders[o]))
    && (forall i :: |a.tickets| <= i < |b.tickets| ==> b.tickets[i].order >= |a.orders|)
    && (forall i :: 0 <= i < |a.tickets| ==>
          TicketEvolves(a.tickets[i], b.tickets[i], b.orders[b.tickets[i].order].status))
  }

  /** Nothing moved: held tickets belong to pending orders. */
  lemma SameRowsEvolve(a: Postgres, b: Postgres)
    requires Linked(a) && Linked(b) && StatusesFit(a)
    requires a.orders <= b.orders && a.tickets <= b.tickets && a.payments <= b.payments
    requires forall i :: |a.tickets| <= i < |b.tickets| ==> b.tickets[i].order >= |a.orders|
    ensures Evolves(a, b)
  {
    forall i | 0 <= i < |a.tickets|
      ensures TicketEvolves(a.tickets[i], b.tickets[i], b.orders[b.tickets[i].order].status)
    {
      assert StatusFits(a.orders[a.tickets[i].order].status, a.tickets[i].status);
      assert b.tickets[i] == a.tickets[i];
    }
  }

  lemma ExpiryEvolves(db: Postgres, ids: seq<nat>)
    requires Linked(db) && StatusesFit(db) && Linked(ExpireOrders(db, ids))
    requires forall i :: 0 <= i < |ids| ==> ids[i] < |db.orders| && db.orders[ids[i]].status == Pending
    ensures Evolves(db, ExpireOrders(db, ids))
  {
    var t := ExpireOrders(db, ids);
    forall i | 0 <= i < |db.tickets|
      ensures TicketEvolves(db.tickets[i], t.tickets[i], t.orders[t.tickets[i].order].status)
    {
      assert StatusFits(db.orders[db.tickets[i].order].status, db.tickets[i].status);
      assert t.tickets[i] == Moved(db.tickets[i], ids, Voided);
    }
  }

  lemma ConfirmEvolves(db: Postgres, o: nat)
    requires Linked(db) && StatusesFit(db) && o < |db.orders| && db.orders[o].status == Pending
    requires Linked(ConfirmOrder(db, o, db.orders[o]))
    ensures Evolves(db, ConfirmOrder(db, o, db.orders[o]))
  {
    var t := ConfirmOrder(db, o, db.orders[o]);
    forall i | 0 <= i < |db.tickets|
      ensures TicketEvolves(db.tickets[i], t.tickets[i], t.orders[t.tickets[i].order].status)
    {
      assert StatusFits(db.orders[db.tickets[i].order].status, db.tickets[i].status);
      assert t.tickets[i] == Moved(db.tickets[i], [o], Valid);
    }
  }

  /** Only three steps write order rows: all others leave them alone. */
  lemma OtherStepsKeepTables(s: State, a: Action)
    requires Enabled(s, a) && !a.Write? && !a.Pay? && !a.Sweep?
    ensures Step(s, a).db.(outbox := s.db.outbox) == s.db
  {}

  /** A payment step writes nothing, an expiry, or a confirmation of the pending row it has locked. */
  lemma PayWrites(s: State, p: nat, now: int)
    requires ProcsOk(s.db, s.zones, s.procs) && Enabled(s, Pay(p, now))
    ensures var o, db := s.procs[p].order, Step(s, Pay(p, now)).db;
      db == s.db || (s.db.orders[o].status == Pending
                     && (db == ExpireOrders(s.db, [o]) || db == ConfirmOrder(s.db, o, s.db.orders[o])))
  {
    assert ProcOk(s.db, s.zones, s.procs[p]);
  }

  lemma WriteEvolves(s: State, p: nat, now: int)
    requires TablesOk(s.db) && Enabled(s, Write(p, now)) && Linked(Step(s, Write(p, now)).db)
    ensures Evolves(s.db, Step(s, Write(p, now)).db)
  {
    SameRowsEvolve(s.db, Step(s, Write(p, now)).db);
  }

  lemma PayEvolves(s: State, p: nat, now: int)
    requires Inv(s) && Enabled(s, Pay(p, now)) && Linked(Step(s, Pay(p, now)).db)
    ensures Evolves(s.db, Step(s, Pay(p, now)).db)
  {
    var q := s.procs[p];
    var db := Step(s, Pay(p, now)).db;
    PayWrites(s, p, now);
    if db == s.db {
      SameRowsEvolve(s.db, db);
    } else if db == ExpireOrders(s.db, [q.order]) {
      ExpiryEvolves(s.db, [q.order]);
    } else {
      ConfirmEvolves(s.db, q.order);
    }
  }

  lemma StepEvolves(s: State, a: Action)
    requires Inv(s) && Enabled(s, a) && Linked(Step(s, a).db)
    ensures Evolves(s.db, Step(s, a).db)
  {
    if a.Sweep? {
      assert ProcOk(s.db, s.zones, s.procs[a.p]);
      ExpiryEvolves(s.db, s.procs[a.p].ids);
    } else if a.Pay? {
      PayEvolves(s, a.p, a.now);
    } else if a.Write? {
      WriteEvolves(s, a.p, a.now);
    } else {
      OtherStepsKeepTables(s, a);
      SameRowsEvolve(s.db, Step(s, a).db);
    }
  }

  lemma EvolvesTransitive(a: Postgres, b: Postgres, c: Postgres)
    requires Linked(a) && Linked(b) && Linked(c) && Evolves(a, b) && Evolves(b, c)
    ensures Evolves(a, c)
  {
    forall i | 0 <= i < |a.tickets|
      ensures TicketEvolves(a.tickets[i], c.tickets[i], c.orders[c.tickets[i].order].status)
    {
      assert TicketEvolves(a.tickets[i], b.tickets[i], b.orders[b.tickets[i].order].status);
      assert TicketEvolves(b.tickets[i], c.tickets[i], c.orders[c.tickets[i].order].status);
      assert OrderEvolves(b.orders[b.tickets[i].order], c.orders[b.tickets[i].order]);
    }
  }

  lemma {:induction false} RunEvolves(s: State, actions: seq<Action>, t: State)
    requires Inv(s) && Run(s, actions, t)
    ensures Linked(t.db) && Evolves(s.db, t.db)
    decreases |actions|
  {
    RunKeeps(s, actions, t);
    if actions == [] {
      SameRowsEvolve(s.db, t.db);
    } else {
      var m := Step(s, actions[0]);
      StepKeeps(s, actions[0]);
      StepEvolves(s, actions[0]);
      RunEvolves(m, actions[1..], t);
      EvolvesTransitive(s.db, m.db, t.db);
    }
  }

  /** Whoever wins the row lock decides: between any two points of a run an order leaves `pending` at most once, to
    confirmed or expired, and for good; its held tickets become valid or cancelled accordingly and then stay so. With
    SeatConservation, whose last clause counts a cancelled ticket's seat once as returned, owed or written off, an
    order's seats are released at most once and never after confirmation. */
  lemma OutcomeIsFinal(s: State, before: seq<Action>, m: State, after: seq<Action>, t: State, o: nat)
    requires Reachable(s, before, m) && Run(m, after, t) && o < |m.db.orders|
    ensures o < |t.db.orders|
    ensures m.db.orders[o].status == Pending ==> t.db.orders[o].status in {Pending, Confirmed, Expired}
    ensures m.db.orders[o].status != Pending ==> t.db.orders[o] == m.db.orders[o]
    ensures |m.db.tickets| <= |t.db.tickets|
    ensures forall i :: 0 <= i < |m.db.tickets| && m.db.tickets[i].order == o ==>
              t.db.tickets[i] == m.db.tickets[i].(status := if m.db.tickets[i].status == Held
                                                            then Fate(t.db.orders[o].status)
                                                            else m.db.tickets[i].status)
  {
    ReachableInv(s, before, m);
    RunEvolves(m, after, t);
    RunKeeps(m, after, t);
    assert OrderEvolves(m.db.orders[o], t.db.orders[o]);
    forall i | 0 <= i < |m.db.tickets| && m.db.tickets[i].order == o
      ensures TicketEvolves(m.db.tickets[i], t.db.tickets[i], t.db.orders[o].status)
    {
      assert TicketEvolves(m.db.tickets[i], t.db.tickets[i], t.db.orders[t.db.tickets[i].order].status);
    }
  }

  // ---------- money ----------

  /** The tickets from place n on are for zones of the catalog, at the catalog price. */
  predicate PricedFrom(db: Postgres, zones: Zones, n: nat) {
    forall i :: n <= i < |db.tickets| ==>
      db.tickets[i].key in zones && db.tickets[i].price == zones[db.tickets[i].key].price
  }

  lemma StepSameZones(s: State, a: Action)
    requires Enabled(s, a)
    ensures SameZones(s.zones, Step(s, a).zones)
  {
    match a
    case Reserve(p, fault) =>
      var g := s.procs[p].todo[0];
      CallEffect(s.zones, g.key, RoomFor(s.zones, g), g.quantity, fault);
    case Undo(p, fault) =>
      var g := s.procs[p].owed[0];
      CallEffect(s.zones, g.key, AnyCount, -(g.quantity as int), fault);
    case Release(p, fault) => ReleaseSameZones(s, p, fault);
    case _ =>
  }

  lemma ReleaseSameZones(s: State, p: nat, fault: Fault)
    requires Enabled(s, Release(p, fault))
    ensures SameZones(s.zones, Step(s, Release(p, fault)).zones)
  {
    if s.procs[p].Releasing? {
      var g := s.procs[p].owed[0];
      CallEffect(s.zones, g.key, AtLeast(g.quantity), -(g.quantity as int), fault);
    } else {
      SingleSameZones(s, p, fault);
    }
  }

  lemma SingleSameZones(s: State, p: nat, fault: Fault)
    requires Enabled(s, Release(p, fault)) && s.procs[p].ReleasingOne?
    ensures SameZones(s.zones, Step(s, Release(p, fault)).zones)
  {
    CallEffect(s.zones, s.procs[p].key, AtLeast(1), -1, fault);
  }

  lemma WritePrices(s: State, p: nat, now: int, n: nat)
    requires ProcsOk(s.db, s.zones, s.procs) && Enabled(s, Write(p, now)) && PricedFrom(s.db, s.zones, n)
    ensures PricedFrom(Step(s, Write(p, now)).db, s.zones, n)
  {
    assert ProcOk(s.db, s.zones, s.procs[p]);
  }

  lemma StepPrices(s: State, a: Action, n: nat)
    requires Inv(s) && Enabled(s, a) && PricedFrom(s.db, s.zones, n)
    ensures PricedFrom(Step(s, a).db, Step(s, a).zones, n)
  {
    StepSameZones(s, a);
    if a.Write? {
      WritePrices(s, a.p, a.now, n);
    } else if a.Pay? {
      PayPrices(s, a.p, a.now, n);
    } else if !a.Sweep? {
      OtherStepsKeepTables(s, a);
    }
  }

  lemma PayPrices(s: State, p: nat, now: int, n: nat)
    requires ProcsOk(s.db, s.zones, s.procs) && Enabled(s, Pay(p, now)) && PricedFrom(s.db, s.zones, n)
    ensures PricedFrom(Step(s, Pay(p, now)).db, s.zones, n)
  {
    PayWrites(s, p, now);
  }

  lemma {:induction false} RunPrices(s: State, actions: seq<Action>, t: State, n: nat)
    requires Inv(s) && Run(s, actions, t) && PricedFrom(s.db, s.zones, n)
    ensures PricedFrom(t.db, t.zones, n)
    decreases |actions|
  {
    if actions != [] {
      StepKeeps(s, actions[0]);
      StepPrices(s, actions[0], n);
      RunPrices(Step(s, actions[0]), actions[1..], t, n);
    }
  }

  // ---------- payments ----------

  /** The payments from place n on are for confirmed orders. */
  predicate ConfirmedFrom(db: Postgres, n: nat) {
    forall i :: n <= i < |db.payments| ==>
      db.payments[i].order < |db.orders| && db.orders[db.payments[i].order].status == Confirmed
  }

  lemma StepConfirms(s: State, a: Action, n: nat)
    requires Inv(s) && Enabled(s, a) && ConfirmedFrom(s.db, n)
    ensures ConfirmedFrom(Step(s, a).db, n)
  {
    if a.Pay? {
      PayConfirms(s, a.p, a.now, n);
    } else if a.Sweep? {
      SweepConfirms(s, a.p, n);
    } else if !a.Write? {
      OtherStepsKeepTables(s, a);
    }
  }

  lemma PayConfirms(s: State, p: nat, now: int, n: nat)
    requires ProcsOk(s.db, s.zones, s.procs) && Enabled(s, Pay(p, now)) && ConfirmedFrom(s.db, n)
    ensures ConfirmedFrom(Step(s, Pay(p, now)).db, n)
  {
    PayWrites(s, p, now);
  }

  lemma SweepConfirms(s: State, p: nat, n: nat)
    requires ProcsOk(s.db, s.zones, s.procs) && Enabled(s, Sweep(p)) && ConfirmedFrom(s.db, n)
    ensures ConfirmedFrom(Step(s, Sweep(p)).db, n)
  {
    assert ProcOk(s.db, s.zones, s.procs[p]);
  }

  lemma {:induction false} RunConfirms(s: State, actions: seq<Action>, t: State, n: nat)
    requires Inv(s) && Run(s, actions, t) && ConfirmedFrom(s.db, n)
    ensures ConfirmedFrom(t.db, n)
    decreases |actions|
  {
    if actions != [] {
      StepKeeps(s, actions[0]);
      StepConfirms(s, actions[0], n);
      RunConfirms(Step(s, actions[0]), actions[1..], t, n);
    }
  }

  /** Only a confirmation adds a completed payment to an order. */
  lemma RunPayments(s: State, actions: seq<Action>, t: State, o: nat)
    requires Inv(s) && Run(s, actions, t) && o < |t.db.orders| && t.db.orders[o].status != Confirmed
    ensures CompletedCount(t.db.payments, o) == CompletedCount(s.db.payments, o)
  {
    var n := |s.db.payments|;
    RunEvolves(s, actions, t);
    RunConfirms(s, actions, t, n);
    assert t.db.payments == s.db.payments + t.db.payments[n..];
    SumAppend(s.db.payments, t.db.payments[n..], CompletedFor(o));
    SumZero(t.db.payments[n..], CompletedFor(o));
  }

  /** No order that is still open, or expired, has a completed payment. */
  predicate UndecidedUnpaid(db: Postgres) {
    forall o :: 0 <= o < |db.orders| && (db.orders[o].status == Pending || db.orders[o].status == Expired) ==>
      !HasCompleted(db, o)
  }

  /** No order ever has two completed payments; a confirmed order has one, any other what it had at the start; a
    completed payment's amount is the order's total, the sum of its ticket prices; and in an order placed during the run
    each ticket has the catalog price of its zone. */
  lemma MoneyLedger(s: State, actions: seq<Action>, t: State, o: nat)
    requires Reachable(s, actions, t) && o < |t.db.orders|
    ensures 0 <= CompletedCount(t.db.payments, o) <= 1
    ensures CompletedCount(t.db.payments, o)
         == if t.db.orders[o].status == Confirmed then 1 else CompletedCount(s.db.payments, o)
    ensures UndecidedUnpaid(s.db) && t.db.orders[o].status in {Pending, Confirmed, Expired} ==>
              (CompletedCount(t.db.payments, o) == 1 <==> t.db.orders[o].status == Confirmed)
    ensures forall i | 0 <= i < |t.db.payments| && t.db.payments[i].order == o ::
              t.db.payments[i].status == Completed ==>
              t.db.payments[i].amount == t.db.orders[o].total == TicketTotal(t.db.tickets, o)
    ensures o >= |s.db.orders| ==> forall i :: 0 <= i < |t.db.tickets| && t.db.tickets[i].order == o ==>
              t.db.tickets[i].key in t.zones && t.db.tickets[i].price == t.zones[t.db.tickets[i].key].price
  {
    ReachableInv(s, actions, t);
    assert PaidUp(t.db, o);
    CompletedIsOne(t.db, o);
    forall i | 0 <= i < |t.db.payments| && t.db.payments[i].order == o && t.db.payments[i].status == Completed
      ensures t.db.payments[i].amount == t.db.orders[o].total
    {
      OnlyPayment(t.db.payments, o, i);
    }
    InitialInv(s);
    if t.db.orders[o].status != Confirmed {
      RunPayments(s, actions, t, o);
      if UndecidedUnpaid(s.db) && t.db.orders[o].status in {Pending, Expired} { StartUnpaid(s, actions, t, o); }
    }
    if o >= |s.db.orders| {
      RunPrices(s, actions, t, |s.db.tickets|);
      NewTicketsOfNewOrders(s, actions, t);
    }
  }

  lemma StartUnpaid(s: State, actions: seq<Action>, t: State, o: nat)
    requires Inv(s) && Run(s, actions, t) && UndecidedUnpaid(s.db)
    requires o < |t.db.orders| && t.db.orders[o].status in {Pending, Expired}
    ensures CompletedCount(s.db.payments, o) == 0
  {
    RunEvolves(s, actions, t);
    CompletedIsOne(s.db, o);
    if o < |s.db.orders| { assert OrderEvolves(s.db.orders[o], t.db.orders[o]); }
  }

  /** The tickets of orders placed in the run come after those that were there. */
  lemma NewTicketsOfNewOrders(s: State, actions: seq<Action>, t: State)
    requires Inv(s) && Run(s, actions, t)
    ensures forall i :: 0 <= i < |t.db.tickets| && t.db.tickets[i].order >= |s.db.orders| ==> i >= |s.db.tickets|
  {
    RunEvolves(s, actions, t);
    forall i | 0 <= i < |t.db.tickets| && i < |s.db.tickets| ensures t.db.tickets[i].order < |s.db.orders| {
      assert TicketEvolves(s.db.tickets[i], t.db.tickets[i], t.db.orders[t.db.tickets[i].order].status);
    }
  }

  /** A single completed payment is the whole paid amount. */
  lemma {:induction false} OnlyPayment(payments: seq<Payment>, o: nat, i: nat)
    requires PaidOnce(payments) && i < |payments| && payments[i].order == o && payments[i].status == Completed
    ensures PaidAmount(payments, o) == payments[i].amount
  {
    var rest := payments[1..];
    assert forall j :: 0 <= j < |rest| ==> rest[j] == payments[j + 1];
    if i == 0 {
      SumZero(rest, AmountFor(o));
    } else {
      OnlyPayment(rest, o, i - 1);
    }
  }
}
