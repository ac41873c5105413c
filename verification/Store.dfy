/** The two databases: PostgreSQL tables with their constraints, and MongoDB zone counters.

  Money is in whole hundredths. An order's id is its position in the orders table; rows are never deleted.
  Times are seconds. */
module Store {
  import opened Wrappers
  import opened Sums

  datatype ZoneKey = ZoneKey(event: string, zone: string)

  /** One element of an event document's `zones` array. */
  datatype Zone = Zone(capacity: nat, price: nat, booked: int)

  /** A number of seats in one zone: a reservation to undo, or a release still owed. */
  datatype Group = Group(key: ZoneKey, quantity: nat)

  /** A validated ticket request, priced from the catalog. */
  datatype Line = Line(key: ZoneKey, seat: Option<string>, price: nat)

  // status columns: Voided is 'cancelled', Awaiting 'pending', Declined 'failed', Returned 'refunded', Queued
  // 'pending', Undeliverable 'failed'; event kinds SEAT_HELD, ORDER_PAID, SEAT_HOLD_EXPIRED, and what other programs
  // wrote
  datatype OrderStatus = Pending | Paid | Confirmed | Expired | Cancelled
  datatype TicketStatus = Held | Valid | Used | Refunded | Voided
  datatype PaymentStatus = Awaiting | Completed | Declined | Returned
  datatype EventKind = SeatHeld | OrderPaid | HoldExpired | OtherEvent(name: string)
  datatype Delivery = Queued | Processed | Undeliverable

  datatype Order = Order(user: int, total: int, status: OrderStatus, expiresAt: Option<int>, key: Option<string>)
  datatype Ticket = Ticket(order: nat, key: ZoneKey, seat: Option<string>, price: int, status: TicketStatus) {
    predicate Active() { status == Held || status == Valid }
  }
  datatype Payment = Payment(order: nat, amount: int, status: PaymentStatus)
  datatype OutboxRow = OutboxRow(kind: EventKind, order: nat, delivery: Delivery)

  datatype Postgres = Postgres(
    orders: seq<Order>, tickets: seq<Ticket>, payments: seq<Payment>, outbox: seq<OutboxRow>)

  /** A seat hold lasts ten minutes. */
  const HOLD_SECONDS := 600

  // ---------- counting ----------

  function Ind(b: bool): int { if b then 1 else 0 }

  function QuantityAt(z: ZoneKey): Group -> int { (g: Group) => if g.key == z then g.quantity else 0 }
  function Seats(groups: seq<Group>, z: ZoneKey): int { Sum(groups, QuantityAt(z)) }

  function ActiveAt(z: ZoneKey): Ticket -> int { (t: Ticket) => Ind(t.Active() && t.key == z) }
  function ActiveSeats(tickets: seq<Ticket>, z: ZoneKey): int { Sum(tickets, ActiveAt(z)) }

  function VoidedAt(z: ZoneKey): Ticket -> int { (t: Ticket) => Ind(t.status == Voided && t.key == z) }
  function VoidedSeats(tickets: seq<Ticket>, z: ZoneKey): int { Sum(tickets, VoidedAt(z)) }

  function KeyIs(z: ZoneKey): ZoneKey -> int { (k: ZoneKey) => Ind(k == z) }
  function Occurrences(keys: seq<ZoneKey>, z: ZoneKey): int { Sum(keys, KeyIs(z)) }

  function PriceIn(o: nat): Ticket -> int { (t: Ticket) => if t.order == o then t.price else 0 }
  function TicketTotal(tickets: seq<Ticket>, o: nat): int { Sum(tickets, PriceIn(o)) }

  function LinePrice(): Line -> int { (l: Line) => l.price }
  function LineTotal(lines: seq<Line>): int { Sum(lines, LinePrice()) }

  function CompletedFor(o: nat): Payment -> int { (p: Payment) => Ind(p.order == o && p.status == Completed) }
  function CompletedCount(payments: seq<Payment>, o: nat): int { Sum(payments, CompletedFor(o)) }

  function AmountFor(o: nat): Payment -> int {
    (p: Payment) => if p.order == o && p.status == Completed then p.amount else 0
  }
  function PaidAmount(payments: seq<Payment>, o: nat): int { Sum(payments, AmountFor(o)) }

  lemma SeatsNonNegative(groups: seq<Group>, z: ZoneKey)
    ensures Seats(groups, z) >= 0
    ensures groups != [] && groups[0].key == z ==> Seats(groups, z) >= groups[0].quantity
  {
    SumAtLeast(groups, QuantityAt(z), 0);
  }

  lemma SeatsSnoc(groups: seq<Group>, g: Group, z: ZoneKey)
    ensures Seats(groups + [g], z) == Seats(groups, z) + QuantityAt(z)(g)
  {
    SumAppend(groups, [g], QuantityAt(z));
    assert [g][1..] == [];
  }

  // ---------- constraints a COMMIT must meet (unique and partial unique indexes) ----------

  predicate KeysUnique(orders: seq<Order>) {
    forall i, j :: 0 <= i < j < |orders| && orders[i].key.Some? ==> orders[i].key != orders[j].key
  }

  predicate SameActiveSeat(a: Ticket, b: Ticket) {
    a.Active() && b.Active() && a.seat.Some? && a.seat == b.seat && a.key == b.key
  }

  predicate SeatsUnique(tickets: seq<Ticket>) {
    forall i, j :: 0 <= i < j < |tickets| ==> !SameActiveSeat(tickets[i], tickets[j])
  }

  predicate PaidOnce(payments: seq<Payment>) {
    forall i, j :: 0 <= i < j < |payments| && payments[i].status == Completed && payments[j].status == Completed
      ==> payments[i].order != payments[j].order
  }

  /** The order that carries an idempotency key, if any. */
  function FindKey(orders: seq<Order>, key: string): (found: Option<nat>)
    ensures found.Some? ==> found.value < |orders| && orders[found.value].key == Some(key)
    ensures found.None? ==> forall i :: 0 <= i < |orders| ==> orders[i].key != Some(key)
  {
    if orders == [] then None
    else if orders[|orders| - 1].key == Some(key) then Some(|orders| - 1)
    else FindKey(orders[..|orders| - 1], key)
  }

  // ---------- the three write transactions ----------

  datatype Violation = KeyTaken | NoSuchUser | SeatTaken

  function NewTicket(o: nat, l: Line): Ticket { Ticket(o, l.key, l.seat, l.price, Held) }

  function NewTickets(o: nat, lines: seq<Line>): (ts: seq<Ticket>)
    ensures |ts| == |lines|
    ensures forall i :: 0 <= i < |lines| ==> ts[i] == NewTicket(o, lines[i])
  {
    seq(|lines|, i requires 0 <= i < |lines| => NewTicket(o, lines[i]))
  }

  /** INSERT order, INSERT tickets, INSERT outbox, COMMIT. The order row's own constraints are checked first. */
  function InsertOrder(db: Postgres, users: set<int>, user: int, key: Option<string>, lines: seq<Line>, now: int)
    : Result<Postgres, Violation>
  {
    var id := |db.orders|;
    var tickets := db.tickets + NewTickets(id, lines);
    if key.Some? && FindKey(db.orders, key.value).Some? then Err(KeyTaken)
    else if user !in users then Err(NoSuchUser)
    else if !SeatsUnique(tickets) then Err(SeatTaken)
    else Ok(Postgres(db.orders + [Order(user, LineTotal(lines), Pending, Some(now + HOLD_SECONDS), key)],
                     tickets, db.payments, db.outbox + [OutboxRow(SeatHeld, id, Queued)]))
  }

  function Moved(t: Ticket, ids: seq<nat>, to: TicketStatus): Ticket {
    if t.order in ids && t.status == Held then t.(status := to) else t
  }

  /** UPDATE tickets SET status = `to` WHERE order_id IN ids AND status = 'held'. */
  function MoveHeld(tickets: seq<Ticket>, ids: seq<nat>, to: TicketStatus): (ts: seq<Ticket>)
    ensures |ts| == |tickets|
    ensures forall i :: 0 <= i < |ts| ==> ts[i] == Moved(tickets[i], ids, to)
  {
    seq(|tickets|, i requires 0 <= i < |tickets| => Moved(tickets[i], ids, to))
  }

  /** The zones of the held tickets of these orders, one entry a ticket. */
  function HeldKeys(tickets: seq<Ticket>, ids: seq<nat>): seq<ZoneKey> {
    if tickets == [] then []
    else (if tickets[0].order in ids && tickets[0].status == Held then [tickets[0].key] else [])
         + HeldKeys(tickets[1..], ids)
  }

  function SetExpired(orders: seq<Order>, ids: seq<nat>): (r: seq<Order>)
    ensures |r| == |orders|
    ensures forall i :: 0 <= i < |r| ==> r[i] == if i in ids then orders[i].(status := Expired) else orders[i]
  {
    seq(|orders|, i requires 0 <= i < |orders| => if i in ids then orders[i].(status := Expired) else orders[i])
  }

  function ExpiryRows(ids: seq<nat>): (rows: seq<OutboxRow>)
    ensures |rows| == |ids|
    ensures forall i :: 0 <= i < |ids| ==> rows[i] == OutboxRow(HoldExpired, ids[i], Queued)
  {
    seq(|ids|, i requires 0 <= i < |ids| => OutboxRow(HoldExpired, ids[i], Queued))
  }

  /** Orders to expired, their held tickets to cancelled, one outbox row an order. */
  function ExpireOrders(db: Postgres, ids: seq<nat>): Postgres {
    Postgres(SetExpired(db.orders, ids), MoveHeld(db.tickets, ids, Voided), db.payments, db.outbox + ExpiryRows(ids))
  }

  /** One completed payment, order to confirmed with no expiry, held tickets to valid, one outbox row. */
  function ConfirmOrder(db: Postgres, o: nat, row: Order): Postgres
    requires o < |db.orders|
  {
    Postgres(db.orders[o := row.(status := Confirmed, expiresAt := None)],
             MoveHeld(db.tickets, [o], Valid),
             db.payments + [Payment(o, row.total, Completed)],
             db.outbox + [OutboxRow(OrderPaid, o, Queued)])
  }

  // ---------- what the write transactions do to the seat counts ----------

  lemma {:induction false} HeldKeysCount(tickets: seq<Ticket>, ids: seq<nat>, z: ZoneKey)
    ensures Occurrences(HeldKeys(tickets, ids), z)
         == Sum(tickets, (t: Ticket) => Ind(t.order in ids && t.status == Held && t.key == z))
  {
    var held := (t: Ticket) => Ind(t.order in ids && t.status == Held && t.key == z);
    if tickets != [] {
      var head := if tickets[0].order in ids && tickets[0].status == Held then [tickets[0].key] else [];
      SumAppend(head, HeldKeys(tickets[1..], ids), KeyIs(z));
      HeldKeysCount(tickets[1..], ids, z);
    }
  }

  /** Expiring orders frees exactly their held tickets, zone by zone, and records each as cancelled. */
  lemma ExpiryFreesHeld(tickets: seq<Ticket>, ids: seq<nat>, z: ZoneKey)
    ensures ActiveSeats(tickets, z)
         == ActiveSeats(MoveHeld(tickets, ids, Voided), z) + Occurrences(HeldKeys(tickets, ids), z)
    ensures VoidedSeats(MoveHeld(tickets, ids, Voided), z)
         == VoidedSeats(tickets, z) + Occurrences(HeldKeys(tickets, ids), z)
  {
    var held := (t: Ticket) => Ind(t.order in ids && t.status == Held && t.key == z);
    var moved := MoveHeld(tickets, ids, Voided);
    HeldKeysCount(tickets, ids, z);
    SumBalance(tickets, ActiveAt(z), moved, ActiveAt(z), held);
    var freed := (t: Ticket) => -held(t);
    SumBalance(tickets, VoidedAt(z), moved, VoidedAt(z), freed);
    SumBalance(tickets, freed, tickets, (t: Ticket) => 0, freed);
    SumZero(tickets, (t: Ticket) => 0);
    SumBalance(tickets, (t: Ticket) => 0, tickets, held, freed);
  }

  /** Confirming an order neither takes nor frees a seat. */
  lemma ConfirmKeepsSeats(tickets: seq<Ticket>, ids: seq<nat>, z: ZoneKey)
    ensures ActiveSeats(MoveHeld(tickets, ids, Valid), z) == ActiveSeats(tickets, z)
    ensures VoidedSeats(MoveHeld(tickets, ids, Valid), z) == VoidedSeats(tickets, z)
  {
    SumEqual(tickets, ActiveAt(z), MoveHeld(tickets, ids, Valid), ActiveAt(z));
    SumEqual(tickets, VoidedAt(z), MoveHeld(tickets, ids, Valid), VoidedAt(z));
  }

  function LineKeys(lines: seq<Line>): (ks: seq<ZoneKey>)
    ensures |ks| == |lines| && forall i :: 0 <= i < |lines| ==> ks[i] == lines[i].key
  {
    seq(|lines|, i requires 0 <= i < |lines| => lines[i].key)
  }

  /** A new order's tickets take one seat per line. */
  lemma InsertTakesSeats(tickets: seq<Ticket>, o: nat, lines: seq<Line>, z: ZoneKey)
    ensures ActiveSeats(tickets + NewTickets(o, lines), z)
         == ActiveSeats(tickets, z) + Occurrences(LineKeys(lines), z)
    ensures VoidedSeats(tickets + NewTickets(o, lines), z) == VoidedSeats(tickets, z)
  {
    SumAppend(tickets, NewTickets(o, lines), ActiveAt(z));
    SumAppend(tickets, NewTickets(o, lines), VoidedAt(z));
    SumEqual(LineKeys(lines), KeyIs(z), NewTickets(o, lines), ActiveAt(z));
    SumZero(NewTickets(o, lines), VoidedAt(z));
  }

  // ---------- grouping tickets by zone (zone_requests, GROUP BY event_id, seat_zone) ----------

  /** `setdefault` then `+= 1`: count one more seat for `k`, keeping first-occurrence order. */
  function AddSeat(groups: seq<Group>, k: ZoneKey): seq<Group> {
    if groups == [] then [Group(k, 1)]
    else if groups[0].key == k then [Group(k, groups[0].quantity + 1)] + groups[1..]
    else [groups[0]] + AddSeat(groups[1..], k)
  }

  function GroupKeys(keys: seq<ZoneKey>): seq<Group> {
    if keys == [] then [] else AddSeat(GroupKeys(keys[..|keys| - 1]), keys[|keys| - 1])
  }

  predicate Positive(groups: seq<Group>) { forall i :: 0 <= i < |groups| ==> groups[i].quantity > 0 }

  predicate DistinctKeys(groups: seq<Group>) {
    forall i, j :: 0 <= i < j < |groups| ==> groups[i].key != groups[j].key
  }

  lemma {:induction false} AddSeatCounts(groups: seq<Group>, k: ZoneKey, z: ZoneKey)
    ensures Seats(AddSeat(groups, k), z) == Seats(groups, z) + Ind(k == z)
  {
    if groups == [] {
      assert AddSeat(groups, k)[1..] == [];
    } else if groups[0].key == k {
      assert AddSeat(groups, k)[1..] == groups[1..];
    } else {
      assert AddSeat(groups, k)[1..] == AddSeat(groups[1..], k);
      AddSeatCounts(groups[1..], k, z);
    }
  }

  function Keys(groups: seq<Group>): set<ZoneKey> { set g | g in groups :: g.key }

  lemma KeysCons(g: Group, tail: seq<Group>)
    ensures Keys([g] + tail) == {g.key} + Keys(tail)
  {
    assert forall x :: x in [g] + tail <==> x == g || x in tail;
  }

  lemma {:induction false} AddSeatKeys(groups: seq<Group>, k: ZoneKey)
    ensures Keys(AddSeat(groups, k)) == Keys(groups) + {k}
  {
    if groups == [] {
      KeysCons(Group(k, 1), []);
    } else {
      assert groups == [groups[0]] + groups[1..];
      KeysCons(groups[0], groups[1..]);
      if groups[0].key == k {
        KeysCons(Group(k, groups[0].quantity + 1), groups[1..]);
      } else {
        AddSeatKeys(groups[1..], k);
        KeysCons(groups[0], AddSeat(groups[1..], k));
      }
    }
  }

  lemma {:induction false} AddSeatShape(groups: seq<Group>, k: ZoneKey)
    requires DistinctKeys(groups) && Positive(groups)
    ensures DistinctKeys(AddSeat(groups, k)) && Positive(AddSeat(groups, k))
  {
    if groups != [] && groups[0].key != k {
      var tail := groups[1..];
      var rest := AddSeat(tail, k);
      AddSeatShape(tail, k);
      AddSeatKeys(tail, k);
      forall j | 0 <= j < |rest| ensures rest[j].key != groups[0].key {
        assert rest[j] in rest;
        assert rest[j].key in Keys(tail) + {k};
      }
    }
  }

  /** The quantity a group reserves in a zone is the number of tickets the order puts there. */
  lemma {:induction false} GroupingCounts(keys: seq<ZoneKey>, z: ZoneKey)
    ensures Seats(GroupKeys(keys), z) == Occurrences(keys, z)
  {
    if keys != [] {
      var n := |keys| - 1;
      GroupingCounts(keys[..n], z);
      AddSeatCounts(GroupKeys(keys[..n]), keys[n], z);
      assert keys == keys[..n] + [keys[n]];
      SumAppend(keys[..n], [keys[n]], KeyIs(z));
    }
  }

  /** One group a zone, none empty, and only zones that were asked for. */
  lemma {:induction false} GroupingShape(keys: seq<ZoneKey>)
    ensures DistinctKeys(GroupKeys(keys)) && Positive(GroupKeys(keys))
    ensures Keys(GroupKeys(keys)) == set k | k in keys
  {
    if keys != [] {
      var n := |keys| - 1;
      GroupingShape(keys[..n]);
      AddSeatShape(GroupKeys(keys[..n]), keys[n]);
      AddSeatKeys(GroupKeys(keys[..n]), keys[n]);
      assert keys == keys[..n] + [keys[n]];
    }
  }
}
