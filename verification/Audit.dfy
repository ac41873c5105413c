/** scripts/verify_consistency.py: seven PostgreSQL checks, six inventory checks, the re-read loop and the repair.

  Stated on their own, from the SQL and the list comprehensions, so that the protocol can be judged by them. */
module Audit {
  import opened Wrappers
  import opened Sums
  import opened Store
  import opened Inventory

  // ---------- PostgreSQL checks: the offending rows ----------

  function SeatIs(k: ZoneKey, seat: string): Ticket -> int {
    (t: Ticket) => Ind(t.Active() && t.key == k && t.seat == Some(seat))
  }

  function DuplicateActiveSeats(db: Postgres): set<(ZoneKey, string)> {
    set t | t in db.tickets && t.Active() && t.seat.Some? && Sum(db.tickets, SeatIs(t.key, t.seat.value)) > 1
      :: (t.key, t.seat.value)
  }

  function DoubleChargedOrders(db: Postgres): set<nat> {
    set p | p in db.payments && p.status == Completed && CompletedCount(db.payments, p.order) > 1 :: p.order
  }

  predicate HasCompleted(db: Postgres, o: nat) { exists p | p in db.payments :: p.order == o && p.status == Completed }

  function ConfirmedWithoutPayment(db: Postgres): set<nat> {
    set o: nat | o < |db.orders| && db.orders[o].status == Confirmed && !HasCompleted(db, o)
  }

  function PaymentAmountMismatch(db: Postgres): set<nat> {
    set o: nat | o < |db.orders| && HasCompleted(db, o) && db.orders[o].total != PaidAmount(db.payments, o)
  }

  function OrderTotalMismatch(db: Postgres): set<nat> {
    set o: nat | o < |db.orders| && db.orders[o].total != TicketTotal(db.tickets, o)
  }

  function DeadOrderWithActiveTickets(db: Postgres): set<nat> {
    set t | t in db.tickets && t.Active() && t.order < |db.orders|
            && (db.orders[t.order].status == Expired || db.orders[t.order].status == Cancelled) :: t.order
  }

  function TicketStateMismatch(db: Postgres): set<nat> {
    set t | t in db.tickets && t.order < |db.orders|
            && ((db.orders[t.order].status == Pending && t.status == Valid)
                || (db.orders[t.order].status == Confirmed && t.status == Held)) :: t.order
  }

  predicate PostgresGreen(db: Postgres) {
    && DuplicateActiveSeats(db) == {} && DoubleChargedOrders(db) == {} && ConfirmedWithoutPayment(db) == {}
    && PaymentAmountMismatch(db) == {} && OrderTotalMismatch(db) == {} && DeadOrderWithActiveTickets(db) == {}
    && TicketStateMismatch(db) == {}
  }

  // ---------- inventory checks ----------

  /** SELECT event_id, seat_zone, count(*) ... GROUP BY: the zones with at least one active ticket. */
  function ActiveKeys(tickets: seq<Ticket>): set<ZoneKey> { set t | t in tickets && t.Active() :: t.key }

  function NegativeCount(zones: Zones): set<ZoneKey> { set k | k in zones && zones[k].booked < 0 }

  function MongoOverCapacity(zones: Zones): set<ZoneKey> { set k | k in zones && zones[k].booked > zones[k].capacity }

  function PgOverCapacity(zones: Zones, tickets: seq<Ticket>): set<ZoneKey> {
    set k | k in ActiveKeys(tickets) && k in zones && ActiveSeats(tickets, k) > zones[k].capacity
  }

  function DriftBelow(zones: Zones, tickets: seq<Ticket>): set<ZoneKey> {
    set k | k in zones && zones[k].booked < ActiveSeats(tickets, k)
  }

  function DriftAbove(zones: Zones, tickets: seq<Ticket>): set<ZoneKey> {
    set k | k in zones && zones[k].booked > ActiveSeats(tickets, k)
  }

  function UnknownZone(zones: Zones, tickets: seq<Ticket>): set<ZoneKey> {
    set k | k in ActiveKeys(tickets) && k !in zones
  }

  predicate InventoryGreen(zones: Zones, tickets: seq<Ticket>) {
    && NegativeCount(zones) == {} && MongoOverCapacity(zones) == {} && PgOverCapacity(zones, tickets) == {}
    && DriftBelow(zones, tickets) == {} && DriftAbove(zones, tickets) == {} && UnknownZone(zones, tickets) == {}
  }

  lemma ActiveSeatsCount(tickets: seq<Ticket>, k: ZoneKey)
    ensures ActiveSeats(tickets, k) >= 0
    ensures k in ActiveKeys(tickets) <==> ActiveSeats(tickets, k) > 0
  {
    SumAtLeast(tickets, ActiveAt(k), 0);
    if k in ActiveKeys(tickets) {
      var i :| 0 <= i < |tickets| && tickets[i].Active() && tickets[i].key == k;
      SumAtLeast(tickets, ActiveAt(k), i);
    } else {
      SumZero(tickets, ActiveAt(k));
    }
  }

  /** The six lists are all empty exactly when every counter equals its tickets and fits, and every ticket's zone
    exists: on any state, even a corrupted one. */
  lemma InventoryChecksExact(zones: Zones, tickets: seq<Ticket>)
    ensures InventoryGreen(zones, tickets) <==>
      (forall k :: k in zones ==> zones[k].booked == ActiveSeats(tickets, k) <= zones[k].capacity)
      && (forall i :: 0 <= i < |tickets| && tickets[i].Active() ==> tickets[i].key in zones)
  {
    forall k ensures ActiveSeats(tickets, k) >= 0 && (k in ActiveKeys(tickets) <==> ActiveSeats(tickets, k) > 0) {
      ActiveSeatsCount(tickets, k);
    }
    if InventoryGreen(zones, tickets) {
      forall k | k in zones ensures zones[k].booked == ActiveSeats(tickets, k) <= zones[k].capacity {
        assert k !in DriftBelow(zones, tickets) && k !in DriftAbove(zones, tickets) && k !in MongoOverCapacity(zones);
      }
      forall i | 0 <= i < |tickets| && tickets[i].Active() ensures tickets[i].key in zones {
        assert tickets[i].key in ActiveKeys(tickets);
        assert tickets[i].key !in UnknownZone(zones, tickets);
      }
    }
  }

  // ---------- what each list is, from the rows ----------

  /** A ticket that counts: held or valid. */
  predicate Counts(t: Ticket) { t.status == Held || t.status == Valid }

  function CountIn(tickets: seq<Ticket>, k: ZoneKey): int { Sum(tickets, (t: Ticket) => Ind(Counts(t) && t.key == k)) }

  /** The six inventory lists, zone by zone. */
  lemma InventoryListsMean(zones: Zones, tickets: seq<Ticket>, k: ZoneKey)
    ensures var r, n := Inspect(zones, tickets), CountIn(tickets, k);
      && (k in r.negative <==> k in zones && zones[k].booked < 0)
      && (k in r.mongoOver <==> k in zones && zones[k].booked > zones[k].capacity)
      && (k in r.pgOver <==> k in zones && n > zones[k].capacity)
      && (k in r.below <==> k in zones && zones[k].booked < n)
      && (k in r.above <==> k in zones && zones[k].booked > n)
      && (k in r.unknown <==> k !in zones && n > 0)
  {
    CountsAre(tickets, k);
    ActiveSeatsCount(tickets, k);
  }

  lemma CountsAre(tickets: seq<Ticket>, k: ZoneKey)
    ensures CountIn(tickets, k) == ActiveSeats(tickets, k)
  {
    SumEqual(tickets, (t: Ticket) => Ind(Counts(t) && t.key == k), tickets, ActiveAt(k));
  }

  predicate SeatTwice(tickets: seq<Ticket>, i: nat, j: nat)
    requires i < |tickets| && j < |tickets|
  {
    Counts(tickets[i]) && Counts(tickets[j]) && tickets[i].key == tickets[j].key
    && tickets[i].seat.Some? && tickets[i].seat == tickets[j].seat
  }

  /** A seat is listed as sold twice exactly when two tickets that count have it. */
  lemma DuplicatesMean(db: Postgres, k: ZoneKey, seat: string)
    ensures (k, seat) in DuplicateActiveSeats(db) <==>
      exists i, j :: 0 <= i < j < |db.tickets| && SeatTwice(db.tickets, i, j)
                     && db.tickets[i].key == k && db.tickets[i].seat == Some(seat)
  {
    if (k, seat) in DuplicateActiveSeats(db) {
      var i, j := SumTwo(db.tickets, SeatIs(k, seat));
      assert SeatTwice(db.tickets, i, j);
    }
    if i, j :| 0 <= i < j < |db.tickets| && SeatTwice(db.tickets, i, j)
               && db.tickets[i].key == k && db.tickets[i].seat == Some(seat) {
      SumPair(db.tickets, SeatIs(k, seat), i, j);
      assert db.tickets[i] in db.tickets;
    }
  }

  /** An order is listed as charged twice exactly when it has two completed payments. */
  lemma DoubleChargesMean(db: Postgres, o: nat)
    ensures o in DoubleChargedOrders(db) <==>
      exists i, j :: 0 <= i < j < |db.payments| && db.payments[i].order == o && db.payments[j].order == o
                     && db.payments[i].status == Completed && db.payments[j].status == Completed
  {
    if o in DoubleChargedOrders(db) {
      var i, j := SumTwo(db.payments, CompletedFor(o));
    }
    if i, j :| 0 <= i < j < |db.payments| && db.payments[i].order == o && db.payments[j].order == o
               && db.payments[i].status == Completed && db.payments[j].status == Completed {
      SumPair(db.payments, CompletedFor(o), i, j);
      assert db.payments[i] in db.payments;
    }
  }

  function CompletedAmount(payments: seq<Payment>, o: nat): int {
    Sum(payments, (p: Payment) => if p.order == o && p.status == Completed then p.amount else 0)
  }

  function PriceSum(tickets: seq<Ticket>, o: nat): int {
    Sum(tickets, (t: Ticket) => if t.order == o then t.price else 0)
  }

  /** A pending order's ticket may not be valid, a confirmed order's ticket not held. */
  predicate Contradicts(order: OrderStatus, ticket: TicketStatus) {
    (order == Pending && ticket == Valid) || (order == Confirmed && ticket == Held)
  }

  ghost predicate HasPayment(db: Postgres, o: nat) {
    exists i :: 0 <= i < |db.payments| && db.payments[i].order == o && db.payments[i].status == Completed
  }

  /** The five lists of orders that do not add up, order by order. */
  lemma OrderListsMean(db: Postgres, o: nat)
    requires o < |db.orders|
    ensures var row := db.orders[o];
      && (o in ConfirmedWithoutPayment(db) <==> row.status == Confirmed && !HasPayment(db, o))
      && (o in PaymentAmountMismatch(db) <==> HasPayment(db, o) && row.total != CompletedAmount(db.payments, o))
      && (o in OrderTotalMismatch(db) <==> row.total != PriceSum(db.tickets, o))
      && (o in DeadOrderWithActiveTickets(db) <==>
            (row.status == Expired || row.status == Cancelled)
            && exists i :: 0 <= i < |db.tickets| && db.tickets[i].order == o && Counts(db.tickets[i]))
      && (o in TicketStateMismatch(db) <==>
            exists i :: 0 <= i < |db.tickets|
                        && db.tickets[i].order == o && Contradicts(row.status, db.tickets[i].status))
  {
    SumEqual(db.payments, AmountFor(o), db.payments,
             (p: Payment) => if p.order == o && p.status == Completed then p.amount else 0);
    SumEqual(db.tickets, PriceIn(o), db.tickets, (t: Ticket) => if t.order == o then t.price else 0);
  }

  // ---------- the event documents ----------

  /** The `zones` elements of all event documents, in the order `find` returns them. */
  datatype Place = Place(key: ZoneKey, zone: Zone)

  /** The dict the audit builds: a later element with the same key replaces an earlier one. */
  function ZoneTable(places: seq<Place>): Zones {
    if places == [] then map[] else map[places[0].key := places[0].zone] + ZoneTable(places[1..])
  }

  /** update_one on `zones.$`: the first element with that key. */
  function SetBooked(places: seq<Place>, k: ZoneKey, n: int): seq<Place> {
    if places == [] then []
    else if places[0].key == k then [Place(k, places[0].zone.(booked := n))] + places[1..]
    else [places[0]] + SetBooked(places[1..], k, n)
  }

  /** How many elements carry a key; the event schema does not forbid two zones of one name. */
  function KeyCount(places: seq<Place>, k: ZoneKey): nat {
    if places == [] then 0 else (if places[0].key == k then 1 else 0) + KeyCount(places[1..], k)
  }

  lemma {:induction false} ZoneTableSnoc(places: seq<Place>, p: Place)
    ensures ZoneTable(places + [p]) == ZoneTable(places)[p.key := p.zone]
  {
    if places == [] {
      assert [p][1..] == [];
    } else {
      assert (places + [p])[0] == places[0] && (places + [p])[1..] == places[1..] + [p];
      ZoneTableSnoc(places[1..], p);
    }
  }

  lemma {:induction false} ZoneTableKeys(places: seq<Place>, k: ZoneKey)
    ensures k in ZoneTable(places) <==> KeyCount(places, k) > 0
  {
    if places != [] { ZoneTableKeys(places[1..], k); }
  }

  lemma {:induction false} SetBookedKeys(places: seq<Place>, k: ZoneKey, n: int, j: ZoneKey)
    ensures KeyCount(SetBooked(places, k, n), j) == KeyCount(places, j)
  {
    if places != [] {
      if places[0].key == k {
        assert SetBooked(places, k, n)[1..] == places[1..];
      } else {
        SetBookedKeys(places[1..], k, n, j);
        assert SetBooked(places, k, n)[1..] == SetBooked(places[1..], k, n);
      }
    }
  }

  /** One repair write sets the table entry of a key that occurs once, and leaves the table alone if it occurs more
    often: the write goes to the first element, the audit reads the last. */
  lemma {:induction false} SetBookedTable(places: seq<Place>, k: ZoneKey, n: int)
    requires k in ZoneTable(places)
    ensures ZoneTable(SetBooked(places, k, n))
         == if KeyCount(places, k) == 1 then WithBooked(ZoneTable(places), k, n) else ZoneTable(places)
  {
    var rest := places[1..];
    ZoneTableKeys(rest, k);
    if places[0].key == k {
      SetFirst(places, n);
    } else {
      SetBookedTable(rest, k, n);
      assert SetBooked(places, k, n)[1..] == SetBooked(rest, k, n);
    }
  }

  lemma SetFirst(places: seq<Place>, n: int)
    requires places != []
    ensures var k := places[0].key;
      ZoneTable(SetBooked(places, k, n))
      == if k in ZoneTable(places[1..]) then ZoneTable(places) else WithBooked(ZoneTable(places), k, n)
  {
    assert SetBooked(places, places[0].key, n)[1..] == places[1..];
  }

  /** The write does what the repair means exactly when the key occurs once, or its count was right already. */
  lemma RepairWritesWhen(places: seq<Place>, k: ZoneKey, n: int)
    requires k in ZoneTable(places)
    ensures ZoneTable(SetBooked(places, k, n)) == WithBooked(ZoneTable(places), k, n)
      <==> KeyCount(places, k) == 1 || ZoneTable(places)[k].booked == n
  {
    SetBookedTable(places, k, n);
    assert WithBooked(ZoneTable(places), k, n)[k].booked == n;
    if ZoneTable(places)[k].booked == n {
      assert WithBooked(ZoneTable(places), k, n) == ZoneTable(places);
    }
  }

  /** Two zones of one name, the repair of which never takes. */
  lemma RepairNeedsDistinctNames()
    ensures var k := ZoneKey("e", "VIP");
      var places := [Place(k, Zone(5, 100, 2)), Place(k, Zone(5, 100, 3))];
      k in ZoneTable(places) && ZoneTable(SetBooked(places, k, 0)) == ZoneTable(places)
      && ZoneTable(places)[k].booked != 0
  {
    var k := ZoneKey("e", "VIP");
    var a, b := Place(k, Zone(5, 100, 2)), Place(k, Zone(5, 100, 3));
    assert [a, b][1..] == [b] && [b][1..] == [];
    assert ZoneTable([b]) == map[k := b.zone] && ZoneTable([a, b]) == map[k := b.zone];
    SetFirst([a, b], 0);
  }

  datatype Report = Report(
    negative: set<ZoneKey>, mongoOver: set<ZoneKey>, pgOver: set<ZoneKey>,
    below: set<ZoneKey>, above: set<ZoneKey>, unknown: set<ZoneKey>)

  function Inspect(zones: Zones, tickets: seq<Ticket>): Report {
    Report(NegativeCount(zones), MongoOverCapacity(zones), PgOverCapacity(zones, tickets),
           DriftBelow(zones, tickets), DriftAbove(zones, tickets), UnknownZone(zones, tickets))
  }

  predicate Drifting(r: Report) { r.below != {} || r.above != {} }

  /** Writing the ticket count into some of the drifted zones leaves exactly the others drifting. */
  lemma RepairSettles(start: Zones, end: Zones, tickets: seq<Ticket>, fixed: set<ZoneKey>)
    requires end.Keys == start.Keys && fixed <= DriftBelow(start, tickets) + DriftAbove(start, tickets)
    requires forall k :: k in end ==>
      end[k] == if k in fixed then start[k].(booked := ActiveSeats(tickets, k)) else start[k]
    ensures DriftBelow(end, tickets) == DriftBelow(start, tickets) - fixed
    ensures DriftAbove(end, tickets) == DriftAbove(start, tickets) - fixed
    ensures NegativeCount(end) == NegativeCount(start) - fixed
    ensures PgOverCapacity(end, tickets) == PgOverCapacity(start, tickets)
    ensures UnknownZone(end, tickets) == UnknownZone(start, tickets)
  {
    forall k | k in end ensures end[k].capacity == start[k].capacity && (k in fixed ==> end[k].booked >= 0) {
      ActiveSeatsCount(tickets, k);
    }
  }

  /** Those of the keys that occur more than once. */
  function Repeated(places: seq<Place>, keys: set<ZoneKey>): set<ZoneKey> {
    set k | k in keys && KeyCount(places, k) > 1
  }

  /** What is wrong after the repair: of each list exactly the keys that occur more than once. */
  lemma RepairLeaves(start: Zones, places: seq<Place>, tickets: seq<Ticket>)
    requires ZoneTable(places).Keys == start.Keys
    requires forall k :: k in start ==>
      ZoneTable(places)[k]
      == if k in DriftBelow(start, tickets) + DriftAbove(start, tickets) && KeyCount(places, k) == 1
         then start[k].(booked := ActiveSeats(tickets, k)) else start[k]
    ensures var before, after := Inspect(start, tickets), Inspect(ZoneTable(places), tickets);
      && after.below == Repeated(places, before.below) && after.above == Repeated(places, before.above)
      && after.negative == Repeated(places, before.negative)
      && after.unknown == before.unknown && after.pgOver == before.pgOver
  {
    var drift := DriftBelow(start, tickets) + DriftAbove(start, tickets);
    var fixed := set k | k in drift && KeyCount(places, k) == 1;
    RepairSettles(start, ZoneTable(places), tickets, fixed);
    forall k | k in start ensures KeyCount(places, k) > 0 && (start[k].booked < 0 ==> k in drift) {
      ZoneTableKeys(places, k);
      ActiveSeatsCount(tickets, k);
    }
  }

  class Inspector {
    var places: seq<Place>

    constructor (places: seq<Place>)
      ensures this.places == places
    {
      this.places := places;
    }

    /** Compare the counters with the tickets; `drift` holds the count each drifted zone should have. */
    method InventoryChecks(tickets: seq<Ticket>) returns (report: Report, drift: map<ZoneKey, int>)
      ensures report == Inspect(ZoneTable(places), tickets)
      ensures drift.Keys == report.below + report.above
      ensures forall k :: k in drift ==> drift[k] == ActiveSeats(tickets, k)
    {
      var zones: Zones := map[];
      for i := 0 to |places|
        invariant zones == ZoneTable(places[..i])
      {
        assert places[..i + 1] == places[..i] + [places[i]];
        ZoneTableSnoc(places[..i], places[i]);
        zones := zones[places[i].key := places[i].zone];
      }
      assert places[..|places|] == places;
      report := Inspect(zones, tickets);
      drift := map k | k in report.below + report.above :: ActiveSeats(tickets, k);
    }

    /** Set every drifted counter to its ticket count, past the validator: those whose key occurs once take it. */
    method Repair(drift: map<ZoneKey, int>) returns (repaired: nat)
      requires drift.Keys <= ZoneTable(places).Keys
      modifies this
      ensures forall k :: KeyCount(places, k) == KeyCount(old(places), k)
      ensures ZoneTable(places).Keys == old(ZoneTable(places)).Keys
      ensures forall k :: k in ZoneTable(places) ==>
                ZoneTable(places)[k] == if k in drift && KeyCount(places, k) == 1
                                        then old(ZoneTable(places))[k].(booked := drift[k])
                                        else old(ZoneTable(places))[k]
      ensures repaired == |drift|
    {
      var todo := drift.Keys;
      ghost var start := ZoneTable(places);
      repaired := 0;
      while todo != {}
        invariant todo <= drift.Keys && forall k :: KeyCount(places, k) == KeyCount(old(places), k)
        invariant repaired + |todo| == |drift.Keys|
        invariant ZoneTable(places).Keys == start.Keys
        invariant forall k :: k in start ==>
                    ZoneTable(places)[k] == if k in drift && k !in todo && KeyCount(places, k) == 1
                                            then start[k].(booked := drift[k]) else start[k]
        decreases todo
      {
        var k :| k in todo;
        SetBookedTable(places, k, drift[k]);
        forall j ensures KeyCount(SetBooked(places, k, drift[k]), j) == KeyCount(places, j) {
          SetBookedKeys(places, k, drift[k], j);
        }
        places := SetBooked(places, k, drift[k]);
        todo := todo - {k};
        repaired := repaired + 1;
      }
    }

    /** `--repair` with traffic stopped: what drifts afterwards is exactly what drifted before under a name that occurs
      more than once, so with distinct names nothing does, and a second repair has nothing to do. */
    method AuditAndRepair(tickets: seq<Ticket>) returns (before: Report, after: Report, again: map<ZoneKey, int>)
      modifies this
      ensures before == Inspect(old(ZoneTable(places)), tickets)
      ensures after == Inspect(ZoneTable(places), tickets)
      ensures after.below == Repeated(places, before.below) && after.above == Repeated(places, before.above)
      ensures after.negative == Repeated(places, before.negative)
      ensures again.Keys == after.below + after.above
      ensures after.unknown == before.unknown && after.pgOver == before.pgOver
      ensures forall k :: KeyCount(places, k) == KeyCount(old(places), k)
      ensures forall k :: k in old(ZoneTable(places)) && k !in before.below + before.above ==>
                k in ZoneTable(places) && ZoneTable(places)[k] == old(ZoneTable(places))[k]
    {
      var drift;
      before, drift := InventoryChecks(tickets);
      ghost var start := ZoneTable(places);
      var n := Repair(drift);
      RepairLeaves(start, places, tickets);
      after, again := InventoryChecks(tickets);
    }
  }

  /** Re-read while the drift checks fail, at most `retries` times: the first settled reading, or the last one. */
  method RunAudit(readings: nat -> (Zones, seq<Ticket>), retries: nat) returns (report: Report, attempt: nat)
    ensures attempt <= retries
    ensures report == Inspect(readings(attempt).0, readings(attempt).1)
    ensures attempt == retries || (report.below == {} && report.above == {})
    ensures forall i :: 0 <= i < attempt ==>
              var earlier := Inspect(readings(i).0, readings(i).1); earlier.below != {} || earlier.above != {}
  {
    attempt := 0;
    while true
      invariant attempt <= retries
      invariant forall i :: 0 <= i < attempt ==> Drifting(Inspect(readings(i).0, readings(i).1))
      decreases retries - attempt
    {
      report := Inspect(readings(attempt).0, readings(attempt).1);
      if !Drifting(report) || attempt >= retries {
        return;
      }
      attempt := attempt + 1;
    }
  }
}
