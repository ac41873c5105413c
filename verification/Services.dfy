/** create_order_dual_db and process_order_payment as one request runs them, under any pattern of faults. */
module Services {
  import opened Wrappers
  import opened Store
  import opened Inventory
  import opened Reservations
  import opened Booking
  import opened Protocol
  import opened Safety

  // ---------- what a request does when no other interferes; `up`: PostgreSQL accepts its transaction ----------

  /** How a request leaves both databases, the number of the next MongoDB call, and the seats a fault left counted. */
  datatype Ending = Ending(db: Postgres, zones: Zones, calls: nat, outcome: Outcome, lost: seq<Group>)

  /** From the validated and sorted lines on. */
  function LinesResult(capacities: map<ZoneKey, nat>, users: set<int>, zones: Zones, db: Postgres, req: Request,
                       lines: seq<Line>, now: int, net: nat -> Fault, c: nat, up: bool): Ending
  {
    var groups := GroupKeys(LineKeys(lines));
    var held := ReserveUnder(zones, net, c, capacities, [], groups);
    match held.result
    case SoldOut => Ending(db, held.zones, held.calls, NoSeatsLeft, held.lost)
    case Unreachable => Ending(db, held.zones, held.calls, Unavailable, held.lost)
    case Reserved =>
      var undone := UndoUnder(held.zones, net, held.calls, groups);
      if !up then Ending(db, undone.zones, undone.calls, Unavailable, undone.lost)
      else
        match InsertOrder(db, users, req.user, req.key, lines, now)
        case Ok(after) => Ending(after, held.zones, held.calls, Placed(|db.orders|), [])
        case Err(v) => Ending(db, undone.zones, undone.calls, Refusal(v), undone.lost)
  }

  function BookResult(catalog: Catalog, users: set<int>, zones: Zones, db: Postgres, req: Request, now: int,
                      net: nat -> Fault, c: nat, up: bool): Ending
  {
    var found := if UsableKey(req.key) then FindKey(db.orders, req.key.value) else None;
    if found.Some? then
      Ending(db, zones, c, if SamePayload(db, found.value, req) then Replayed(found.value) else KeyReused, [])
    else
      match ValidateAll(catalog, req.items)
      case Err(e) => Ending(db, zones, c, BadRequest(e), [])
      case Ok(validated) =>
        LinesResult(CapacitiesRead(catalog, req.items), users, zones, db, req, SortLines(validated), now, net, c, up)
  }

  function PayResult(zones: Zones, db: Postgres, o: nat, amount: int, now: int, net: nat -> Fault, c: nat,
                     up: bool): Ending
  {
    if !up then Ending(db, zones, c, Unavailable, [])
    else if o >= |db.orders| then Ending(db, zones, c, NoSuchOrder, [])
    else
      var row := db.orders[o];
      match row.status
      case Paid => Ending(db, zones, c, AlreadyPaid, [])
      case Confirmed => Ending(db, zones, c, AlreadyPaid, [])
      case Expired => Ending(db, zones, c, HoldGone, [])
      case Cancelled => Ending(db, zones, c, OrderCancelled, [])
      case Pending =>
        if Overdue(row, now) then
          var released := ReleaseUnder(zones, net, c, GroupKeys(HeldKeys(db.tickets, [o])));
          Ending(ExpireOrders(db, [o]), released.zones, released.calls, HoldGone, [])
        else if amount != row.total then Ending(db, zones, c, WrongAmount, [])
        else if !PaidOnce(db.payments + [Payment(o, row.total, Completed)]) then Ending(db, zones, c, AlreadyPaid, [])
        else Ending(ConfirmOrder(db, o, row), zones, c, PaymentDone, [])
  }

  /** No order carries the request's idempotency key. */
  predicate KeyUnused(db: Postgres, req: Request) { UsableKey(req.key) ==> FindKey(db.orders, req.key.value).None? }

  /** What a booking needs: an unused key, items that are on sale, room in every zone, and rows that violate nothing. */
  predicate Bookable(catalog: Catalog, users: set<int>, zones: Zones, db: Postgres, req: Request, now: int) {
    && KeyUnused(db, req)
    && ValidateAll(catalog, req.items).Ok?
    && var lines := SortLines(ValidateAll(catalog, req.items).value);
       && Fits(zones, CapacitiesRead(catalog, req.items), GroupKeys(LineKeys(lines)))
       && InsertOrder(db, users, req.user, req.key, lines, now).Ok?
  }

  lemma PlacedBooks(tickets: seq<Ticket>, o: nat, lines: seq<Line>)
    ensures forall z :: ActiveSeats(tickets + NewTickets(o, lines), z)
                     == ActiveSeats(tickets, z) + Seats(GroupKeys(LineKeys(lines)), z)
  {
    forall z
      ensures ActiveSeats(tickets + NewTickets(o, lines), z)
           == ActiveSeats(tickets, z) + Seats(GroupKeys(LineKeys(lines)), z)
    {
      InsertTakesSeats(tickets, o, lines, z);
      GroupingCounts(LineKeys(lines), z);
    }
  }

  /** Counters and tickets change by the same seats in every zone, but for those lost. */
  ghost predicate SameSeats(zones: Zones, db: Postgres, e: Ending) {
    && SameZones(zones, e.zones)
    && forall z :: Booked(e.zones, z) - Booked(zones, z)
                == ActiveSeats(e.db.tickets, z) - ActiveSeats(db.tickets, z) + Seats(e.lost, z)
  }

  lemma LinesBooks(capacities: map<ZoneKey, nat>, users: set<int>, zones: Zones, db: Postgres, req: Request,
                   lines: seq<Line>, now: int, net: nat -> Fault, c: nat, up: bool)
    ensures var e := LinesResult(capacities, users, zones, db, req, lines, now, net, c, up);
      SameSeats(zones, db, e) && (e.outcome.Placed? ==> e.lost == []) && (!e.outcome.Placed? ==> e.db == db)
  {
    var groups := GroupKeys(LineKeys(lines));
    ReserveBooks(zones, net, c, capacities, [], groups);
    var held := ReserveUnder(zones, net, c, capacities, [], groups);
    UndoBooks(held.zones, net, held.calls, groups);
    PlacedBooks(db.tickets, |db.orders|, lines);
  }

  /** Every booking is all or nothing, under any fault. */
  lemma BookingBooks(catalog: Catalog, users: set<int>, zones: Zones, db: Postgres, req: Request, now: int,
                     net: nat -> Fault, c: nat, up: bool)
    ensures var e := BookResult(catalog, users, zones, db, req, now, net, c, up);
      SameSeats(zones, db, e) && (e.outcome.Placed? ==> e.lost == []) && (!e.outcome.Placed? ==> e.db == db)
  {
    var v := ValidateAll(catalog, req.items);
    if v.Ok? {
      LinesBooks(CapacitiesRead(catalog, req.items), users, zones, db, req, SortLines(v.value), now, net, c, up);
    }
  }

  /** Only an order of the same user with the same key is returned. */
  lemma ReplayIsOwn(catalog: Catalog, users: set<int>, zones: Zones, db: Postgres, req: Request, now: int,
                    net: nat -> Fault, c: nat, up: bool)
    ensures var e := BookResult(catalog, users, zones, db, req, now, net, c, up).outcome;
      e.Replayed? ==> e.order < |db.orders| && db.orders[e.order].key == req.key && db.orders[e.order].user == req.user
  {
    if ValidateAll(catalog, req.items).Ok? {
      LinesReplayNothing(CapacitiesRead(catalog, req.items), users, zones, db, req,
                         SortLines(ValidateAll(catalog, req.items).value), now, net, c, up);
    }
  }

  lemma LinesReplayNothing(capacities: map<ZoneKey, nat>, users: set<int>, zones: Zones, db: Postgres, req: Request,
                           lines: seq<Line>, now: int, net: nat -> Fault, c: nat, up: bool)
    ensures !LinesResult(capacities, users, zones, db, req, lines, now, net, c, up).outcome.Replayed?
  {}

  /** Without faults a booking is placed exactly when it can be, and nothing is lost. */
  lemma BookingCalm(catalog: Catalog, users: set<int>, zones: Zones, db: Postgres, req: Request, now: int,
                    net: nat -> Fault, c: nat, up: bool)
    requires Calm(net) && Sound(zones) && CatalogOk(catalog, zones)
    ensures var e := BookResult(catalog, users, zones, db, req, now, net, c, up);
      e.lost == [] && (up ==> (e.outcome.Placed? <==> Bookable(catalog, users, zones, db, req, now)))
  {
    var v := ValidateAll(catalog, req.items);
    if v.Ok? {
      var lines := SortLines(v.value);
      ValidatedOnSale(catalog, zones, req.items);
      CapacitiesKnown(catalog, req.items, lines);
      CapacitiesCurrent(catalog, zones, req.items);
      LinesCalm(CapacitiesRead(catalog, req.items), users, zones, db, req, lines, now, net, c, up);
    }
  }

  lemma LinesCalm(capacities: map<ZoneKey, nat>, users: set<int>, zones: Zones, db: Postgres, req: Request,
                  lines: seq<Line>, now: int, net: nat -> Fault, c: nat, up: bool)
    requires Calm(net) && Sound(zones) && OnSale(zones, lines) && Current(capacities, zones)
    requires forall g :: g in GroupKeys(LineKeys(lines)) ==> g.key in capacities
    ensures var e := LinesResult(capacities, users, zones, db, req, lines, now, net, c, up);
      e.lost == [] && (up ==> (e.outcome.Placed? <==>
                               Fits(zones, capacities, GroupKeys(LineKeys(lines)))
                               && InsertOrder(db, users, req.user, req.key, lines, now).Ok?))
  {
    var groups := GroupKeys(LineKeys(lines));
    GroupingShape(LineKeys(lines));
    assert forall k :: k in LineKeys(lines) ==> k in zones;
    GroupsKnown(zones, LineKeys(lines));
    ReserveFacts(zones, net, c, capacities, groups);
    var held := ReserveUnder(zones, net, c, capacities, [], groups);
    if held.result == Reserved {
      forall z ensures Booked(held.zones, z) >= Seats(groups, z) {
        assert z in zones ==> ZoneValid(zones[z]);
      }
      UndoCalm(held.zones, net, held.calls, groups);
    }
  }

  // ---------- the services ----------

  class Service {
    const catalog: Catalog
    const users: set<int>
    const events: Events
    var db: Postgres

    constructor (catalog: Catalog, users: set<int>, events: Events, db: Postgres)
      ensures this.catalog == catalog && this.users == users && this.events == events && this.db == db
    {
      this.catalog, this.users, this.events, this.db := catalog, users, events, db;
    }

    /** Nothing fails, and the catalog is current. */
    ghost predicate Calm()
      reads events
    {
      events.Reliable() && Sound(events.zones) && CatalogOk(catalog, events.zones)
    }

    /** Steps 2 and 3: validate, sort, group, reserve every zone or none. */
    method HoldSeats(items: seq<Item>)
      returns (lines: Result<seq<Line>, Outcome>, groups: seq<Group>, total: int, ghost lost: seq<Group>)
      modifies events
      ensures match ValidateAll(catalog, items)
        case Err(e) => lines == Err(BadRequest(e)) && lost == [] && events.zones == old(events.zones)
                       && events.calls == old(events.calls)
        case Ok(validated) =>
          groups == GroupKeys(LineKeys(SortLines(validated)))
          && var held := ReserveUnder(old(events.zones), events.net, old(events.calls), CapacitiesRead(catalog, items),
                                      [], groups);
             && events.zones == held.zones && events.calls == held.calls && lost == held.lost
             && lines == match held.result
                         case Reserved => Ok(SortLines(validated))
                         case SoldOut => Err(NoSeatsLeft)
                         case Unreachable => Err(Unavailable)
      ensures lines.Ok? ==> total == LineTotal(lines.value)
    {
      var validated, capacities;
      validated, total, capacities := ValidateItems(catalog, items);
      if validated.Err? {
        return Err(BadRequest(validated.error)), [], 0, [];
      }
      var sorted := SortLines(validated.value);
      SortKeepsTotal(validated.value);
      groups := GroupRequests(sorted);
      CapacitiesKnown(catalog, items, sorted);
      var reserved;
      reserved, lost := events.ReserveOrUndo(groups, capacities);
      lines := match reserved
               case Reserved => Ok(sorted)
               case SoldOut => Err(NoSeatsLeft)
               case Unreachable => Err(Unavailable);
    }

    /** Step 4 and 5: the PostgreSQL transaction, or giving the seats back. */
    method WriteOrder(req: Request, lines: seq<Line>, groups: seq<Group>, now: int, up: bool)
      returns (outcome: Outcome, ghost lost: seq<Group>)
      modifies this, events
      ensures var written := InsertOrder(old(db), users, req.user, req.key, lines, now);
        if up && written.Ok? then
          && db == written.value && outcome == Placed(|old(db).orders|) && lost == []
          && events.zones == old(events.zones) && events.calls == old(events.calls)
        else
          && db == old(db)
          && Undone(events.zones, events.calls, lost)
             == UndoUnder(old(events.zones), events.net, old(events.calls), groups)
          && (!up ==> outcome == Unavailable)
          && (up && KeyUnused(db, req) ==> outcome == Refusal(written.error))
    {
      lost := [];
      var written := InsertOrder(db, users, req.user, req.key, lines, now);
      if up && written.Ok? {
        outcome := Placed(|db.orders|);
        db := written.value;
        return;
      }
      lost := events.ReleaseReservations(groups);
      outcome := if up then Refusal(written.error) else Unavailable;
      if up && written.error != SeatTaken && UsableKey(req.key) {
        var winner := FindKey(db.orders, req.key.value);
        if winner.Some? {
          outcome := Replayed(winner.value);
        }
      }
    }

    /** `lost` counts seats left reserved by a fault. All or nothing under any fault; without faults the order is placed
      exactly when it can be. */
    method CreateOrder(req: Request, now: int, up: bool) returns (outcome: Outcome, ghost lost: seq<Group>)
      modifies this, events
      ensures Ending(db, events.zones, events.calls, outcome, lost)
           == BookResult(catalog, users, old(events.zones), old(db), req, now, events.net, old(events.calls), up)
      ensures SameZones(old(events.zones), events.zones)
      ensures outcome.Placed? ==> lost == []
      ensures !outcome.Placed? ==> db == old(db)
      ensures outcome.Replayed? ==> outcome.order < |db.orders|
      ensures outcome.Replayed? ==> db.orders[outcome.order].key == req.key && db.orders[outcome.order].user == req.user
      ensures forall z :: Booked(events.zones, z) - Booked(old(events.zones), z)
                       == ActiveSeats(db.tickets, z) - ActiveSeats(old(db).tickets, z) + Seats(lost, z)
      ensures old(Calm()) ==> lost == []
      ensures old(Calm()) && up ==>
                (outcome.Placed? <==> Bookable(catalog, users, old(events.zones), old(db), req, now))
    {
      BookingBooks(catalog, users, events.zones, db, req, now, events.net, events.calls, up);
      ReplayIsOwn(catalog, users, events.zones, db, req, now, events.net, events.calls, up);
      if Calm() {
        BookingCalm(catalog, users, events.zones, db, req, now, events.net, events.calls, up);
      }
      outcome, lost := BookOrder(req, now, up);
    }

    /** The steps of the booking. */
    method BookOrder(req: Request, now: int, up: bool) returns (outcome: Outcome, ghost lost: seq<Group>)
      modifies this, events
      ensures Ending(db, events.zones, events.calls, outcome, lost)
           == BookResult(catalog, users, old(events.zones), old(db), req, now, events.net, old(events.calls), up)
    {
      var found := if UsableKey(req.key) then FindKey(db.orders, req.key.value) else None;
      if found.Some? {
        return if SamePayload(db, found.value, req) then Replayed(found.value) else KeyReused, [];
      }
      var lines, groups, total;
      lines, groups, total, lost := HoldSeats(req.items);
      if lines.Err? {
        return lines.error, lost;
      }
      outcome, lost := WriteOrder(req, lines.value, groups, now, up);
    }

    /** What happens to the order, and to the counters under any fault: a confirmation leaves them alone, an expiry
      gives back at most the held seats, and all of them on a reliable network. */
    method ProcessOrderPayment(o: nat, amount: int, now: int, up: bool) returns (outcome: Outcome)
      modifies this, events
      ensures Ending(db, events.zones, events.calls, outcome, [])
           == PayResult(old(events.zones), old(db), o, amount, now, events.net, old(events.calls), up)
      ensures outcome == PaymentDone ==> o < |old(db).orders| && old(db).orders[o].status == Pending
                                         && db == ConfirmOrder(old(db), o, old(db).orders[o])
      ensures o < |old(db).orders| && old(db).orders[o].status == Pending && up ==>
        var deadline := old(db).orders[o].expiresAt;
        (outcome == HoldGone <==> deadline.Some? && deadline.value < now)
      ensures db.orders == old(db).orders || outcome == PaymentDone ==> events.zones == old(events.zones)
      ensures db.orders != old(db).orders && outcome != PaymentDone ==>
                var held := GroupKeys(HeldKeys(old(db).tickets, [o]));
                && outcome == HoldGone && db == ExpireOrders(old(db), [o])
                && GivenBack(old(events.zones), held, events.zones)
                && (events.Reliable() ==> events.zones == ReturnAll(old(events.zones), held))
    {
      if !up {
        return Unavailable;
      }
      if o >= |db.orders| {
        return NoSuchOrder;
      }
      var row := db.orders[o];
      if row.status == Paid || row.status == Confirmed {
        return AlreadyPaid;
      }
      if row.status == Expired {
        return HoldGone;
      }
      if row.status == Cancelled {
        return OrderCancelled;
      }
      if Overdue(row, now) {
        var groups := GroupKeys(HeldKeys(db.tickets, [o]));
        db := ExpireOrders(db, [o]);
        assert db.orders[o].status == Expired;
        ghost var given := events.ReleaseCountedSeats(groups);
        return HoldGone;
      }
      if amount != row.total {
        return WrongAmount;
      }
      if !PaidOnce(db.payments + [Payment(o, row.total, Completed)]) {
        return AlreadyPaid;
      }
      db := ConfirmOrder(db, o, row);
      outcome := PaymentDone;
    }
  }

  lemma CapacitiesKnown(catalog: Catalog, items: seq<Item>, sorted: seq<Line>)
    requires ValidateAll(catalog, items).Ok? && sorted == SortLines(ValidateAll(catalog, items).value)
    ensures forall g :: g in GroupKeys(LineKeys(sorted)) ==> g.key in CapacitiesRead(catalog, items)
  {
    var groups := GroupKeys(LineKeys(sorted));
    CapacitiesListed(catalog, items);
    SortKeepsLines(ValidateAll(catalog, items).value);
    GroupingShape(LineKeys(sorted));
    forall g | g in groups ensures g.key in CapacitiesRead(catalog, items) {
      assert g.key in Keys(groups);
      var j :| 0 <= j < |sorted| && LineKeys(sorted)[j] == g.key;
      assert sorted[j] in ValidateAll(catalog, items).value;
    }
  }

  /** The capacities read with the prices are those of the documents. */
  lemma CapacitiesCurrent(catalog: Catalog, zones: Zones, items: seq<Item>)
    requires CatalogOk(catalog, zones)
    ensures Current(CapacitiesRead(catalog, items), zones)
  {
    var capacities := CapacitiesRead(catalog, items);
    CapacitiesListed(catalog, items);
    forall k | k in capacities && k in zones ensures capacities[k] == zones[k].capacity {
      assert Listed(catalog, k, capacities[k]);
      var i :| 0 <= i < |catalog[k.event]| && catalog[k.event][i].name == k.zone
               && catalog[k.event][i].capacity == capacities[k];
      assert k == ZoneKey(k.event, catalog[k.event][i].name);
    }
  }
}
