/** What a booking is answered and what it writes: from the request, the catalog, the counters and the rows alone. */
module BookingAnswers {
  import opened Wrappers
  import opened Sums
  import opened Text
  import opened Store
  import opened Inventory
  import opened Reservations
  import opened Booking
  import opened AskedFor
  import opened Protocol
  import opened Safety
  import opened Services
  import opened Idempotency

  // ---------- a key that is in use ----------

  /** The event of an item as the tickets spell it. */
  function EventOf(item: Item): string { if HexId(item.event) then Lower(item.event) else item.event }

  /** For every event and zone name, the order has as many tickets as the request has items. */
  ghost predicate SamePlaces(tickets: seq<Ticket>, o: nat, items: seq<Item>) {
    forall e: string, z: string :: TicketsAt(tickets, o, e, z) == ItemsAt(items, e, z)
  }

  function TicketsAt(tickets: seq<Ticket>, o: nat, e: string, z: string): int {
    Sum(tickets, (t: Ticket) => Ind(t.order == o && t.key.event == e && Lower(Strip(t.key.zone)) == z))
  }

  function ItemsAt(items: seq<Item>, e: string, z: string): int {
    Sum(items, (i: Item) => Ind(EventOf(i) == e && Lower(Strip(i.zone)) == z))
  }

  lemma {:induction false} TicketSignatures(tickets: seq<Ticket>, o: nat, e: string, z: string)
    ensures TicketsAt(tickets, o, e, z) == ZoneSignatures(tickets, o)[(e, z)]
  {
    if tickets != [] { TicketSignatures(tickets[1..], o, e, z); }
  }

  lemma {:induction false} RequestSignatures(items: seq<Item>, e: string, z: string)
    ensures ItemsAt(items, e, z) == ItemSignatures(items)[(e, z)]
  {
    if items != [] {
      HexIdIs(items[0].event);
      RequestSignatures(items[1..], e, z);
    }
  }

  /** The fingerprint compares the user and, for every event and zone name, the number of tickets. */
  lemma FingerprintMeans(db: Postgres, o: nat, req: Request)
    requires o < |db.orders|
    ensures SamePayload(db, o, req) <==> db.orders[o].user == req.user && SamePlaces(db.tickets, o, req.items)
  {
    var a, b := ZoneSignatures(db.tickets, o), ItemSignatures(req.items);
    forall e: string, z: string
      ensures TicketsAt(db.tickets, o, e, z) == a[(e, z)] && ItemsAt(req.items, e, z) == b[(e, z)]
    {
      TicketSignatures(db.tickets, o, e, z);
      RequestSignatures(req.items, e, z);
    }
    if SamePlaces(db.tickets, o, req.items) {
      forall x: (string, string) ensures a[x] == b[x] {
        assert TicketsAt(db.tickets, o, x.0, x.1) == ItemsAt(req.items, x.0, x.1);
        assert x == (x.0, x.1);
      }
    }
  }

  lemma KeyFound(orders: seq<Order>, o: nat, key: string)
    requires KeysUnique(orders) && o < |orders| && orders[o].key == Some(key)
    ensures FindKey(orders, key) == Some(o)
  {}

  /** The answer to a request whose key is carried by an order. */
  ghost function KeyAnswer(db: Postgres, o: nat, req: Request): Outcome
    requires o < |db.orders|
  {
    if db.orders[o].user == req.user && SamePlaces(db.tickets, o, req.items) then Replayed(o) else KeyReused
  }

  /** A key in use: the order is returned exactly if it is of the same user, with as many tickets for every event and
    zone as were asked for, and the key is refused otherwise. Nothing is written, and no counter asked. */
  lemma KeyInUse(catalog: Catalog, users: set<int>, zones: Zones, db: Postgres, req: Request, now: int,
                 net: nat -> Fault, c: nat, up: bool, o: nat)
    requires KeysUnique(db.orders) && o < |db.orders| && db.orders[o].key == req.key
    requires req.key.Some? && req.key.value != ""
    ensures BookResult(catalog, users, zones, db, req, now, net, c, up)
            == Ending(db, zones, c, KeyAnswer(db, o, req), [])
  {
    KeyFound(db.orders, o, req.key.value);
    FingerprintMeans(db, o, req);
  }

  /** So does the process of a request. */
  lemma KeyInUseStep(s: State, p: nat, o: nat)
    requires p < |s.procs| && s.procs[p].Asked? && KeysUnique(s.db.orders)
    requires o < |s.db.orders| && s.db.orders[o].key == s.procs[p].req.key
    requires s.procs[p].req.key.Some? && s.procs[p].req.key.value != ""
    ensures LookupStep(s, p) == s.(procs := s.procs[p := Finished(KeyAnswer(s.db, o, s.procs[p].req))])
  {
    KeyFound(s.db.orders, o, s.procs[p].req.key.value);
    FingerprintMeans(s.db, o, s.procs[p].req);
  }

  // ---------- seats that are gone ----------

  predicate SameSeat(a: Line, b: Line) { a.key == b.key && a.seat.Some? && a.seat == b.seat }

  predicate SeatsDiffer(lines: seq<Line>) { forall i, j :: 0 <= i < j < |lines| ==> !SameSeat(lines[i], lines[j]) }

  /** The line shares its seat with none of these. */
  predicate Apart(l: Line, lines: seq<Line>) { forall i :: 0 <= i < |lines| ==> !SameSeat(l, lines[i]) }

  lemma {:induction false} InsertApart(l: Line, k: Line, sorted: seq<Line>)
    ensures Apart(l, Insert(k, sorted)) <==> !SameSeat(l, k) && Apart(l, sorted)
  {
    if sorted == [] || LockBefore(k, sorted[0]) {
      ConsApart(l, k, sorted);
    } else {
      InsertApart(l, k, sorted[1..]);
      ConsApart(l, sorted[0], Insert(k, sorted[1..]));
      ConsApart(l, sorted[0], sorted[1..]);
      assert sorted == [sorted[0]] + sorted[1..];
    }
  }

  lemma ConsApart(l: Line, k: Line, rest: seq<Line>)
    ensures Apart(l, [k] + rest) <==> !SameSeat(l, k) && Apart(l, rest)
  {
    var all := [k] + rest;
    assert all[0] == k && forall i :: 0 <= i < |rest| ==> all[i + 1] == rest[i];
    if Apart(l, all) {
      forall i | 0 <= i < |rest| ensures !SameSeat(l, rest[i]) {
        assert !SameSeat(l, all[i + 1]);
      }
    }
  }

  lemma ConsDiffers(l: Line, rest: seq<Line>)
    ensures SeatsDiffer([l] + rest) <==> SeatsDiffer(rest) && Apart(l, rest)
  {
    var all := [l] + rest;
    assert all[0] == l && forall i :: 0 <= i < |rest| ==> all[i + 1] == rest[i];
    if SeatsDiffer(all) {
      forall i | 0 <= i < |rest| ensures !SameSeat(l, rest[i]) {
        assert !SameSeat(all[0], all[i + 1]);
      }
      forall i, j | 0 <= i < j < |rest| ensures !SameSeat(rest[i], rest[j]) {
        assert !SameSeat(all[i + 1], all[j + 1]);
      }
    }
  }

  lemma {:induction false} InsertDiffers(l: Line, sorted: seq<Line>)
    ensures SeatsDiffer(Insert(l, sorted)) <==> SeatsDiffer(sorted) && Apart(l, sorted)
  {
    if sorted == [] || LockBefore(l, sorted[0]) {
      ConsDiffers(l, sorted);
    } else {
      var tail := sorted[1..];
      InsertDiffers(l, tail);
      InsertApart(sorted[0], l, tail);
      ConsDiffers(sorted[0], Insert(l, tail));
      ConsDiffers(sorted[0], tail);
      ConsApart(l, sorted[0], tail);
      assert sorted == [sorted[0]] + tail;
    }
  }

  lemma {:induction false} SortApart(l: Line, lines: seq<Line>)
    ensures Apart(l, SortLines(lines)) <==> Apart(l, lines)
  {
    if lines != [] {
      var front, last := lines[..|lines| - 1], lines[|lines| - 1];
      SortApart(l, front);
      InsertApart(l, last, SortLines(front));
      assert lines == front + [last];
      assert Apart(l, front) && !SameSeat(l, last) ==> Apart(l, lines);
    }
  }

  /** Sorting changes nothing about that. */
  lemma {:induction false} SortDiffers(lines: seq<Line>)
    ensures SeatsDiffer(SortLines(lines)) <==> SeatsDiffer(lines)
  {
    if lines != [] {
      var front, last := lines[..|lines| - 1], lines[|lines| - 1];
      SortDiffers(front);
      InsertDiffers(last, SortLines(front));
      SortApart(last, front);
      SnocDiffers(front, last);
      assert lines == front + [last];
    }
  }

  lemma SnocDiffers(front: seq<Line>, last: Line)
    ensures SeatsDiffer(front + [last]) <==> SeatsDiffer(front) && Apart(last, front)
  {
    var n, all := |front|, front + [last];
    assert all[n] == last && forall i :: 0 <= i < n ==> all[i] == front[i];
    if SeatsDiffer(all) {
      forall i | 0 <= i < n ensures !SameSeat(last, front[i]) {
        assert !SameSeat(all[i], all[n]);
      }
      forall i, j | 0 <= i < j < n ensures !SameSeat(front[i], front[j]) {
        assert !SameSeat(all[i], all[j]);
      }
    } else {
      var i, j :| 0 <= i < j < |all| && SameSeat(all[i], all[j]);
      assert j < n ==> SameSeat(front[i], front[j]);
      assert j == n ==> SameSeat(last, front[i]);
    }
  }

  /** No active ticket has the seat of the line. */
  predicate SeatFree(tickets: seq<Ticket>, l: Line) {
    l.seat.Some? ==> forall t :: 0 <= t < |tickets| ==> !HoldsSeat(tickets[t], l.key, l.seat.value)
  }

  predicate SeatsFree(tickets: seq<Ticket>, lines: seq<Line>) {
    forall i :: 0 <= i < |lines| ==> SeatFree(tickets, lines[i])
  }

  lemma SortFree(tickets: seq<Ticket>, lines: seq<Line>)
    ensures SeatsFree(tickets, SortLines(lines)) <==> SeatsFree(tickets, lines)
  {
    SortKeepsLines(lines);
    var sorted := SortLines(lines);
    if SeatsFree(tickets, lines) {
      forall i | 0 <= i < |sorted| ensures SeatFree(tickets, sorted[i]) {
        assert sorted[i] in lines;
        var j :| 0 <= j < |lines| && lines[j] == sorted[i];
      }
    }
    if SeatsFree(tickets, sorted) {
      forall i | 0 <= i < |lines| ensures SeatFree(tickets, lines[i]) {
        assert lines[i] in sorted;
        var j :| 0 <= j < |sorted| && sorted[j] == lines[i];
      }
    }
  }

  lemma IndexRefusesTwice(tickets: seq<Ticket>, o: nat, lines: seq<Line>, i: nat, j: nat)
    requires SeatsUnique(tickets + NewTickets(o, lines)) && i < j < |lines|
    ensures !SameSeat(lines[i], lines[j])
  {
    var n, all := |tickets|, tickets + NewTickets(o, lines);
    assert all[n + i] == NewTicket(o, lines[i]) && all[n + j] == NewTicket(o, lines[j]);
    assert !SameActiveSeat(all[n + i], all[n + j]);
  }

  lemma IndexRefusesTaken(tickets: seq<Ticket>, o: nat, lines: seq<Line>, j: nat, t: nat)
    requires SeatsUnique(tickets + NewTickets(o, lines)) && j < |lines| && t < |tickets| && lines[j].seat.Some?
    ensures !HoldsSeat(tickets[t], lines[j].key, lines[j].seat.value)
  {
    var all := tickets + NewTickets(o, lines);
    assert all[|tickets| + j] == NewTicket(o, lines[j]) && all[t] == tickets[t];
    assert !SameActiveSeat(all[t], all[|tickets| + j]);
  }

  lemma IndexRefuses(tickets: seq<Ticket>, o: nat, lines: seq<Line>)
    requires SeatsUnique(tickets + NewTickets(o, lines))
    ensures SeatsDiffer(lines) && SeatsFree(tickets, lines)
  {
    forall i, j | 0 <= i < j < |lines| ensures !SameSeat(lines[i], lines[j]) {
      IndexRefusesTwice(tickets, o, lines, i, j);
    }
    forall j | 0 <= j < |lines| ensures SeatFree(tickets, lines[j]) {
      forall t | 0 <= t < |tickets| && lines[j].seat.Some?
        ensures !HoldsSeat(tickets[t], lines[j].key, lines[j].seat.value)
      {
        IndexRefusesTaken(tickets, o, lines, j, t);
      }
    }
  }

  lemma IndexAdmits(tickets: seq<Ticket>, o: nat, lines: seq<Line>)
    requires SeatsUnique(tickets) && SeatsDiffer(lines) && SeatsFree(tickets, lines)
    ensures SeatsUnique(tickets + NewTickets(o, lines))
  {
    var n, all := |tickets|, tickets + NewTickets(o, lines);
    forall i, j | 0 <= i < j < |all| ensures !SameActiveSeat(all[i], all[j]) {
      if j < n {
        assert !SameActiveSeat(tickets[i], tickets[j]);
      } else if i >= n {
        assert !SameSeat(lines[i - n], lines[j - n]);
      } else {
        assert SeatFree(tickets, lines[j - n]);
      }
    }
  }

  /** The item at i and the line at i want the same seat. */
  lemma WantsAt(catalog: Catalog, items: seq<Item>, lines: seq<Line>, i: nat, key: ZoneKey, seat: string)
    requires AreLinesOf(catalog, items, lines) && i < |items|
    ensures Wants(catalog, items[i], key, seat) <==> lines[i].key == key && lines[i].seat == Some(seat)
  {
    WantsItsLine(catalog, items[i], lines[i], key, seat);
  }

  lemma TwiceMeans(catalog: Catalog, items: seq<Item>, lines: seq<Line>)
    requires AreLinesOf(catalog, items, lines)
    ensures AskedTwice(catalog, items) <==> !SeatsDiffer(lines)
  {
    if AskedTwice(catalog, items) {
      var i, j, key, seat :| 0 <= i < j < |items|
                             && Wants(catalog, items[i], key, seat) && Wants(catalog, items[j], key, seat);
      WantsAt(catalog, items, lines, i, key, seat);
      WantsAt(catalog, items, lines, j, key, seat);
      assert SameSeat(lines[i], lines[j]);
    }
    if i, j :| 0 <= i < j < |lines| && SameSeat(lines[i], lines[j]) {
      WantsAt(catalog, items, lines, i, lines[i].key, lines[i].seat.value);
      WantsAt(catalog, items, lines, j, lines[i].key, lines[i].seat.value);
    }
  }

  lemma TakenMeans(tickets: seq<Ticket>, catalog: Catalog, items: seq<Item>, lines: seq<Line>)
    requires AreLinesOf(catalog, items, lines)
    ensures AlreadyHeld(tickets, catalog, items) <==> !SeatsFree(tickets, lines)
  {
    if AlreadyHeld(tickets, catalog, items) {
      var i, t, key, seat :| 0 <= i < |items| && 0 <= t < |tickets|
                             && Wants(catalog, items[i], key, seat) && HoldsSeat(tickets[t], key, seat);
      WantsAt(catalog, items, lines, i, key, seat);
      assert !SeatFree(tickets, lines[i]);
    }
    if i :| 0 <= i < |lines| && !SeatFree(tickets, lines[i]) {
      WantsAt(catalog, items, lines, i, lines[i].key, lines[i].seat.value);
    }
  }

  /** The unique index on active seats refuses the new tickets exactly when a seat of the request is gone. */
  lemma SeatGoneMeans(tickets: seq<Ticket>, o: nat, catalog: Catalog, items: seq<Item>, lines: seq<Line>)
    requires SeatsUnique(tickets) && AreLinesOf(catalog, items, lines)
    ensures SeatsUnique(tickets + NewTickets(o, SortLines(lines))) <==> !SeatGone(tickets, catalog, items)
  {
    TwiceMeans(catalog, items, lines);
    TakenMeans(tickets, catalog, items, lines);
    SortDiffers(lines);
    SortFree(tickets, lines);
    if SeatsUnique(tickets + NewTickets(o, SortLines(lines))) {
      IndexRefuses(tickets, o, SortLines(lines));
    } else if !SeatGone(tickets, catalog, items) {
      IndexAdmits(tickets, o, SortLines(lines));
    }
  }

  // ---------- room ----------

  lemma {:induction false} InsertOccurrences(l: Line, sorted: seq<Line>, z: ZoneKey)
    ensures Occurrences(LineKeys(Insert(l, sorted)), z) == Occurrences(LineKeys(sorted), z) + Ind(l.key == z)
  {
    if sorted == [] || LockBefore(l, sorted[0]) {
      assert LineKeys([l] + sorted)[1..] == LineKeys(sorted);
    } else {
      InsertOccurrences(l, sorted[1..], z);
      assert LineKeys(Insert(l, sorted))[1..] == LineKeys(Insert(l, sorted[1..]));
      assert LineKeys(sorted)[1..] == LineKeys(sorted[1..]);
    }
  }

  lemma {:induction false} SortOccurrences(lines: seq<Line>, z: ZoneKey)
    ensures Occurrences(LineKeys(SortLines(lines)), z) == Occurrences(LineKeys(lines), z)
  {
    if lines != [] {
      var front, last := lines[..|lines| - 1], lines[|lines| - 1];
      SortOccurrences(front, z);
      InsertOccurrences(last, SortLines(front), z);
      assert LineKeys(lines) == LineKeys(front) + [last.key];
      SumAppend(LineKeys(front), [last.key], KeyIs(z));
    }
  }

  lemma {:induction false} NoneElsewhere(groups: seq<Group>, z: ZoneKey)
    requires forall g :: g in groups ==> g.key != z
    ensures Seats(groups, z) == 0
  {
    SumZero(groups, QuantityAt(z));
  }

  lemma {:induction false} GroupIsAll(groups: seq<Group>, i: nat)
    requires DistinctKeys(groups) && i < |groups|
    ensures Seats(groups, groups[i].key) == groups[i].quantity
  {
    var rest := groups[1..];
    assert forall j :: 0 <= j < |rest| ==> rest[j] == groups[j + 1];
    if i == 0 {
      NoneElsewhere(rest, groups[0].key);
    } else {
      GroupIsAll(rest, i - 1);
    }
  }

  /** In every zone the counter leaves room for the items that want it. */
  ghost predicate RoomForAll(zones: Zones, catalog: Catalog, items: seq<Item>) {
    forall z :: WantedIn(catalog, items, z) > 0 ==> RoomAt(zones, z, WantedIn(catalog, items, z))
  }

  predicate RoomAt(zones: Zones, z: ZoneKey, wanted: int) {
    z in zones && zones[z].booked + wanted <= zones[z].capacity
  }

  lemma WantedSeats(catalog: Catalog, items: seq<Item>, lines: seq<Line>, z: ZoneKey)
    requires AreLinesOf(catalog, items, lines)
    ensures Seats(GroupKeys(LineKeys(SortLines(lines))), z) == WantedIn(catalog, items, z)
  {
    WantedCount(catalog, items, lines, z);
    SortOccurrences(lines, z);
    GroupingCounts(LineKeys(SortLines(lines)), z);
  }

  lemma RoomOfGroup(catalog: Catalog, zones: Zones, items: seq<Item>, i: nat)
    requires CatalogOk(catalog, zones) && ValidateAll(catalog, items).Ok?
    requires i < |GroupKeys(LineKeys(SortLines(ValidateAll(catalog, items).value)))|
    ensures var g := GroupKeys(LineKeys(SortLines(ValidateAll(catalog, items).value)))[i];
      WantedIn(catalog, items, g.key) == g.quantity > 0
      && (HasRoom(zones, CapacitiesRead(catalog, items), g) <==> RoomAt(zones, g.key, g.quantity))
  {
    var lines := ValidateAll(catalog, items).value;
    var groups := GroupKeys(LineKeys(SortLines(lines)));
    ItemsMean(catalog, items);
    WantedSeats(catalog, items, lines, groups[i].key);
    GroupingShape(LineKeys(SortLines(lines)));
    GroupIsAll(groups, i);
    CapacitiesKnown(catalog, items, SortLines(lines));
    CapacitiesCurrent(catalog, zones, items);
    assert groups[i] in groups;
  }

  /** Every group of the order fits exactly when there is room for all items. */
  lemma RoomMeans(catalog: Catalog, zones: Zones, items: seq<Item>)
    requires CatalogOk(catalog, zones) && ValidateAll(catalog, items).Ok?
    ensures Fits(zones, CapacitiesRead(catalog, items),
                 GroupKeys(LineKeys(SortLines(ValidateAll(catalog, items).value))))
         <==> RoomForAll(zones, catalog, items)
  {
    var lines := ValidateAll(catalog, items).value;
    var groups := GroupKeys(LineKeys(SortLines(lines)));
    ItemsMean(catalog, items);
    forall i | 0 <= i < |groups|
      ensures WantedIn(catalog, items, groups[i].key) == groups[i].quantity > 0
      ensures HasRoom(zones, CapacitiesRead(catalog, items), groups[i])
              <==> RoomAt(zones, groups[i].key, groups[i].quantity)
    {
      RoomOfGroup(catalog, zones, items, i);
    }
    if Fits(zones, CapacitiesRead(catalog, items), groups) {
      forall z | WantedIn(catalog, items, z) > 0 ensures RoomAt(zones, z, WantedIn(catalog, items, z)) {
        WantedSeats(catalog, items, lines, z);
        var i := SumPositive(groups, QuantityAt(z));
        assert HasRoom(zones, CapacitiesRead(catalog, items), groups[i]);
      }
    }
  }

  // ---------- the answer to a new request ----------

  predicate Carried(orders: seq<Order>, key: Option<string>) {
    key.Some? && exists o :: 0 <= o < |orders| && orders[o].key == key
  }

  /** The first mistake, else a zone without room, else an unknown user, else a seat that is gone; else the order. */
  ghost function NewAnswer(catalog: Catalog, users: set<int>, zones: Zones, db: Postgres, req: Request): Outcome {
    if FirstMistake(catalog, req.items).Some? then BadRequest(FirstMistake(catalog, req.items).value)
    else if !RoomForAll(zones, catalog, req.items) then NoSeatsLeft
    else RowsAnswer(catalog, users, db, req)
  }

  /** What PostgreSQL has to say about it. */
  ghost function RowsAnswer(catalog: Catalog, users: set<int>, db: Postgres, req: Request): Outcome {
    if Carried(db.orders, req.key) then ServerError
    else if req.user !in users then UnknownUser
    else if SeatGone(db.tickets, catalog, req.items) then SeatClash
    else Placed(|db.orders|)
  }

  lemma RowsMean(catalog: Catalog, users: set<int>, db: Postgres, req: Request, lines: seq<Line>, now: int)
    requires SeatsUnique(db.tickets) && AreLinesOf(catalog, req.items, lines)
    ensures RowsAnswer(catalog, users, db, req)
         == match InsertOrder(db, users, req.user, req.key, SortLines(lines), now)
            case Ok(_) => Placed(|db.orders|)
            case Err(v) => Refusal(v)
  {
    SeatGoneMeans(db.tickets, |db.orders|, catalog, req.items, lines);
  }

  /** A booking whose key is new is answered like this, when nothing fails. */
  lemma NewRequestAnswered(catalog: Catalog, users: set<int>, zones: Zones, db: Postgres, req: Request, now: int,
                           net: nat -> Fault, c: nat)
    requires Calm(net) && Sound(zones) && CatalogOk(catalog, zones) && SeatsUnique(db.tickets)
    requires req.key.None? || req.key == Some("") || !Carried(db.orders, req.key)
    ensures BookResult(catalog, users, zones, db, req, now, net, c, true).outcome
         == NewAnswer(catalog, users, zones, db, req)
  {
    ItemsMean(catalog, req.items);
    if FirstMistake(catalog, req.items).None? {
      var lines := ValidateAll(catalog, req.items).value;
      RowsMean(catalog, users, db, req, lines, now);
      ReservedWhenRoom(catalog, zones, req.items, net, c);
    }
  }

  lemma ReservedWhenRoom(catalog: Catalog, zones: Zones, items: seq<Item>, net: nat -> Fault, c: nat)
    requires Calm(net) && Sound(zones) && CatalogOk(catalog, zones) && ValidateAll(catalog, items).Ok?
    ensures var groups := GroupKeys(LineKeys(SortLines(ValidateAll(catalog, items).value)));
      ReserveUnder(zones, net, c, CapacitiesRead(catalog, items), [], groups).result
      == if RoomForAll(zones, catalog, items) then Reserved else SoldOut
  {
    var sorted := SortLines(ValidateAll(catalog, items).value);
    RoomMeans(catalog, zones, items);
    GroupingShape(LineKeys(sorted));
    CapacitiesKnown(catalog, items, sorted);
    CapacitiesCurrent(catalog, zones, items);
    ReserveFacts(zones, net, c, CapacitiesRead(catalog, items), GroupKeys(LineKeys(sorted)));
  }

  /** Whatever fails: an order is placed only for a request without mistake, of a known user, with a new key, and none
    of whose seats is gone. */
  lemma PlacedOnlyIf(catalog: Catalog, users: set<int>, zones: Zones, db: Postgres, req: Request, now: int,
                     net: nat -> Fault, c: nat, up: bool)
    requires SeatsUnique(db.tickets)
    ensures BookResult(catalog, users, zones, db, req, now, net, c, up).outcome == Placed(|db.orders|) ==>
      && FirstMistake(catalog, req.items).None? && !Carried(db.orders, req.key)
      && req.user in users && !SeatGone(db.tickets, catalog, req.items)
  {
    ItemsMean(catalog, req.items);
    if BookResult(catalog, users, zones, db, req, now, net, c, up).outcome == Placed(|db.orders|) {
      PlacedByInsert(catalog, users, zones, db, req, now, net, c, up);
      RowsMean(catalog, users, db, req, ValidateAll(catalog, req.items).value, now);
    }
  }

  lemma LinesPlaced(capacities: map<ZoneKey, nat>, users: set<int>, zones: Zones, db: Postgres, req: Request,
                    lines: seq<Line>, now: int, net: nat -> Fault, c: nat, up: bool)
    ensures var e := LinesResult(capacities, users, zones, db, req, lines, now, net, c, up).outcome;
      e.Placed? ==> up && e == Placed(|db.orders|)
  {}

  /** Without PostgreSQL there is no order, and an order is the next one. */
  lemma PlacedIsNext(catalog: Catalog, users: set<int>, zones: Zones, db: Postgres, req: Request, now: int,
                     net: nat -> Fault, c: nat, up: bool)
    ensures var e := BookResult(catalog, users, zones, db, req, now, net, c, up).outcome;
      e.Placed? ==> up && e == Placed(|db.orders|)
  {
    if ValidateAll(catalog, req.items).Ok? {
      LinesPlaced(CapacitiesRead(catalog, req.items), users, zones, db, req,
                  SortLines(ValidateAll(catalog, req.items).value), now, net, c, up);
    }
  }

  /** A request without mistake and with a new key, some MongoDB call of which raised, or which PostgreSQL did not
    accept, is told that the service is unavailable, and leaves PostgreSQL as it was. */
  lemma UnreachableAnswered(catalog: Catalog, users: set<int>, zones: Zones, db: Postgres, req: Request, now: int,
                            net: nat -> Fault, c: nat, up: bool, lines: seq<Line>, held: ReserveResult)
    requires KeyUnused(db, req) && ValidateAll(catalog, req.items) == Ok(lines)
    requires held == ReserveUnder(zones, net, c, CapacitiesRead(catalog, req.items), [],
                                  GroupKeys(LineKeys(SortLines(lines)))).result
    requires held == Unreachable || (held == Reserved && !up)
    ensures var e := BookResult(catalog, users, zones, db, req, now, net, c, up); e.outcome == Unavailable && e.db == db
  {}

  // ---------- what a placed order is ----------

  /** The ticket of an item: its order, its zone, its seat, the price of the catalog; held. */
  predicate IsTicketOf(catalog: Catalog, item: Item, o: nat, t: Ticket) {
    && t.order == o && t.status == Held && t.seat == AskedSeat(item)
    && t.price >= 0 && IsFor(catalog, item, t.key, t.price)
  }

  /** One ticket an item, in the order of the items. */
  predicate AreTicketsOf(catalog: Catalog, items: seq<Item>, o: nat, tickets: seq<Ticket>) {
    |tickets| == |items| && forall i :: 0 <= i < |items| ==> IsTicketOf(catalog, items[i], o, tickets[i])
  }

  lemma {:induction false} InsertTickets(o: nat, l: Line, sorted: seq<Line>)
    ensures multiset(NewTickets(o, Insert(l, sorted))) == multiset(NewTickets(o, sorted)) + multiset{NewTicket(o, l)}
  {
    if sorted == [] || LockBefore(l, sorted[0]) {
      assert NewTickets(o, [l] + sorted) == [NewTicket(o, l)] + NewTickets(o, sorted);
    } else {
      InsertTickets(o, l, sorted[1..]);
      assert NewTickets(o, Insert(l, sorted)) == [NewTicket(o, sorted[0])] + NewTickets(o, Insert(l, sorted[1..]));
      assert NewTickets(o, sorted) == [NewTicket(o, sorted[0])] + NewTickets(o, sorted[1..]);
    }
  }

  lemma {:induction false} SortTickets(o: nat, lines: seq<Line>)
    ensures multiset(NewTickets(o, SortLines(lines))) == multiset(NewTickets(o, lines))
  {
    if lines != [] {
      var front, last := lines[..|lines| - 1], lines[|lines| - 1];
      SortTickets(o, front);
      InsertTickets(o, last, SortLines(front));
      assert NewTickets(o, lines) == NewTickets(o, front) + [NewTicket(o, last)];
    }
  }

  function TicketPrice(): Ticket -> int { (t: Ticket) => t.price }

  /** The rows of a new order. */
  ghost predicate AreRowsOf(catalog: Catalog, db: Postgres, req: Request, now: int, slip: seq<Ticket>, after: Postgres)
  {
    var o := |db.orders|;
    && AreTicketsOf(catalog, req.items, o, slip)
    && after.orders == db.orders + [Order(req.user, Sum(slip, TicketPrice()), Pending, Some(now + 600), req.key)]
    && |after.tickets| == |db.tickets| + |req.items| && after.tickets[..|db.tickets|] == db.tickets
    && multiset(after.tickets[|db.tickets|..]) == multiset(slip)
    && after.payments == db.payments && after.outbox == db.outbox + [OutboxRow(SeatHeld, o, Queued)]
  }

  lemma InsertedRows(catalog: Catalog, users: set<int>, db: Postgres, req: Request, lines: seq<Line>, now: int)
    returns (slip: seq<Ticket>)
    requires AreLinesOf(catalog, req.items, lines)
    requires InsertOrder(db, users, req.user, req.key, SortLines(lines), now).Ok?
    ensures AreRowsOf(catalog, db, req, now, slip,
                      InsertOrder(db, users, req.user, req.key, SortLines(lines), now).value)
  {
    slip := NewTickets(|db.orders|, lines);
    SortTickets(|db.orders|, lines);
    SortKeepsLines(lines);
    SortKeepsTotal(lines);
    SumEqual(lines, LinePrice(), slip, TicketPrice());
  }

  /** Whatever fails: a placed order has one held ticket an item, for the zone and the seat that the item names and at
    the catalog price; it is the user's, pending for ten minutes, its total is the sum of the prices, and it carries the
    key. Nothing else in the tables changes but one row more in the outbox. */
  lemma PlacedRows(catalog: Catalog, users: set<int>, zones: Zones, db: Postgres, req: Request, now: int,
                   net: nat -> Fault, c: nat, up: bool) returns (slip: seq<Ticket>)
    requires BookResult(catalog, users, zones, db, req, now, net, c, up).outcome.Placed?
    ensures AreRowsOf(catalog, db, req, now, slip, BookResult(catalog, users, zones, db, req, now, net, c, up).db)
  {
    ItemsMean(catalog, req.items);
    PlacedIsNext(catalog, users, zones, db, req, now, net, c, up);
    PlacedByInsert(catalog, users, zones, db, req, now, net, c, up);
    slip := InsertedRows(catalog, users, db, req, ValidateAll(catalog, req.items).value, now);
  }
}
