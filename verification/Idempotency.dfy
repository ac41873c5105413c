/** Requests that share an Idempotency-Key, sequential or concurrent, in any number. */
module Idempotency {
  import opened Wrappers
  import opened Sums
  import opened Store
  import opened Inventory
  import opened Booking
  import opened Protocol
  import opened Safety
  import opened Guarantees
  import opened WriteOffs
  import opened Services

  /** In every reachable state, whatever else goes on, at most one order carries a key. */
  lemma OneOrderPerKey(s: State, actions: seq<Action>, t: State, key: string, i: nat, j: nat)
    requires Reachable(s, actions, t)
    requires i < |t.db.orders| && j < |t.db.orders|
    requires t.db.orders[i].key == Some(key) && t.db.orders[j].key == Some(key)
    ensures i == j
  {
    ReachableInv(s, actions, t);
  }

  /** The only requests are bookings with this key. */
  predicate SameKeyTraffic(actions: seq<Action>, key: string) {
    forall i :: 0 <= i < |actions| && actions[i].Spawn? ==>
      actions[i].proc.Asked? && actions[i].proc.req.key == Some(key)
  }

  predicate KeyedBooking(q: Proc, key: string) {
    match q
    case Asked(req) => req.key == Some(key)
    case Reserving(req, _, _, _) => req.key == Some(key)
    case Undoing(_, _, _) => true
    case Finished(_) => true
    case Crashed => true
    case _ => false
  }

  predicate AllKeyed(procs: seq<Proc>, key: string) {
    forall i :: 0 <= i < |procs| ==> KeyedBooking(procs[i], key)
  }

  /** `b` is `a`, or `a` and one order with this key and its tickets. */
  ghost predicate AtMostOneMore(a: Postgres, b: Postgres, key: string) {
    && b.payments == a.payments
    && if b.orders == a.orders then b.tickets == a.tickets
       else
         && FindKey(a.orders, key).None?
         && |b.orders| == |a.orders| + 1 && a.orders <= b.orders && b.orders[|a.orders|].key == Some(key)
         && exists lines :: b.tickets == a.tickets + NewTickets(|a.orders|, lines)
  }

  /** A step moves one process only. */
  predicate MovesKeyed(s: State, key: string, a: Action, p: nat)
    requires Enabled(s, a) && p < |s.procs|
  {
    |Step(s, a).procs| == |s.procs| && Step(s, a).procs == s.procs[p := Step(s, a).procs[p]]
    && KeyedBooking(Step(s, a).procs[p], key)
  }

  lemma KeyedCall(s: State, key: string, a: Action)
    requires Enabled(s, a) && (a.Lookup? || a.Reserve? || a.Undo?) && KeyedBooking(s.procs[a.p], key)
    ensures MovesKeyed(s, key, a, a.p)
  {}

  lemma KeyedEnd(s: State, key: string, a: Action)
    requires Enabled(s, a) && (a.Write? || a.Settle? || a.Abort? || a.Crash?) && KeyedBooking(s.procs[a.p], key)
    ensures MovesKeyed(s, key, a, a.p)
  {}

  /** Bookings neither pay nor sweep nor release. */
  lemma OnlyBookingSteps(s: State, key: string, a: Action)
    requires AllKeyed(s.procs, key) && Enabled(s, a)
    ensures !a.Lock? && !a.Pay? && !a.Claim? && !a.Sweep? && !a.Release?
  {
    assert forall i :: 0 <= i < |s.procs| ==> KeyedBooking(s.procs[i], key);
  }

  lemma KeyedProcs(s: State, key: string, a: Action)
    requires AllKeyed(s.procs, key)
    requires Enabled(s, a) && (a.Spawn? ==> a.proc.Asked? && a.proc.req.key == Some(key))
    ensures AllKeyed(Step(s, a).procs, key)
  {
    OnlyBookingSteps(s, key, a);
    if a.Lookup? || a.Reserve? || a.Undo? {
      KeyedCall(s, key, a);
    } else if !a.Spawn? && !a.Deliver? && !a.Purge? {
      KeyedEnd(s, key, a);
    }
  }

  lemma KeyedWrite(base: Postgres, s: State, key: string, p: nat, now: int)
    requires AllKeyed(s.procs, key) && AtMostOneMore(base, s.db, key) && Enabled(s, Write(p, now))
    ensures AtMostOneMore(base, Step(s, Write(p, now)).db, key)
  {
    var t := Step(s, Write(p, now));
    var q := s.procs[p];
    assert KeyedBooking(q, key);
    if InsertOrder(s.db, s.users, q.req.user, q.req.key, q.lines, now).Ok? {
      assert FindKey(s.db.orders, key).None?;
      assert s.db.orders == base.orders;
      assert t.db.tickets == base.tickets + NewTickets(|base.orders|, q.lines);
    }
  }

  lemma KeyedStep(base: Postgres, s: State, key: string, a: Action)
    requires AllKeyed(s.procs, key) && AtMostOneMore(base, s.db, key)
    requires Enabled(s, a) && (a.Spawn? ==> a.proc.Asked? && a.proc.req.key == Some(key))
    ensures AllKeyed(Step(s, a).procs, key) && AtMostOneMore(base, Step(s, a).db, key)
  {
    KeyedProcs(s, key, a);
    if a.Write? {
      KeyedWrite(base, s, key, a.p, a.now);
    } else {
      assert !a.Pay? && !a.Sweep?;
      OtherStepsKeepTables(s, a);
    }
  }

  lemma {:induction false} KeyedRun(base: Postgres, s: State, key: string, actions: seq<Action>, t: State)
    requires AllKeyed(s.procs, key) && AtMostOneMore(base, s.db, key)
    requires Run(s, actions, t) && SameKeyTraffic(actions, key)
    ensures AllKeyed(t.procs, key) && AtMostOneMore(base, t.db, key)
    decreases |actions|
  {
    if actions != [] {
      KeyedStep(base, s, key, actions[0]);
      assert forall i :: 0 <= i < |actions[1..]| ==> actions[1..][i] == actions[i + 1];
      KeyedRun(base, Step(s, actions[0]), key, actions[1..], t);
    }
  }

  /** Any number of racing requests with one key, all finished: the tables differ from before by at most one order and
    its tickets, and not at all if an order with that key existed already. The counters differ by the seats of those
    tickets exactly when no step wrote seats off. */
  lemma OneKeyOneOrder(s: State, actions: seq<Action>, t: State, key: string)
    requires Reachable(s, actions, t) && SameKeyTraffic(actions, key) && Quiescent(t)
    ensures AtMostOneMore(s.db, t.db, key) && |s.db.tickets| <= |t.db.tickets|
    ensures FindKey(s.db.orders, key).Some? ==> t.db.orders == s.db.orders && t.db.tickets == s.db.tickets
    ensures Clean(s, actions, t) <==>
            forall z :: Booked(t.zones, z) == Booked(s.zones, z) + ActiveSeats(t.db.tickets[|s.db.tickets|..], z)
  {
    KeyedRun(s.db, s, key, actions, t);
    QuiescentExact(s, actions, t);
    var added := t.db.tickets[|s.db.tickets|..];
    assert t.db.tickets == s.db.tickets + added;
    forall z ensures Drift(t, z) == Drift(s, z) <==> Booked(t.zones, z) == Booked(s.zones, z) + ActiveSeats(added, z) {
      SumAppend(s.db.tickets, added, ActiveAt(z));
    }
  }

  // ---------- a repeated request is recognised ----------

  function LineSignatures(lines: seq<Line>): multiset<(string, string)> {
    if lines == [] then multiset{}
    else multiset{(lines[0].key.event, ZoneName(lines[0].key.zone))} + LineSignatures(lines[1..])
  }

  lemma {:induction false} LineSignaturesSnoc(lines: seq<Line>, l: Line)
    ensures LineSignatures(lines + [l]) == LineSignatures(lines) + multiset{(l.key.event, ZoneName(l.key.zone))}
  {
    if lines == [] {
      assert [l][1..] == [];
    } else {
      assert (lines + [l])[1..] == lines[1..] + [l];
      LineSignaturesSnoc(lines[1..], l);
    }
  }

  lemma {:induction false} ItemSignaturesSnoc(items: seq<Item>, item: Item)
    ensures ItemSignatures(items + [item])
         == ItemSignatures(items) + multiset{(CanonicalEventId(item.event), ZoneName(item.zone))}
  {
    if items == [] {
      assert [item][1..] == [];
    } else {
      assert (items + [item])[1..] == items[1..] + [item];
      ItemSignaturesSnoc(items[1..], item);
    }
  }

  lemma {:induction false} InsertSignature(l: Line, sorted: seq<Line>)
    ensures LineSignatures(Insert(l, sorted)) == LineSignatures(sorted) + multiset{(l.key.event, ZoneName(l.key.zone))}
  {
    if sorted == [] || LockBefore(l, sorted[0]) {
      assert ([l] + sorted)[1..] == sorted;
    } else {
      InsertSignature(l, sorted[1..]);
      assert Insert(l, sorted)[1..] == Insert(l, sorted[1..]);
    }
  }

  lemma {:induction false} SortKeepsSignatures(lines: seq<Line>)
    ensures LineSignatures(SortLines(lines)) == LineSignatures(lines)
  {
    if lines != [] {
      var n := |lines| - 1;
      SortKeepsSignatures(lines[..n]);
      InsertSignature(lines[n], SortLines(lines[..n]));
      LineSignaturesSnoc(lines[..n], lines[n]);
      assert lines == lines[..n] + [lines[n]];
    }
  }

  lemma ValidatedSignature(catalog: Catalog, item: Item)
    requires Validate(catalog, item).Ok?
    ensures var key := Validate(catalog, item).value.key;
      key.event == CanonicalEventId(item.event) && ZoneName(key.zone) == ZoneName(item.zone)
  {}

  lemma ValidatedLast(catalog: Catalog, items: seq<Item>, lines: seq<Line>)
    requires items != [] && ValidateAll(catalog, items) == Ok(lines)
    ensures lines != [] && ValidateAll(catalog, items[..|items| - 1]) == Ok(lines[..|lines| - 1])
    ensures Validate(catalog, items[|items| - 1]) == Ok(lines[|lines| - 1])
  {
    var n := |items| - 1;
    var before, line := ValidateAll(catalog, items[..n]).value, Validate(catalog, items[n]).value;
    assert lines == before + [line];
  }

  /** However event ids and zones are spelled, the validated lines carry the fingerprint of the request. */
  lemma {:induction false} ValidatedSignatures(catalog: Catalog, items: seq<Item>, lines: seq<Line>)
    requires ValidateAll(catalog, items) == Ok(lines)
    ensures LineSignatures(lines) == ItemSignatures(items)
    decreases |items|
  {
    if items != [] {
      var n, m := |items| - 1, |lines| - 1;
      ValidatedLast(catalog, items, lines);
      ValidatedSignatures(catalog, items[..n], lines[..m]);
      LastLineSignature(lines);
      LastItemSignature(items);
      ValidatedSignature(catalog, items[n]);
    }
  }

  lemma LastLineSignature(lines: seq<Line>)
    requires lines != []
    ensures var l := lines[|lines| - 1];
      LineSignatures(lines) == LineSignatures(lines[..|lines| - 1]) + multiset{(l.key.event, ZoneName(l.key.zone))}
  {
    LineSignaturesSnoc(lines[..|lines| - 1], lines[|lines| - 1]);
    assert lines[..|lines| - 1] + [lines[|lines| - 1]] == lines;
  }

  lemma LastItemSignature(items: seq<Item>)
    requires items != []
    ensures var item := items[|items| - 1];
      ItemSignatures(items)
      == ItemSignatures(items[..|items| - 1]) + multiset{(CanonicalEventId(item.event), ZoneName(item.zone))}
  {
    ItemSignaturesSnoc(items[..|items| - 1], items[|items| - 1]);
    assert items[..|items| - 1] + [items[|items| - 1]] == items;
  }

  lemma {:induction false} NewTicketSignatures(o: nat, lines: seq<Line>)
    ensures ZoneSignatures(NewTickets(o, lines), o) == LineSignatures(lines)
  {
    if lines != [] {
      NewTicketSignatures(o, lines[1..]);
      assert NewTickets(o, lines)[1..] == NewTickets(o, lines[1..]);
    }
  }

  /** Tickets evolve and other orders' tickets are added: the fingerprint of an order stays. */
  lemma {:induction false} SignaturesStay(a: seq<Ticket>, b: seq<Ticket>, o: nat)
    requires |a| <= |b|
    requires forall i :: 0 <= i < |a| ==> b[i].order == a[i].order && b[i].key == a[i].key
    requires forall i :: |a| <= i < |b| ==> b[i].order != o
    ensures ZoneSignatures(b, o) == ZoneSignatures(a, o)
  {
    if b != [] {
      if a == [] {
        assert forall i :: 0 <= i < |b[1..]| ==> b[1..][i] == b[i + 1];
        SignaturesStay([], b[1..], o);
      } else {
        assert forall i :: 0 <= i < |b[1..]| ==> b[1..][i] == b[i + 1];
        SignaturesStay(a[1..], b[1..], o);
      }
    }
  }

  lemma {:induction false} OthersSignatures(a: seq<Ticket>, b: seq<Ticket>, o: nat)
    requires forall i :: 0 <= i < |a| ==> a[i].order != o
    ensures ZoneSignatures(a + b, o) == ZoneSignatures(b, o)
  {
    if a == [] {
      assert a + b == b;
    } else {
      assert (a + b)[1..] == a[1..] + b;
      OthersSignatures(a[1..], b, o);
    }
  }

  /** The order a request places carries the request's fingerprint. */
  lemma PlacedFingerprint(catalog: Catalog, db: Postgres, req: Request, lines: seq<Line>)
    requires Linked(db) && ValidateAll(catalog, req.items) == Ok(lines)
    ensures ZoneSignatures(db.tickets + NewTickets(|db.orders|, SortLines(lines)), |db.orders|)
            == ItemSignatures(req.items)
  {
    OthersSignatures(db.tickets, NewTickets(|db.orders|, SortLines(lines)), |db.orders|);
    NewTicketSignatures(|db.orders|, SortLines(lines));
    SortKeepsSignatures(lines);
    ValidatedSignatures(catalog, req.items, lines);
  }

  lemma {:induction false} PlacedOfLines(capacities: map<ZoneKey, nat>, users: set<int>, zones: Zones, db: Postgres,
                                         req: Request, lines: seq<Line>, now: int, net: nat -> Fault, c: nat, up: bool)
    requires LinesResult(capacities, users, zones, db, req, lines, now, net, c, up).outcome == Placed(|db.orders|)
    ensures InsertOrder(db, users, req.user, req.key, lines, now)
         == Ok(LinesResult(capacities, users, zones, db, req, lines, now, net, c, up).db)
  {}

  /** An order is placed only by the transaction, for the validated and sorted lines. */
  lemma {:induction false} PlacedByInsert(catalog: Catalog, users: set<int>, zones: Zones, db: Postgres, req: Request,
                                          now: int, net: nat -> Fault, c: nat, up: bool)
    requires BookResult(catalog, users, zones, db, req, now, net, c, up).outcome == Placed(|db.orders|)
    ensures ValidateAll(catalog, req.items).Ok?
    ensures var lines := SortLines(ValidateAll(catalog, req.items).value);
      InsertOrder(db, users, req.user, req.key, lines, now)
      == Ok(BookResult(catalog, users, zones, db, req, now, net, c, up).db)
  {
    var lines := SortLines(ValidateAll(catalog, req.items).value);
    PlacedOfLines(CapacitiesRead(catalog, req.items), users, zones, db, req, lines, now, net, c, up);
  }

  /** What placing an order leaves behind. */
  lemma PlacedRow(catalog: Catalog, users: set<int>, db: Postgres, req: Request, lines: seq<Line>, now: int,
                  after: Postgres)
    requires Linked(db) && ValidateAll(catalog, req.items) == Ok(lines)
    requires InsertOrder(db, users, req.user, req.key, SortLines(lines), now) == Ok(after)
    ensures |after.orders| == |db.orders| + 1 && after.orders[|db.orders|].key == req.key
    ensures SamePayload(after, |db.orders|, req)
  {
    PlacedFingerprint(catalog, db, req, lines);
  }

  /** The same request again, whatever has happened in between and whatever fails: the order it placed is found by its
    key, recognised by its fingerprint and returned; nothing is written and no counter is asked. */
  lemma RepeatIsReplayed(catalog: Catalog, users: set<int>, zones: Zones, db: Postgres, req: Request, now: int,
                         net: nat -> Fault, c: nat, up: bool, later: Postgres, laterZones: Zones, laterNow: int,
                         laterNet: nat -> Fault, laterUp: bool)
    requires UsableKey(req.key) && Linked(db)
    requires BookResult(catalog, users, zones, db, req, now, net, c, up).outcome == Placed(|db.orders|)
    requires Linked(later) && KeysUnique(later.orders)
    requires Evolves(BookResult(catalog, users, zones, db, req, now, net, c, up).db, later)
    ensures BookResult(catalog, users, laterZones, later, req, laterNow, laterNet, 0, laterUp)
         == Ending(later, laterZones, 0, Replayed(|db.orders|), [])
  {
    var o := |db.orders|;
    var after := BookResult(catalog, users, zones, db, req, now, net, c, up).db;
    PlacedByInsert(catalog, users, zones, db, req, now, net, c, up);
    PlacedRow(catalog, users, db, req, ValidateAll(catalog, req.items).value, now, after);
    assert OrderEvolves(after.orders[o], later.orders[o]);
    forall i | 0 <= i < |after.tickets|
      ensures later.tickets[i].order == after.tickets[i].order && later.tickets[i].key == after.tickets[i].key
    {
      assert TicketEvolves(after.tickets[i], later.tickets[i], later.orders[later.tickets[i].order].status);
    }
    SignaturesStay(after.tickets, later.tickets, o);
    assert FindKey(later.orders, req.key.value) == Some(o);
  }

  /** A replay accepted by the fingerprint has as many tickets as the request has items. */
  lemma SamePayloadSameCount(db: Postgres, o: nat, req: Request)
    requires o < |db.orders| && SamePayload(db, o, req)
    ensures Sum(db.tickets, (t: Ticket) => Ind(t.order == o)) == |req.items|
  {
    CountTickets(db.tickets, o);
    CountItems(req.items);
  }

  lemma {:induction false} CountTickets(tickets: seq<Ticket>, o: nat)
    ensures Sum(tickets, (t: Ticket) => Ind(t.order == o)) == |ZoneSignatures(tickets, o)|
  {
    if tickets != [] { CountTickets(tickets[1..], o); }
  }

  lemma {:induction false} CountItems(items: seq<Item>)
    ensures |ItemSignatures(items)| == |items|
  {
    if items != [] { CountItems(items[1..]); }
  }
}
