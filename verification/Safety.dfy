/** The invariant of the protocol, and its preservation by every step of every process. */
module Safety {
  import opened Wrappers
  import opened Sums
  import opened Store
  import opened Inventory
  import opened Booking
  import opened Protocol

  // ---------- the tables ----------

  /** pending orders hold seats, confirmed orders own them, expired and cancelled orders have none. */
  predicate StatusFits(order: OrderStatus, ticket: TicketStatus) {
    match order
    case Pending => ticket != Valid
    case Confirmed => ticket != Held
    case Expired => ticket != Held && ticket != Valid
    case Cancelled => ticket != Held && ticket != Valid
    case Paid => true
  }

  predicate Linked(db: Postgres) {
    && (forall i :: 0 <= i < |db.tickets| ==> db.tickets[i].order < |db.orders|)
    && (forall i :: 0 <= i < |db.payments| ==> db.payments[i].order < |db.orders|)
  }

  predicate StatusesFit(db: Postgres)
    requires Linked(db)
  {
    forall i :: 0 <= i < |db.tickets| ==> StatusFits(db.orders[db.tickets[i].order].status, db.tickets[i].status)
  }

  predicate TotalsFit(db: Postgres) {
    forall o :: 0 <= o < |db.orders| ==> db.orders[o].total == TicketTotal(db.tickets, o)
  }

  /** A confirmed order has one completed payment, and what was paid for an order is its total. */
  predicate PaidUp(db: Postgres, o: nat)
    requires o < |db.orders|
  {
    var count := CompletedCount(db.payments, o);
    && (db.orders[o].status == Confirmed ==> count == 1)
    && (count == 1 ==> PaidAmount(db.payments, o) == db.orders[o].total)
  }

  predicate LedgerFits(db: Postgres) { forall o :: 0 <= o < |db.orders| ==> PaidUp(db, o) }

  predicate TablesOk(db: Postgres) {
    && Linked(db) && StatusesFit(db) && TotalsFit(db) && LedgerFits(db)
    && KeysUnique(db.orders) && SeatsUnique(db.tickets) && PaidOnce(db.payments)
  }

  // ---------- processes ----------

  predicate CatalogOk(catalog: Catalog, zones: Zones) {
    forall e, i :: e in catalog && 0 <= i < |catalog[e]| ==>
      var k := ZoneKey(e, catalog[e][i].name);
      k in zones && zones[k].capacity == catalog[e][i].capacity && zones[k].price == catalog[e][i].price
  }

  predicate Known(zones: Zones, groups: seq<Group>) {
    forall i :: 0 <= i < |groups| ==> groups[i].key in zones && groups[i].quantity > 0
  }

  predicate OnSale(zones: Zones, lines: seq<Line>) {
    forall i :: 0 <= i < |lines| ==> lines[i].key in zones && lines[i].price == zones[lines[i].key].price
  }

  predicate ProcOk(db: Postgres, zones: Zones, q: Proc) {
    match q
    case Reserving(_, lines, taken, todo) =>
      taken + todo == GroupKeys(LineKeys(lines)) && OnSale(zones, lines) && Known(zones, taken + todo)
    case Undoing(owed, _, _) => Known(zones, owed)
    case PayLocked(o, _, row) => o < |db.orders| && db.orders[o] == row
    case SweepLocked(ids) =>
      Distinct(ids) && forall i :: 0 <= i < |ids| ==> ids[i] < |db.orders| && db.orders[ids[i]].status == Pending
    case Releasing(owed, _) => Known(zones, owed)
    case ReleasingOne(_, _, _, _) => false   // the fallback loop is never entered
    case _ => true
  }

  predicate ProcsOk(db: Postgres, zones: Zones, procs: seq<Proc>) {
    forall i :: 0 <= i < |procs| ==> ProcOk(db, zones, procs[i])
  }

  /** No row is locked by two processes. */
  ghost predicate LocksExclusive(procs: seq<Proc>) {
    forall i, j, o {:trigger procs[i].Locks(o), procs[j].Locks(o)} ::
      0 <= i < |procs| && 0 <= j < |procs| && procs[i].Locks(o) && procs[j].Locks(o) ==> i == j
  }

  // ---------- the books ----------

  function FlyingAt(z: ZoneKey): Proc -> int { (q: Proc) => Seats(q.InFlight(), z) }
  function InFlightSeats(procs: seq<Proc>, z: ZoneKey): int { Sum(procs, FlyingAt(z)) }

  function OwedAt(z: ZoneKey): Proc -> int { (q: Proc) => Seats(q.Owes(), z) }
  function OwedSeats(procs: seq<Proc>, z: ZoneKey): int { Sum(procs, OwedAt(z)) }

  /** Every seat a counter shows is an active ticket, a reservation in flight, a release still owed, or a known loss. */
  predicate BalancedAt(s: State, z: ZoneKey) {
    Booked(s.zones, z) == ActiveSeats(s.db.tickets, z) + InFlightSeats(s.procs, z) + OwedSeats(s.procs, z)
                          + Seats(s.lost, z) + Seats(s.unreleased, z)
  }

  /** Every cancelled ticket's seat was given back once, is still owed, or is a known loss. */
  predicate SettledAt(s: State, z: ZoneKey) {
    VoidedSeats(s.db.tickets, z) == Seats(s.returned, z) + OwedSeats(s.procs, z) + Seats(s.unreleased, z)
  }

  ghost predicate Inv(s: State) {
    && CatalogOk(s.catalog, s.zones)
    && Sound(s.zones)
    && TablesOk(s.db)
    && ProcsOk(s.db, s.zones, s.procs)
    && LocksExclusive(s.procs)
    && (forall z :: BalancedAt(s, z))
    && (forall z :: SettledAt(s, z))
  }

  /** Nobody is working and the books are balanced; `lost` and `unreleased` may hold what earlier crashes left. */
  ghost predicate Initial(s: State) {
    && CatalogOk(s.catalog, s.zones)
    && Sound(s.zones)
    && TablesOk(s.db)
    && s.procs == []
    && (forall z :: BalancedAt(s, z))
    && (forall z :: SettledAt(s, z))
  }

  lemma InitialInv(s: State)
    requires Initial(s)
    ensures Inv(s)
  {}

  // ---------- the zones change only in their counters ----------

  lemma SameZonesKeep(db: Postgres, a: Zones, b: Zones, catalog: Catalog, procs: seq<Proc>)
    requires SameZones(a, b) && CatalogOk(catalog, a) && ProcsOk(db, a, procs)
    ensures CatalogOk(catalog, b) && ProcsOk(db, b, procs)
  {
    forall i | 0 <= i < |procs| ensures ProcOk(db, b, procs[i]) {
      assert ProcOk(db, a, procs[i]);
    }
  }

  /** Replacing one process by one that locks no more rows keeps the row locks exclusive. */
  lemma ReplaceKeepsLocks(procs: seq<Proc>, p: nat, q: Proc)
    requires p < |procs| && LocksExclusive(procs)
    requires forall o: nat :: q.Locks(o) ==> procs[p].Locks(o) || !RowLocked(procs, o)
    ensures LocksExclusive(procs[p := q])
  {
    var next := procs[p := q];
    forall i, j, o: nat | 0 <= i < |next| && 0 <= j < |next| && next[i].Locks(o) && next[j].Locks(o)
      ensures i == j
    {
      if i != j && (i == p || j == p) {
        var other := if i == p then j else i;
        assert procs[other].Locks(o);
        assert RowLocked(procs, o);
      }
    }
  }

  lemma ReplaceSeats(procs: seq<Proc>, p: nat, q: Proc, z: ZoneKey)
    requires p < |procs|
    ensures InFlightSeats(procs[p := q], z)
         == InFlightSeats(procs, z) - Seats(procs[p].InFlight(), z) + Seats(q.InFlight(), z)
    ensures OwedSeats(procs[p := q], z) == OwedSeats(procs, z) - Seats(procs[p].Owes(), z) + Seats(q.Owes(), z)
  {
    SumUpdate(procs, p, q, FlyingAt(z));
    SumUpdate(procs, p, q, OwedAt(z));
  }

  lemma SeatsHead(groups: seq<Group>, z: ZoneKey)
    requires groups != []
    ensures Seats(groups, z) == QuantityAt(z)(groups[0]) + Seats(groups[1..], z)
  {}

  lemma SeatsConcat(a: seq<Group>, b: seq<Group>, z: ZoneKey)
    ensures Seats(a + b, z) == Seats(a, z) + Seats(b, z)
  {
    SumAppend(a, b, QuantityAt(z));
  }

  // ---------- steps that touch neither database ----------

  /** A process moves on without a write: same seats in flight and owed. */
  lemma QuietStep(s: State, p: nat, q: Proc)
    requires Inv(s) && p < |s.procs|
    requires ProcOk(s.db, s.zones, q)
    requires forall o: nat :: q.Locks(o) ==> s.procs[p].Locks(o) || !RowLocked(s.procs, o)
    requires forall z :: Seats(q.InFlight(), z) == Seats(s.procs[p].InFlight(), z)
    requires forall z :: Seats(q.Owes(), z) == Seats(s.procs[p].Owes(), z)
    ensures Inv(With(s, p, q))
  {
    ReplaceKeepsLocks(s.procs, p, q);
    forall z ensures BalancedAt(With(s, p, q), z) && SettledAt(With(s, p, q), z) {
      assert BalancedAt(s, z) && SettledAt(s, z);
      ReplaceSeats(s.procs, p, q, z);
    }
  }

  lemma SpawnKeeps(s: State, q: Proc)
    requires Inv(s) && Enabled(s, Spawn(q))
    ensures Inv(Step(s, Spawn(q)))
  {
    var t := Step(s, Spawn(q));
    forall z ensures BalancedAt(t, z) && SettledAt(t, z) {
      assert BalancedAt(s, z) && SettledAt(s, z);
      SumAppend(s.procs, [q], FlyingAt(z));
      SumAppend(s.procs, [q], OwedAt(z));
      assert [q][1..] == [];
    }
    forall i, j, o: nat | 0 <= i < |t.procs| && 0 <= j < |t.procs| && t.procs[i].Locks(o) && t.procs[j].Locks(o)
      ensures i == j
    {
      assert !q.Locks(o);
    }
  }

  lemma ValidatedOnSale(catalog: Catalog, zones: Zones, items: seq<Item>)
    requires CatalogOk(catalog, zones) && ValidateAll(catalog, items).Ok?
    ensures OnSale(zones, SortLines(ValidateAll(catalog, items).value))
  {
    var lines := ValidateAll(catalog, items).value;
    ValidatedLinesOffered(catalog, items);
    SortKeepsLines(lines);
    var sorted := SortLines(lines);
    forall i | 0 <= i < |sorted| ensures sorted[i].key in zones && sorted[i].price == zones[sorted[i].key].price {
      assert sorted[i] in lines;
      var offers := catalog[sorted[i].key.event];
      var o :| o in offers && o.name == sorted[i].key.zone && o.price == sorted[i].price;
      var n :| 0 <= n < |offers| && offers[n] == o;
      assert sorted[i].key == ZoneKey(sorted[i].key.event, offers[n].name);
    }
  }

  /** Grouping tickets of known zones gives non-empty groups of known zones. */
  lemma GroupsKnown(zones: Zones, keys: seq<ZoneKey>)
    requires forall k :: k in keys ==> k in zones
    ensures Known(zones, GroupKeys(keys))
  {
    GroupingShape(keys);
    var gs := GroupKeys(keys);
    forall i | 0 <= i < |gs| ensures gs[i].key in zones {
      assert gs[i].key in Keys(gs);
    }
  }

  /** A validated order may start reserving. */
  lemma MayReserve(s: State, req: Request, lines: seq<Line>)
    requires CatalogOk(s.catalog, s.zones) && ValidateAll(s.catalog, req.items) == Ok(lines)
    ensures var sorted := SortLines(lines);
            ProcOk(s.db, s.zones, Reserving(req, sorted, [], GroupKeys(LineKeys(sorted))))
  {
    var sorted := SortLines(lines);
    var todo := GroupKeys(LineKeys(sorted));
    ValidatedOnSale(s.catalog, s.zones, req.items);
    assert forall k :: k in LineKeys(sorted) ==> k in s.zones;
    GroupsKnown(s.zones, LineKeys(sorted));
    assert [] + todo == todo;
  }

  lemma LookupKeeps(s: State, p: nat)
    requires Inv(s) && Enabled(s, Lookup(p))
    ensures Inv(Step(s, Lookup(p)))
  {
    var t := Step(s, Lookup(p));
    var items := s.procs[p].req.items;
    if t.procs[p].Reserving? {
      MayReserve(s, s.procs[p].req, ValidateAll(s.catalog, items).value);
    }
    QuietStep(s, p, t.procs[p]);
  }

  lemma LockKeeps(s: State, p: nat)
    requires Inv(s) && Enabled(s, Lock(p))
    ensures Inv(Step(s, Lock(p)))
  {
    QuietStep(s, p, Step(s, Lock(p)).procs[p]);
  }

  lemma ClaimKeeps(s: State, p: nat, now: int, ids: seq<nat>)
    requires Inv(s) && Enabled(s, Claim(p, now, ids))
    ensures Inv(Step(s, Claim(p, now, ids)))
  {
    QuietStep(s, p, Step(s, Claim(p, now, ids)).procs[p]);
  }

  lemma SettleKeeps(s: State, p: nat)
    requires Inv(s) && Enabled(s, Settle(p))
    ensures Inv(Step(s, Settle(p)))
  {
    QuietStep(s, p, Step(s, Settle(p)).procs[p]);
  }

  lemma AbortKeeps(s: State, p: nat)
    requires Inv(s) && Enabled(s, Abort(p))
    ensures Inv(Step(s, Abort(p)))
  {
    var q := s.procs[p];
    assert ProcOk(s.db, s.zones, q);
    if q.Reserving? {
      assert q.taken + q.todo == q.taken;
    }
    QuietStep(s, p, Step(s, Abort(p)).procs[p]);
  }

  lemma CrashKeeps(s: State, p: nat)
    requires Inv(s) && Enabled(s, Crash(p))
    ensures Inv(Step(s, Crash(p)))
  {
    var t := Step(s, Crash(p));
    ReplaceKeepsLocks(s.procs, p, Crashed);
    forall z ensures BalancedAt(t, z) && SettledAt(t, z) {
      assert BalancedAt(s, z) && SettledAt(s, z);
      ReplaceSeats(s.procs, p, Crashed, z);
      SeatsConcat(s.lost, s.procs[p].InFlight(), z);
      SeatsConcat(s.unreleased, s.procs[p].Owes(), z);
    }
  }

  // ---------- steps on a MongoDB counter ----------

  /** A counter moves, and the books with it. */
  lemma CounterStep(s: State, t: State, p: nat, q: Proc)
    requires Inv(s) && p < |s.procs|
    requires t == With(s.(zones := t.zones, lost := t.lost, unreleased := t.unreleased, returned := t.returned), p, q)
    requires SameZones(s.zones, t.zones) && Sound(t.zones)
    requires ProcOk(s.db, s.zones, q) && forall o: nat :: !q.Locks(o)
    requires forall z :: Booked(t.zones, z) - Booked(s.zones, z)
                      == Seats(q.InFlight(), z) - Seats(s.procs[p].InFlight(), z)
                         + Seats(q.Owes(), z) - Seats(s.procs[p].Owes(), z)
                         + Seats(t.lost, z) - Seats(s.lost, z) + Seats(t.unreleased, z) - Seats(s.unreleased, z)
    requires forall z :: Seats(t.returned, z) - Seats(s.returned, z)
                      == Seats(s.procs[p].Owes(), z) - Seats(q.Owes(), z)
                         + Seats(s.unreleased, z) - Seats(t.unreleased, z)
    ensures Inv(t)
  {
    ReplaceKeepsLocks(s.procs, p, q);
    SameZonesKeep(s.db, s.zones, t.zones, s.catalog, t.procs);
    forall z ensures BalancedAt(t, z) && SettledAt(t, z) {
      assert BalancedAt(s, z) && SettledAt(s, z);
      ReplaceSeats(s.procs, p, q, z);
    }
  }

  lemma ReserveMoves(s: State, p: nat, fault: Fault)
    requires Enabled(s, Reserve(p, fault))
    ensures var t := Step(s, Reserve(p, fault));
            forall z ::
              Booked(t.zones, z) - Booked(s.zones, z)
              == Seats(t.procs[p].InFlight(), z) - Seats(s.procs[p].InFlight(), z) + Seats(t.lost, z) - Seats(s.lost, z)
  {
    var q := s.procs[p];
    var g := q.todo[0];
    CallEffect(s.zones, g.key, RoomFor(s.zones, g), g.quantity, fault);
    var t := Step(s, Reserve(p, fault));
    forall z
      ensures Booked(t.zones, z) - Booked(s.zones, z)
           == Seats(t.procs[p].InFlight(), z) - Seats(q.InFlight(), z) + Seats(t.lost, z) - Seats(s.lost, z)
    {
      SeatsSnoc(q.taken, g, z);
      SeatsSnoc(s.lost, g, z);
      SeatsConcat(s.lost, [], z);
    }
  }

  lemma ReserveKeeps(s: State, p: nat, fault: Fault)
    requires Inv(s) && Enabled(s, Reserve(p, fault))
    ensures Inv(Step(s, Reserve(p, fault)))
  {
    var q := s.procs[p];
    var g := q.todo[0];
    var t := Step(s, Reserve(p, fault));
    var r := t.procs[p];
    assert ProcOk(s.db, s.zones, q);
    CallEffect(s.zones, g.key, RoomFor(s.zones, g), g.quantity, fault);
    assert (q.taken + [g]) + q.todo[1..] == q.taken + q.todo;
    assert forall i :: 0 <= i < |q.taken| ==> q.taken[i] == (q.taken + q.todo)[i];
    ReserveMoves(s, p, fault);
    CounterStep(s, t, p, r);
  }

  /** A process's own seats are covered by the counter. */
  lemma CounterCovers(s: State, p: nat, z: ZoneKey)
    requires Inv(s) && p < |s.procs|
    ensures Booked(s.zones, z) >= Seats(s.procs[p].InFlight(), z) + Seats(s.procs[p].Owes(), z)
    ensures Booked(s.zones, z) >= ActiveSeats(s.db.tickets, z) >= 0
  {
    assert BalancedAt(s, z);
    forall q ensures Seats(q, z) >= 0 { SeatsNonNegative(q, z); }
    SumAtLeast(s.procs, FlyingAt(z), p);
    SumAtLeast(s.procs, OwedAt(z), p);
    SumAtLeast(s.db.tickets, ActiveAt(z), 0);
  }

  /** Every active ticket is in a zone that exists. */
  lemma ActiveKnown(s: State, i: nat)
    requires Inv(s) && i < |s.db.tickets| && s.db.tickets[i].Active()
    ensures s.db.tickets[i].key in s.zones
  {
    var z := s.db.tickets[i].key;
    assert BalancedAt(s, z);
    forall q ensures Seats(q, z) >= 0 { SeatsNonNegative(q, z); }
    SumAtLeast(s.procs, FlyingAt(z), 0);
    SumAtLeast(s.procs, OwedAt(z), 0);
    SumAtLeast(s.db.tickets, ActiveAt(z), i);
  }

  lemma UndoKeeps(s: State, p: nat, fault: Fault)
    requires Inv(s) && Enabled(s, Undo(p, fault))
    ensures Inv(Step(s, Undo(p, fault)))
  {
    var q := s.procs[p];
    var g := q.owed[0];
    var t := Step(s, Undo(p, fault));
    var r := t.procs[p];
    assert ProcOk(s.db, s.zones, q);
    CallEffect(s.zones, g.key, AnyCount, -(g.quantity as int), fault);
    UndoMoves(s, p, fault);
    CounterStep(s, t, p, r);
  }

  lemma UndoMoves(s: State, p: nat, fault: Fault)
    requires Enabled(s, Undo(p, fault))
    ensures var t := Step(s, Undo(p, fault));
            forall z ::
              Booked(t.zones, z) - Booked(s.zones, z)
              == Seats(t.procs[p].InFlight(), z) - Seats(s.procs[p].InFlight(), z) + Seats(t.lost, z) - Seats(s.lost, z)
  {
    var q := s.procs[p];
    var g := q.owed[0];
    CallEffect(s.zones, g.key, AnyCount, -(g.quantity as int), fault);
    var t := Step(s, Undo(p, fault));
    forall z
      ensures Booked(t.zones, z) - Booked(s.zones, z)
           == Seats(t.procs[p].InFlight(), z) - Seats(q.InFlight(), z) + Seats(t.lost, z) - Seats(s.lost, z)
    {
      SeatsHead(q.owed, z);
      SeatsSnoc(s.lost, g, z);
      SeatsConcat(s.lost, [], z);
    }
  }

  /** The guarded release always finds its seats. */
  lemma ReleaseGuardHolds(s: State, p: nat)
    requires Inv(s) && p < |s.procs| && s.procs[p].Releasing? && s.procs[p].owed != []
    ensures var g := s.procs[p].owed[0];
            g.key in s.zones && g.quantity <= s.zones[g.key].booked <= s.zones[g.key].capacity
  {
    var g := s.procs[p].owed[0];
    assert ProcOk(s.db, s.zones, s.procs[p]);
    CounterCovers(s, p, g.key);
    SeatsNonNegative(s.procs[p].owed, g.key);
    SeatsNonNegative(s.procs[p].InFlight(), g.key);
  }

  /** A release either gives the group back or writes it off; it never falls back to single seats. */
  lemma ReleaseShape(s: State, p: nat, fault: Fault)
    requires Inv(s) && Enabled(s, Release(p, fault))
    ensures s.procs[p].Releasing? && s.procs[p].owed != []
    ensures var q, t := s.procs[p], Step(s, Release(p, fault));
            var g := q.owed[0];
            && t.procs == s.procs[p := Releasing(q.owed[1..], q.end)]
            && (if fault == Fault.Failed then t.zones == s.zones && t.returned == s.returned
                else g.key in s.zones && t.zones == WithBooked(s.zones, g.key, s.zones[g.key].booked - g.quantity)
                     && t.returned == s.returned + [g])
            && t.unreleased == (if fault == Fault.Failed then s.unreleased + [g] else s.unreleased)
  {
    assert ProcOk(s.db, s.zones, s.procs[p]);
    ReleaseGuardHolds(s, p);
    var g := s.procs[p].owed[0];
    DecrementAccepted(s.zones, g.key, g.quantity);
  }

  lemma ReleaseKeeps(s: State, p: nat, fault: Fault)
    requires Inv(s) && Enabled(s, Release(p, fault))
    ensures Inv(Step(s, Release(p, fault)))
  {
    ReleaseShape(s, p, fault);
    ReleaseGuardHolds(s, p);
    var q, t := s.procs[p], Step(s, Release(p, fault));
    var g := q.owed[0];
    assert ProcOk(s.db, s.zones, q);
    forall z
      ensures Booked(t.zones, z) == Booked(s.zones, z)
                                    - (if fault == Fault.Failed then 0 else QuantityAt(z)(g))
      ensures Seats(q.owed, z) == QuantityAt(z)(g) + Seats(q.owed[1..], z)
      ensures Seats(t.unreleased, z) == Seats(s.unreleased, z) + if fault == Fault.Failed then QuantityAt(z)(g) else 0
      ensures Seats(t.returned, z) == Seats(s.returned, z) + if fault == Fault.Failed then 0 else QuantityAt(z)(g)
    {
      SeatsHead(q.owed, z);
      SeatsSnoc(s.unreleased, g, z);
      SeatsSnoc(s.returned, g, z);
    }
    CounterStep(s, t, p, Releasing(q.owed[1..], q.end));
  }
}
