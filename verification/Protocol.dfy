/** The booking, payment and sweep processes of all replicas, interleaved one database statement at a time.

  Each MongoDB `update_one` is one step, and so is each PostgreSQL transaction from its row locks to COMMIT; taking
  the row locks is a step of its own. `lost`, `unreleased` and `returned` are the books of the model: seats that a
  crash or fault left counted before, or after, PostgreSQL knew about them, and seats given back after an expiry. */
module Protocol {
  import opened Wrappers
  import opened Store
  import opened Inventory
  import opened Booking

  datatype Request = Request(user: int, key: Option<string>, items: seq<Item>)

  /** How a request or a tick ends. */
  datatype Outcome =
    | Placed(order: nat) | Replayed(order: nat) | KeyReused | BadRequest(error: BadItem)
    | NoSeatsLeft | SeatClash | UnknownUser | ServerError | Unavailable
    | PaymentDone | AlreadyPaid | HoldGone | OrderCancelled | WrongAmount | NoSuchOrder
    | Swept(count: nat)

  datatype Proc =
    // POST /orders
    | Asked(req: Request)
    | Reserving(req: Request, lines: seq<Line>, taken: seq<Group>, todo: seq<Group>)
    | Undoing(owed: seq<Group>, end: Outcome, recheck: Option<string>)
    // POST /orders/{id}/payments
    | Paying(order: nat, amount: int)
    | PayLocked(order: nat, amount: int, row: Order)
    // the sweeper
    | Sweeping(batch: nat)
    | SweepLocked(ids: seq<nat>)
    // committed, seats still to give back
    | Releasing(owed: seq<Group>, end: Outcome)
    | ReleasingOne(key: ZoneKey, left: nat, owed: seq<Group>, end: Outcome)
    | Finished(outcome: Outcome)
    | Crashed
  {
    /** Seats counted in MongoDB for an order PostgreSQL does not have (yet, or any more). */
    function InFlight(): seq<Group> {
      match this
      case Reserving(_, _, taken, _) => taken
      case Undoing(owed, _, _) => owed
      case _ => []
    }

    /** Seats of expired orders that MongoDB still counts. */
    function Owes(): seq<Group> {
      match this
      case Releasing(owed, _) => owed
      case ReleasingOne(k, left, owed, _) => [Group(k, left)] + owed
      case _ => []
    }

    /** This process holds the row lock of order `o`. */
    predicate Locks(o: nat) {
      match this
      case PayLocked(order, _, _) => order == o
      case SweepLocked(ids) => o in ids
      case _ => false
    }

    predicate Over() { Finished? || Crashed? }
  }

  datatype State = State(
    catalog: Catalog, users: set<int>, zones: Zones, db: Postgres, procs: seq<Proc>,
    lost: seq<Group>, unreleased: seq<Group>, returned: seq<Group>)

  datatype Action =
    | Spawn(proc: Proc)
    | Lookup(p: nat)
    | Reserve(p: nat, fault: Fault)
    | Undo(p: nat, fault: Fault)
    | Write(p: nat, now: int)
    | Lock(p: nat)
    | Pay(p: nat, now: int)
    | Claim(p: nat, now: int, ids: seq<nat>)
    | Sweep(p: nat)
    | Release(p: nat, fault: Fault)
    | Settle(p: nat)
    | Abort(p: nat)
    | Crash(p: nat)
    | Deliver(rows: set<nat>)
    | Purge(rows: set<nat>)

  predicate RowLocked(procs: seq<Proc>, o: nat) { exists i :: 0 <= i < |procs| && procs[i].Locks(o) }

  predicate Distinct(ids: seq<nat>) { forall i, j :: 0 <= i < j < |ids| ==> ids[i] != ids[j] }

  /** status = 'pending' AND expires_at < now */
  predicate Overdue(row: Order, now: int) { row.status == Pending && row.expiresAt.Some? && row.expiresAt.value < now }

  predicate UsableKey(key: Option<string>) { key.Some? && key.value != "" }

  // ---------- the payload fingerprint of an idempotent replay ----------

  function ZoneSignatures(tickets: seq<Ticket>, o: nat): multiset<(string, string)> {
    if tickets == [] then multiset{}
    else (if tickets[0].order == o then multiset{(tickets[0].key.event, ZoneName(tickets[0].key.zone))} else multiset{})
         + ZoneSignatures(tickets[1..], o)
  }

  function ItemSignatures(items: seq<Item>): multiset<(string, string)> {
    if items == [] then multiset{}
    else multiset{(CanonicalEventId(items[0].event), ZoneName(items[0].zone))} + ItemSignatures(items[1..])
  }

  predicate SamePayload(db: Postgres, o: nat, req: Request)
    requires o < |db.orders|
  {
    db.orders[o].user == req.user && ZoneSignatures(db.tickets, o) == ItemSignatures(req.items)
  }

  // ---------- steps ----------

  function With(s: State, p: nat, q: Proc): State
    requires p < |s.procs|
  {
    s.(procs := s.procs[p := q])
  }

  function LookupStep(s: State, p: nat): State
    requires p < |s.procs| && s.procs[p].Asked?
  {
    var req := s.procs[p].req;
    var found := if UsableKey(req.key) then FindKey(s.db.orders, req.key.value) else None;
    if found.Some? then
      With(s, p, Finished(if SamePayload(s.db, found.value, req) then Replayed(found.value) else KeyReused))
    else
      match ValidateAll(s.catalog, req.items)
      case Err(e) => With(s, p, Finished(BadRequest(e)))
      case Ok(lines) =>
        var sorted := SortLines(lines);
        With(s, p, Reserving(req, sorted, [], GroupKeys(LineKeys(sorted))))
  }

  function Capacities(zones: Zones): map<ZoneKey, nat> { map k | k in zones :: zones[k].capacity }

  /** `booked_count <= capacity - quantity` */
  function RoomFor(zones: Zones, g: Group): Guard { RoomIn(Capacities(zones), g) }

  function ReserveStep(s: State, p: nat, fault: Fault): State
    requires p < |s.procs| && s.procs[p].Reserving? && s.procs[p].todo != []
  {
    var q := s.procs[p];
    var g := q.todo[0];
    var guard := RoomFor(s.zones, g);
    var next := s.(zones := AfterCall(s.zones, g.key, guard, g.quantity, fault));
    match ReplyOf(s.zones, g.key, guard, g.quantity, fault)
    case Count(n) =>
      if n == 0 then With(next, p, Undoing(q.taken, NoSeatsLeft, None))
      else With(next, p, Reserving(q.req, q.lines, q.taken + [g], q.todo[1..]))
    case Raised =>
      var missed := if TookEffect(s.zones, g.key, guard, g.quantity, fault) then [g] else [];
      With(next.(lost := s.lost + missed), p, Undoing(q.taken, Unavailable, None))
  }

  function UndoStep(s: State, p: nat, fault: Fault): State
    requires p < |s.procs| && s.procs[p].Undoing? && s.procs[p].owed != []
  {
    var q := s.procs[p];
    var g := q.owed[0];
    var delta := -(g.quantity as int);
    var missed := if TookEffect(s.zones, g.key, AnyCount, delta, fault) then [] else [g];
    With(s.(zones := AfterCall(s.zones, g.key, AnyCount, delta, fault), lost := s.lost + missed),
         p, Undoing(q.owed[1..], q.end, q.recheck))
  }

  function Refusal(v: Violation): Outcome {
    match v
    case KeyTaken => ServerError
    case NoSuchUser => UnknownUser
    case SeatTaken => SeatClash
  }

  function WriteStep(s: State, p: nat, now: int): State
    requires p < |s.procs| && s.procs[p].Reserving? && s.procs[p].todo == []
  {
    var q := s.procs[p];
    match InsertOrder(s.db, s.users, q.req.user, q.req.key, q.lines, now)
    case Ok(db) => With(s.(db := db), p, Finished(Placed(|s.db.orders|)))
    case Err(v) =>
      var recheck := if v != SeatTaken && UsableKey(q.req.key) then q.req.key else None;
      With(s, p, Undoing(q.taken, Refusal(v), recheck))
  }

  function LockStep(s: State, p: nat): State
    requires p < |s.procs| && s.procs[p].Paying?
  {
    var q := s.procs[p];
    if q.order < |s.db.orders| then With(s, p, PayLocked(q.order, q.amount, s.db.orders[q.order]))
    else With(s, p, Finished(NoSuchOrder))
  }

  function PayStep(s: State, p: nat, now: int): State
    requires p < |s.procs| && s.procs[p].PayLocked? && s.procs[p].order < |s.db.orders|
  {
    var PayLocked(o, amount, row) := s.procs[p];
    match row.status
    case Paid => With(s, p, Finished(AlreadyPaid))
    case Confirmed => With(s, p, Finished(AlreadyPaid))
    case Expired => With(s, p, Finished(HoldGone))
    case Cancelled => With(s, p, Finished(OrderCancelled))
    case Pending =>
      if Overdue(row, now) then
        With(s.(db := ExpireOrders(s.db, [o])), p, Releasing(GroupKeys(HeldKeys(s.db.tickets, [o])), HoldGone))
      else if amount != row.total then With(s, p, Finished(WrongAmount))
      else if !PaidOnce(s.db.payments + [Payment(o, row.total, Completed)]) then With(s, p, Finished(AlreadyPaid))
      else With(s.(db := ConfirmOrder(s.db, o, row)), p, Finished(PaymentDone))
  }

  function ClaimStep(s: State, p: nat, ids: seq<nat>): State
    requires p < |s.procs|
  {
    if ids == [] then With(s, p, Finished(Swept(0))) else With(s, p, SweepLocked(ids))
  }

  function SweepStep(s: State, p: nat): State
    requires p < |s.procs| && s.procs[p].SweepLocked?
  {
    var ids := s.procs[p].ids;
    With(s.(db := ExpireOrders(s.db, ids)), p, Releasing(GroupKeys(HeldKeys(s.db.tickets, ids)), Swept(|ids|)))
  }

  function ReleaseStep(s: State, p: nat, fault: Fault): State
    requires p < |s.procs| && s.procs[p].Releasing? && s.procs[p].owed != []
  {
    var q := s.procs[p];
    var g := q.owed[0];
    var delta := -(g.quantity as int);
    var next := s.(zones := AfterCall(s.zones, g.key, AtLeast(g.quantity), delta, fault));
    if ReplyOf(s.zones, g.key, AtLeast(g.quantity), delta, fault) == Count(0) then
      With(next, p, ReleasingOne(g.key, g.quantity, q.owed[1..], q.end))
    else if TookEffect(s.zones, g.key, AtLeast(g.quantity), delta, fault) then
      With(next.(returned := s.returned + [g]), p, Releasing(q.owed[1..], q.end))
    else
      With(next.(unreleased := s.unreleased + [g]), p, Releasing(q.owed[1..], q.end))
  }

  /** The fallback loop: one seat at a time while the counter is positive. */
  function ReleaseOneStep(s: State, p: nat, fault: Fault): State
    requires p < |s.procs| && s.procs[p].ReleasingOne?
  {
    var ReleasingOne(k, left, owed, end) := s.procs[p];
    if left == 0 then With(s, p, Releasing(owed, end))
    else
      var next := s.(zones := AfterCall(s.zones, k, AtLeast(1), -1, fault));
      var given := if TookEffect(s.zones, k, AtLeast(1), -1, fault) then 1 else 0;
      var booked := next.(returned := s.returned + [Group(k, given)]);
      match ReplyOf(s.zones, k, AtLeast(1), -1, fault)
      case Count(_) => With(booked, p, ReleasingOne(k, left - 1, owed, end))
      case Raised => With(booked.(unreleased := s.unreleased + [Group(k, left - given)]), p, Releasing(owed, end))
  }

  function SettleStep(s: State, p: nat): State
    requires p < |s.procs| && (s.procs[p].Undoing? || s.procs[p].Releasing?)
  {
    var q := s.procs[p];
    var winner := if q.Undoing? && q.recheck.Some? then FindKey(s.db.orders, q.recheck.value) else None;
    With(s, p, Finished(if winner.Some? then Replayed(winner.value) else q.end))
  }

  /** PostgreSQL refuses or loses the transaction: nothing of it is written and its row locks are gone. */
  function AbortStep(s: State, p: nat): State
    requires p < |s.procs|
  {
    var q := s.procs[p];
    if q.Reserving? then With(s, p, Undoing(q.taken, Unavailable, None)) else With(s, p, Finished(Unavailable))
  }

  function CrashStep(s: State, p: nat): State
    requires p < |s.procs|
  {
    var q := s.procs[p];
    With(s.(lost := s.lost + q.InFlight(), unreleased := s.unreleased + q.Owes()), p, Crashed)
  }

  /** The outbox worker marks rows processed. */
  function Delivered(rows: seq<OutboxRow>, ids: set<nat>): (r: seq<OutboxRow>)
    ensures |r| == |rows|
    ensures forall i :: 0 <= i < |rows| ==>
              r[i] == if i in ids && rows[i].delivery == Queued then rows[i].(delivery := Processed) else rows[i]
  {
    seq(|rows|, i requires 0 <= i < |rows| =>
      if i in ids && rows[i].delivery == Queued then rows[i].(delivery := Processed) else rows[i])
  }

  /** Retention deletes processed rows. */
  function WithoutRows(rows: seq<OutboxRow>, ids: set<nat>): seq<OutboxRow> {
    if rows == [] then []
    else WithoutRows(rows[..|rows| - 1], ids) + (if |rows| - 1 in ids then [] else [rows[|rows| - 1]])
  }

  predicate Enabled(s: State, a: Action) {
    match a
    case Spawn(q) => q.Asked? || q.Paying? || q.Sweeping?
    case Lookup(p) => p < |s.procs| && s.procs[p].Asked?
    case Reserve(p, _) => p < |s.procs| && s.procs[p].Reserving? && s.procs[p].todo != []
    case Undo(p, _) => p < |s.procs| && s.procs[p].Undoing? && s.procs[p].owed != []
    case Write(p, _) => p < |s.procs| && s.procs[p].Reserving? && s.procs[p].todo == []
    case Lock(p) => p < |s.procs| && s.procs[p].Paying? && !RowLocked(s.procs, s.procs[p].order)
    case Pay(p, _) => p < |s.procs| && s.procs[p].PayLocked? && s.procs[p].order < |s.db.orders|
    case Claim(p, now, ids) =>
      p < |s.procs| && s.procs[p].Sweeping? && |ids| <= s.procs[p].batch && Distinct(ids)
      && forall i :: 0 <= i < |ids| ==>
           ids[i] < |s.db.orders| && Overdue(s.db.orders[ids[i]], now) && !RowLocked(s.procs, ids[i])
    case Sweep(p) => p < |s.procs| && s.procs[p].SweepLocked?
    case Release(p, _) =>
      p < |s.procs| && ((s.procs[p].Releasing? && s.procs[p].owed != []) || s.procs[p].ReleasingOne?)
    case Settle(p) =>
      p < |s.procs| && (s.procs[p].Undoing? || s.procs[p].Releasing?) && s.procs[p].owed == []
    case Abort(p) =>
      p < |s.procs| && (s.procs[p].Asked? || s.procs[p].Paying? || s.procs[p].PayLocked? || s.procs[p].Sweeping?
                        || s.procs[p].SweepLocked? || (s.procs[p].Reserving? && s.procs[p].todo == []))
    case Crash(p) => p < |s.procs| && !s.procs[p].Over()
    case Deliver(_) => true
    case Purge(rows) => forall i | i in rows :: i < |s.db.outbox| && s.db.outbox[i].delivery == Processed
  }

  function Step(s: State, a: Action): State
    requires Enabled(s, a)
  {
    match a
    case Spawn(q) => s.(procs := s.procs + [q])
    case Lookup(p) => LookupStep(s, p)
    case Reserve(p, fault) => ReserveStep(s, p, fault)
    case Undo(p, fault) => UndoStep(s, p, fault)
    case Write(p, now) => WriteStep(s, p, now)
    case Lock(p) => LockStep(s, p)
    case Pay(p, now) => PayStep(s, p, now)
    case Claim(p, _, ids) => ClaimStep(s, p, ids)
    case Sweep(p) => SweepStep(s, p)
    case Release(p, fault) => if s.procs[p].Releasing? then ReleaseStep(s, p, fault) else ReleaseOneStep(s, p, fault)
    case Settle(p) => SettleStep(s, p)
    case Abort(p) => AbortStep(s, p)
    case Crash(p) => CrashStep(s, p)
    case Deliver(rows) => s.(db := s.db.(outbox := Delivered(s.db.outbox, rows)))
    case Purge(rows) => s.(db := s.db.(outbox := WithoutRows(s.db.outbox, rows)))
  }

  /** `actions` is an interleaving that leads from `s` to `t`. */
  ghost predicate Run(s: State, actions: seq<Action>, t: State)
    decreases |actions|
  {
    if actions == [] then s == t else Enabled(s, actions[0]) && Run(Step(s, actions[0]), actions[1..], t)
  }
}
