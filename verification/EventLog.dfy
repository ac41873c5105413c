/** The outbox as a log: what the transactions append replays to the order table, whatever is delivered or purged. */
module EventLog {
  import opened Wrappers
  import opened Store
  import opened Protocol
  import opened Safety
  import opened Transactions
  import opened Guarantees

  // ---------- replay ----------

  /** One outbox event; it must be legal where it stands. */
  function Apply(st: seq<OrderStatus>, row: OutboxRow): Option<seq<OrderStatus>> {
    match row.kind
    case SeatHeld => if row.order == |st| then Some(st + [Pending]) else None
    case OrderPaid => if row.order < |st| && st[row.order] == Pending then Some(st[row.order := Confirmed]) else None
    case HoldExpired => if row.order < |st| && st[row.order] == Pending then Some(st[row.order := Expired]) else None
    case OtherEvent(_) => None
  }

  /** The statuses of all orders, as a log tells them from the statuses at its start. */
  function Replay(base: seq<OrderStatus>, log: seq<OutboxRow>): Option<seq<OrderStatus>> {
    if log == [] then Some(base)
    else
      match Replay(base, log[..|log| - 1])
      case None => None
      case Some(st) => Apply(st, log[|log| - 1])
  }

  function Statuses(orders: seq<Order>): (r: seq<OrderStatus>)
    ensures |r| == |orders| && forall i :: 0 <= i < |r| ==> r[i] == orders[i].status
  {
    seq(|orders|, i requires 0 <= i < |orders| => orders[i].status)
  }

  lemma {:induction false} ReplayConcat(base: seq<OrderStatus>, a: seq<OutboxRow>, b: seq<OutboxRow>)
    requires Replay(base, a).Some?
    ensures Replay(base, a + b) == Replay(Replay(base, a).value, b)
  {
    if b == [] {
      assert a + b == a;
    } else {
      assert (a + b)[..|a + b| - 1] == a + b[..|b| - 1];
      ReplayConcat(base, a, b[..|b| - 1]);
    }
  }

  lemma ReplayOne(base: seq<OrderStatus>, row: OutboxRow)
    ensures Replay(base, [row]) == Apply(base, row)
  {
    assert [row][..0] == [];
  }

  function ExpireStatuses(st: seq<OrderStatus>, ids: seq<nat>): (r: seq<OrderStatus>)
    ensures |r| == |st| && forall i :: 0 <= i < |r| ==> r[i] == if i in ids then Expired else st[i]
  {
    seq(|st|, i requires 0 <= i < |st| => if i in ids then Expired else st[i])
  }

  lemma {:induction false} ReplayExpiry(st: seq<OrderStatus>, ids: seq<nat>)
    requires Distinct(ids) && forall i :: 0 <= i < |ids| ==> ids[i] < |st| && st[ids[i]] == Pending
    ensures Replay(st, ExpiryRows(ids)) == Some(ExpireStatuses(st, ids))
  {
    if ids == [] {
      assert ExpireStatuses(st, ids) == st;
    } else {
      var front, last := ids[..|ids| - 1], ids[|ids| - 1];
      ReplayExpiry(st, front);
      ReplayOneExpiry(st, front, last);
      assert ids == front + [last];
    }
  }

  lemma ReplayOneExpiry(st: seq<OrderStatus>, front: seq<nat>, last: nat)
    requires last < |st| && st[last] == Pending && last !in front
    requires Replay(st, ExpiryRows(front)) == Some(ExpireStatuses(st, front))
    ensures Replay(st, ExpiryRows(front + [last])) == Some(ExpireStatuses(st, front + [last]))
  {
    assert ExpiryRows(front + [last])[..|front|] == ExpiryRows(front);
    assert ExpireStatuses(st, front + [last]) == ExpireStatuses(st, front)[last := Expired];
  }

  // ---------- what the steps append ----------

  function Appended(s: State, a: Action): seq<OutboxRow>
    requires Enabled(s, a)
  {
    var log := Step(s, a).db.outbox;
    if (a.Write? || a.Pay? || a.Sweep?) && |log| >= |s.db.outbox| then log[|s.db.outbox|..] else []
  }

  /** All that the transactions of a run append to the outbox. */
  ghost function Written(s: State, actions: seq<Action>, t: State): seq<OutboxRow>
    requires Run(s, actions, t)
    decreases |actions|
  {
    if actions == [] then [] else Appended(s, actions[0]) + Written(Step(s, actions[0]), actions[1..], t)
  }

  lemma WriteReplays(s: State, p: nat, now: int)
    requires Enabled(s, Write(p, now))
    ensures Replay(Statuses(s.db.orders), Appended(s, Write(p, now)))
            == Some(Statuses(Step(s, Write(p, now)).db.orders))
  {
    var q := s.procs[p];
    match InsertOrder(s.db, s.users, q.req.user, q.req.key, q.lines, now)
    case Err(_) =>
    case Ok(db) =>
      var row := OutboxRow(SeatHeld, |s.db.orders|, Queued);
      assert Appended(s, Write(p, now)) == [row];
      ReplayOne(Statuses(s.db.orders), row);
      assert Statuses(db.orders) == Statuses(s.db.orders) + [Pending];
  }

  lemma ExpiryReplays(db: Postgres, ids: seq<nat>)
    requires Distinct(ids) && forall i :: 0 <= i < |ids| ==> ids[i] < |db.orders| && db.orders[ids[i]].status == Pending
    ensures var t := ExpireOrders(db, ids);
      t.outbox[|db.outbox|..] == ExpiryRows(ids)
      && Replay(Statuses(db.orders), ExpiryRows(ids)) == Some(Statuses(t.orders))
  {
    ReplayExpiry(Statuses(db.orders), ids);
    assert Statuses(ExpireOrders(db, ids).orders) == ExpireStatuses(Statuses(db.orders), ids);
  }

  lemma ConfirmReplays(db: Postgres, o: nat)
    requires o < |db.orders| && db.orders[o].status == Pending
    ensures var t := ConfirmOrder(db, o, db.orders[o]);
      Replay(Statuses(db.orders), t.outbox[|db.outbox|..]) == Some(Statuses(t.orders))
  {
    var t := ConfirmOrder(db, o, db.orders[o]);
    var row := OutboxRow(OrderPaid, o, Queued);
    assert t.outbox[|db.outbox|..] == [row];
    ReplayOne(Statuses(db.orders), row);
    assert Statuses(t.orders) == Statuses(db.orders)[o := Confirmed];
  }

  lemma PayReplays(s: State, p: nat, now: int)
    requires ProcsOk(s.db, s.zones, s.procs) && Enabled(s, Pay(p, now))
    ensures Replay(Statuses(s.db.orders), Appended(s, Pay(p, now))) == Some(Statuses(Step(s, Pay(p, now)).db.orders))
  {
    var o := s.procs[p].order;
    PayWrites(s, p, now);
    if s.db.orders[o].status == Pending {
      ExpiryReplays(s.db, [o]);
      ConfirmReplays(s.db, o);
    }
  }

  lemma StepReplays(s: State, a: Action)
    requires Inv(s) && Enabled(s, a)
    ensures Replay(Statuses(s.db.orders), Appended(s, a)) == Some(Statuses(Step(s, a).db.orders))
  {
    if a.Write? {
      WriteReplays(s, a.p, a.now);
    } else if a.Pay? {
      PayReplays(s, a.p, a.now);
    } else if a.Sweep? {
      assert ProcOk(s.db, s.zones, s.procs[a.p]);
      ExpiryReplays(s.db, s.procs[a.p].ids);
    } else {
      OtherStepsKeepTables(s, a);
    }
  }

  /** Whatever is delivered and purged in between: from the statuses at the start, what a run writes to the outbox
    replays to the statuses at its end. */
  lemma {:induction false} RunReplays(s: State, actions: seq<Action>, t: State)
    requires Inv(s) && Run(s, actions, t)
    ensures Replay(Statuses(s.db.orders), Written(s, actions, t)) == Some(Statuses(t.db.orders))
    decreases |actions|
  {
    if actions != [] {
      var m := Step(s, actions[0]);
      StepReplays(s, actions[0]);
      StepKeeps(s, actions[0]);
      RunReplays(m, actions[1..], t);
      ReplayConcat(Statuses(s.db.orders), Appended(s, actions[0]), Written(m, actions[1..], t));
    }
  }

  // ---------- the story of one order ----------

  /** The events of one order, oldest first. */
  function EventsOf(log: seq<OutboxRow>, o: nat): seq<EventKind> {
    if log == [] then []
    else EventsOf(log[..|log| - 1], o) + (if log[|log| - 1].order == o then [log[|log| - 1].kind] else [])
  }

  function StatusAt(st: seq<OrderStatus>, o: nat): Option<OrderStatus> { if o < |st| then Some(st[o]) else None }

  /** The events that lead an order from one status to another; None: not placed yet. */
  function Story(before: Option<OrderStatus>, now: Option<OrderStatus>): seq<EventKind> {
    (if before.None? && now.Some? then [SeatHeld] else [])
    + (if before == now then [] else if now == Some(Confirmed) then [OrderPaid]
       else if now == Some(Expired) then [HoldExpired] else [])
  }

  /** Where an order can get to. */
  predicate MayBecome(before: Option<OrderStatus>, now: Option<OrderStatus>) {
    || before == now
    || (now.Some? && now.value in {Pending, Confirmed, Expired} && (before.None? || before == Some(Pending)))
  }

  lemma ApplyContinues(base: seq<OrderStatus>, st: seq<OrderStatus>, row: OutboxRow, o: nat)
    requires Apply(st, row).Some? && |base| <= |st| && MayBecome(StatusAt(base, o), StatusAt(st, o))
    ensures var after := Apply(st, row).value;
      && |base| <= |after| && MayBecome(StatusAt(base, o), StatusAt(after, o))
      && Story(StatusAt(base, o), StatusAt(after, o))
         == Story(StatusAt(base, o), StatusAt(st, o)) + (if row.order == o then [row.kind] else [])
  {}

  /** A legal log tells of each order exactly the events from its status at the start to its status at the end. */
  lemma {:induction false} ReplayTellsStory(base: seq<OrderStatus>, log: seq<OutboxRow>, o: nat)
    requires Replay(base, log).Some?
    ensures var st := Replay(base, log).value;
      && |base| <= |st| && MayBecome(StatusAt(base, o), StatusAt(st, o))
      && EventsOf(log, o) == Story(StatusAt(base, o), StatusAt(st, o))
  {
    if log != [] {
      ReplayTellsStory(base, log[..|log| - 1], o);
      ApplyContinues(base, Replay(base, log[..|log| - 1]).value, log[|log| - 1], o);
    }
  }

  // ---------- the table itself ----------

  /** Two logs tell the same events in the same order. */
  predicate SameEvents(a: seq<OutboxRow>, b: seq<OutboxRow>) {
    |a| == |b| && forall i :: 0 <= i < |a| ==> a[i].kind == b[i].kind && a[i].order == b[i].order
  }

  /** The rows that have not been processed, in order. */
  function Unprocessed(rows: seq<OutboxRow>): seq<OutboxRow> {
    if rows == [] then []
    else Unprocessed(rows[..|rows| - 1]) + (if rows[|rows| - 1].delivery == Processed then [] else [rows[|rows| - 1]])
  }

  /** A purge loses no row that has not been processed. */
  lemma {:induction false} PurgeKeepsRest(rows: seq<OutboxRow>, ids: set<nat>)
    requires forall i | i in ids && i < |rows| :: rows[i].delivery == Processed
    ensures Unprocessed(WithoutRows(rows, ids)) == Unprocessed(rows)
  {
    if rows != [] {
      var n := |rows| - 1;
      PurgeKeepsRest(rows[..n], ids);
      UnprocessedSnoc(WithoutRows(rows[..n], ids), rows[n]);
      assert WithoutRows(rows[..n], ids) + [] == WithoutRows(rows[..n], ids);
    }
  }

  lemma UnprocessedSnoc(rows: seq<OutboxRow>, row: OutboxRow)
    ensures Unprocessed(rows + [row]) == Unprocessed(rows) + if row.delivery == Processed then [] else [row]
  {
    assert (rows + [row])[..|rows|] == rows;
  }

  predicate NoPurge(actions: seq<Action>) { forall a | a in actions :: !a.Purge? }

  lemma StepAppends(s: State, a: Action)
    requires ProcsOk(s.db, s.zones, s.procs) && Enabled(s, a) && !a.Purge?
    ensures SameEvents(Step(s, a).db.outbox, s.db.outbox + Appended(s, a))
  {
    if a.Pay? {
      PayWrites(s, a.p, a.now);
    }
  }

  lemma EventsConcat(end: seq<OutboxRow>, mid: seq<OutboxRow>, start: seq<OutboxRow>, a: seq<OutboxRow>,
                     b: seq<OutboxRow>)
    requires SameEvents(end, mid + b) && SameEvents(mid, start + a)
    ensures SameEvents(end, start + (a + b))
  {
    assert start + (a + b) == (start + a) + b;
  }

  lemma {:induction false} RunAppends(s: State, actions: seq<Action>, t: State)
    requires Inv(s) && Run(s, actions, t) && NoPurge(actions)
    ensures SameEvents(t.db.outbox, s.db.outbox + Written(s, actions, t))
    decreases |actions|
  {
    if actions != [] {
      var m := Step(s, actions[0]);
      assert actions[0] in actions;
      StepAppends(s, actions[0]);
      StepKeeps(s, actions[0]);
      RunAppends(m, actions[1..], t);
      EventsConcat(t.db.outbox, m.db.outbox, s.db.outbox, Appended(s, actions[0]), Written(m, actions[1..], t));
    }
  }

  lemma {:induction false} SameEventsOf(a: seq<OutboxRow>, b: seq<OutboxRow>, o: nat)
    requires SameEvents(a, b)
    ensures EventsOf(a, o) == EventsOf(b, o)
  {
    if a != [] { SameEventsOf(a[..|a| - 1], b[..|b| - 1], o); }
  }

  /** Over every run: what was written to the outbox replays to the order table, and tells of each order exactly
    SEAT_HELD if it was placed in the run, then ORDER_PAID if it was confirmed or SEAT_HOLD_EXPIRED if it expired. Until
    a purge, this is what the table holds behind the rows that were there. */
  lemma OutboxReplays(s: State, actions: seq<Action>, t: State, o: nat)
    requires Reachable(s, actions, t)
    ensures Replay(Statuses(s.db.orders), Written(s, actions, t)) == Some(Statuses(t.db.orders))
    ensures EventsOf(Written(s, actions, t), o)
         == Story(StatusAt(Statuses(s.db.orders), o), StatusAt(Statuses(t.db.orders), o))
    ensures NoPurge(actions) ==> |t.db.outbox| >= |s.db.outbox|
    ensures NoPurge(actions) ==> EventsOf(t.db.outbox[|s.db.outbox|..], o) == EventsOf(Written(s, actions, t), o)
  {
    InitialInv(s);
    RunReplays(s, actions, t);
    ReplayTellsStory(Statuses(s.db.orders), Written(s, actions, t), o);
    if NoPurge(actions) {
      RunAppends(s, actions, t);
      SameEventsOf(t.db.outbox[|s.db.outbox|..], Written(s, actions, t), o);
    }
  }
}
