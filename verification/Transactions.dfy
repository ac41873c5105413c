/** The three PostgreSQL transactions keep the tables consistent, and the steps that run them keep the invariant. */
module Transactions {
  import opened Wrappers
  import opened Sums
  import opened Store
  import opened Inventory
  import opened Protocol
  import opened Safety

  // ---------- placing an order ----------

  lemma InsertTotals(db: Postgres, lines: seq<Line>, o: nat)
    requires Linked(db) && o <= |db.orders|
    ensures TicketTotal(db.tickets + NewTickets(|db.orders|, lines), o)
         == if o == |db.orders| then LineTotal(lines) else TicketTotal(db.tickets, o)
  {
    var new_ := NewTickets(|db.orders|, lines);
    SumAppend(db.tickets, new_, PriceIn(o));
    if o == |db.orders| {
      SumZero(db.tickets, PriceIn(o));
      SumEqual(lines, LinePrice(), new_, PriceIn(o));
    } else {
      SumZero(new_, PriceIn(o));
    }
  }

  lemma InsertKeeps(db: Postgres, users: set<int>, user: int, key: Option<string>, lines: seq<Line>, now: int)
    requires TablesOk(db)
    requires InsertOrder(db, users, user, key, lines, now).Ok?
    ensures TablesOk(InsertOrder(db, users, user, key, lines, now).value)
  {
    var n := |db.orders|;
    var t := InsertOrder(db, users, user, key, lines, now).value;
    forall o | 0 <= o <= n ensures t.orders[o].total == TicketTotal(t.tickets, o) && PaidUp(t, o) {
      InsertTotals(db, lines, o);
      if o == n {
        SumZero(db.payments, CompletedFor(n));
      } else {
        assert PaidUp(db, o);
      }
    }
  }

  // ---------- paying an order ----------

  lemma MoveKeepsTotal(tickets: seq<Ticket>, ids: seq<nat>, to: TicketStatus, o: nat)
    ensures TicketTotal(MoveHeld(tickets, ids, to), o) == TicketTotal(tickets, o)
  {
    SumEqual(tickets, PriceIn(o), MoveHeld(tickets, ids, to), PriceIn(o));
  }

  /** The partial unique index admits a completed payment exactly for an order that has none. */
  lemma FirstPaymentFits(payments: seq<Payment>, o: nat, amount: int)
    requires PaidOnce(payments)
    ensures PaidOnce(payments + [Payment(o, amount, Completed)]) <==> CompletedCount(payments, o) == 0
  {
    var after := payments + [Payment(o, amount, Completed)];
    SumAtLeast(payments, CompletedFor(o), 0);
    if CompletedCount(payments, o) == 0 {
      forall i | 0 <= i < |payments| && payments[i].status == Completed ensures payments[i].order != o {
        SumAtLeast(payments, CompletedFor(o), i);
      }
    } else {
      var i := SumPositive(payments, CompletedFor(o));
      assert after[i] == payments[i] && after[|payments|].order == o;
    }
  }

  lemma {:induction false} UnpaidAmount(payments: seq<Payment>, o: nat)
    requires CompletedCount(payments, o) == 0
    ensures PaidAmount(payments, o) == 0
  {
    if payments != [] {
      SumAtLeast(payments[1..], CompletedFor(o), 0);
      UnpaidAmount(payments[1..], o);
    }
  }

  lemma ConfirmKeepsLedger(db: Postgres, o: nat)
    requires Linked(db) && LedgerFits(db) && o < |db.orders| && CompletedCount(db.payments, o) == 0
    ensures LedgerFits(ConfirmOrder(db, o, db.orders[o]))
  {
    var t := ConfirmOrder(db, o, db.orders[o]);
    var payment := Payment(o, db.orders[o].total, Completed);
    forall k | 0 <= k < |t.orders| ensures PaidUp(t, k) {
      assert PaidUp(db, k);
      SumAppend(db.payments, [payment], CompletedFor(k));
      SumAppend(db.payments, [payment], AmountFor(k));
      assert [payment][1..] == [];
      if k == o { UnpaidAmount(db.payments, o); }
    }
  }

  lemma MoveKeepsSeats(tickets: seq<Ticket>, ids: seq<nat>, to: TicketStatus)
    requires SeatsUnique(tickets)
    ensures SeatsUnique(MoveHeld(tickets, ids, to))
  {
    var ts := MoveHeld(tickets, ids, to);
    forall i, j | 0 <= i < j < |ts| ensures !SameActiveSeat(ts[i], ts[j]) {
      assert !SameActiveSeat(tickets[i], tickets[j]);
      assert ts[i] == Moved(tickets[i], ids, to) && ts[j] == Moved(tickets[j], ids, to);
    }
  }

  lemma ConfirmStatuses(db: Postgres, o: nat)
    requires Linked(db) && StatusesFit(db) && o < |db.orders| && db.orders[o].status == Pending
    ensures var t := ConfirmOrder(db, o, db.orders[o]);
            Linked(t) && StatusesFit(t)
  {
    var t := ConfirmOrder(db, o, db.orders[o]);
    assert Linked(t);
    forall i | 0 <= i < |t.tickets|
      ensures StatusFits(t.orders[t.tickets[i].order].status, t.tickets[i].status)
    {
      assert StatusFits(db.orders[db.tickets[i].order].status, db.tickets[i].status);
      assert t.tickets[i] == Moved(db.tickets[i], [o], Valid);
    }
  }

  lemma ConfirmKeeps(db: Postgres, o: nat)
    requires TablesOk(db) && o < |db.orders| && db.orders[o].status == Pending && CompletedCount(db.payments, o) == 0
    ensures TablesOk(ConfirmOrder(db, o, db.orders[o]))
  {
    var t := ConfirmOrder(db, o, db.orders[o]);
    FirstPaymentFits(db.payments, o, db.orders[o].total);
    ConfirmKeepsLedger(db, o);
    ConfirmStatuses(db, o);
    MoveKeepsSeats(db.tickets, [o], Valid);
    forall k | 0 <= k < |t.orders| ensures t.orders[k].total == TicketTotal(t.tickets, k) {
      MoveKeepsTotal(db.tickets, [o], Valid, k);
    }
  }

  // ---------- expiring orders ----------

  lemma ExpiryStatuses(db: Postgres, ids: seq<nat>)
    requires Linked(db) && StatusesFit(db)
    requires forall i :: 0 <= i < |ids| ==> ids[i] < |db.orders| && db.orders[ids[i]].status == Pending
    ensures var t := ExpireOrders(db, ids);
            Linked(t) && StatusesFit(t)
  {
    var t := ExpireOrders(db, ids);
    assert Linked(t);
    forall i | 0 <= i < |t.tickets|
      ensures StatusFits(t.orders[t.tickets[i].order].status, t.tickets[i].status)
    {
      assert StatusFits(db.orders[db.tickets[i].order].status, db.tickets[i].status);
      assert t.tickets[i] == Moved(db.tickets[i], ids, Voided);
    }
  }

  lemma ExpireKeepsMoney(db: Postgres, ids: seq<nat>)
    requires TotalsFit(db) && LedgerFits(db)
    requires forall i :: 0 <= i < |ids| ==> ids[i] < |db.orders| && db.orders[ids[i]].status == Pending
    ensures TotalsFit(ExpireOrders(db, ids)) && LedgerFits(ExpireOrders(db, ids))
  {
    var t := ExpireOrders(db, ids);
    forall k | 0 <= k < |t.orders| ensures t.orders[k].total == TicketTotal(t.tickets, k) {
      MoveKeepsTotal(db.tickets, ids, Voided, k);
      assert db.orders[k].total == TicketTotal(db.tickets, k);
    }
    forall k | 0 <= k < |t.orders| ensures PaidUp(t, k) {
      assert PaidUp(db, k);
    }
  }

  lemma ExpireKeeps(db: Postgres, ids: seq<nat>)
    requires TablesOk(db)
    requires forall i :: 0 <= i < |ids| ==> ids[i] < |db.orders| && db.orders[ids[i]].status == Pending
    ensures TablesOk(ExpireOrders(db, ids))
  {
    var t := ExpireOrders(db, ids);
    ExpiryStatuses(db, ids);
    MoveKeepsSeats(db.tickets, ids, Voided);
    ExpireKeepsMoney(db, ids);
    assert KeysUnique(t.orders) by {
      assert forall k :: 0 <= k < |t.orders| ==> t.orders[k].key == db.orders[k].key;
    }
  }

  lemma {:induction false} HeldKeysKnown(tickets: seq<Ticket>, zones: Zones, ids: seq<nat>)
    requires forall i :: 0 <= i < |tickets| && tickets[i].Active() ==> tickets[i].key in zones
    ensures forall k :: k in HeldKeys(tickets, ids) ==> k in zones
  {
    if tickets != [] {
      assert forall i :: 0 <= i < |tickets[1..]| ==> tickets[1..][i] == tickets[i + 1];
      HeldKeysKnown(tickets[1..], zones, ids);
    }
  }

  // ---------- the steps ----------

  /** The new tickets take over the seats that were in flight. */
  lemma InsertBooks(s: State, p: nat, db: Postgres, lines: seq<Line>, end: Proc, z: ZoneKey)
    requires p < |s.procs| && BalancedAt(s, z) && SettledAt(s, z)
    requires s.procs[p].InFlight() == GroupKeys(LineKeys(lines)) && s.procs[p].Owes() == []
    requires end.InFlight() == [] && end.Owes() == []
    requires db.tickets == s.db.tickets + NewTickets(|s.db.orders|, lines)
    ensures BalancedAt(With(s.(db := db), p, end), z) && SettledAt(With(s.(db := db), p, end), z)
  {
    ReplaceSeats(s.procs, p, end, z);
    InsertTakesSeats(s.db.tickets, |s.db.orders|, lines, z);
    GroupingCounts(LineKeys(lines), z);
  }

  lemma InsertKeepsProcs(s: State, db: Postgres)
    requires ProcsOk(s.db, s.zones, s.procs) && s.db.orders <= db.orders
    ensures ProcsOk(db, s.zones, s.procs)
  {
    forall i | 0 <= i < |s.procs| ensures ProcOk(db, s.zones, s.procs[i]) {
      assert ProcOk(s.db, s.zones, s.procs[i]);
    }
  }

  lemma InsertStep(s: State, p: nat, db: Postgres, lines: seq<Line>, end: Proc)
    requires Inv(s) && p < |s.procs| && TablesOk(db)
    requires s.procs[p].InFlight() == GroupKeys(LineKeys(lines)) && s.procs[p].Owes() == []
    requires s.db.orders <= db.orders && db.tickets == s.db.tickets + NewTickets(|s.db.orders|, lines)
    requires end.Finished?
    ensures Inv(With(s.(db := db), p, end))
  {
    var t := With(s.(db := db), p, end);
    ReplaceKeepsLocks(s.procs, p, end);
    InsertKeepsProcs(s, db);
    forall z ensures BalancedAt(t, z) && SettledAt(t, z) {
      assert BalancedAt(s, z) && SettledAt(s, z);
      InsertBooks(s, p, db, lines, end, z);
    }
  }

  lemma WriteKeeps(s: State, p: nat, now: int)
    requires Inv(s) && Enabled(s, Write(p, now))
    ensures Inv(Step(s, Write(p, now)))
  {
    var q := s.procs[p];
    var t := Step(s, Write(p, now));
    assert ProcOk(s.db, s.zones, q);
    assert q.taken + q.todo == q.taken;
    match InsertOrder(s.db, s.users, q.req.user, q.req.key, q.lines, now)
    case Err(_) =>
      QuietStep(s, p, t.procs[p]);
    case Ok(db) =>
      InsertKeeps(s.db, s.users, q.req.user, q.req.key, q.lines, now);
      InsertStep(s, p, db, q.lines, t.procs[p]);
  }

  /** Other processes do not notice: none of them has one of these rows locked. */
  lemma ExpiryKeepsProcs(s: State, p: nat, ids: seq<nat>, q: Proc)
    requires ProcsOk(s.db, s.zones, s.procs) && LocksExclusive(s.procs) && p < |s.procs|
    requires forall i :: 0 <= i < |ids| ==> s.procs[p].Locks(ids[i])
    requires ProcOk(ExpireOrders(s.db, ids), s.zones, q)
    ensures ProcsOk(ExpireOrders(s.db, ids), s.zones, s.procs[p := q])
  {
    var db := ExpireOrders(s.db, ids);
    forall i | 0 <= i < |s.procs| && i != p ensures ProcOk(db, s.zones, s.procs[i]) {
      assert ProcOk(s.db, s.zones, s.procs[i]);
      forall o: nat | s.procs[i].Locks(o) ensures o !in ids {}
      match s.procs[i]
      case PayLocked(o, _, _) => assert s.procs[i].Locks(o);
      case SweepLocked(theirs) =>
        forall k | 0 <= k < |theirs| ensures db.orders[theirs[k]].status == Pending {
          assert s.procs[i].Locks(theirs[k]);
        }
      case _ =>
    }
  }

  /** Expiring rows that this process has locked, then owing their seats. */
  lemma ExpiryBooksAll(s: State, p: nat, ids: seq<nat>, end: Outcome)
    requires Inv(s) && p < |s.procs|
    requires s.procs[p].InFlight() == [] && s.procs[p].Owes() == []
    requires forall i :: 0 <= i < |ids| ==> ids[i] < |s.db.orders| && s.db.orders[ids[i]].status == Pending
    ensures var t := With(s.(db := ExpireOrders(s.db, ids)), p, Releasing(GroupKeys(HeldKeys(s.db.tickets, ids)), end));
      forall z :: BalancedAt(t, z) && SettledAt(t, z)
  {
    var t := With(s.(db := ExpireOrders(s.db, ids)), p, Releasing(GroupKeys(HeldKeys(s.db.tickets, ids)), end));
    forall z ensures BalancedAt(t, z) && SettledAt(t, z) {
      ExpiryBooks(s, p, ids, end, z);
    }
  }

  lemma HeldGroupsKnown(s: State, ids: seq<nat>)
    requires Inv(s)
    ensures Known(s.zones, GroupKeys(HeldKeys(s.db.tickets, ids)))
  {
    forall i | 0 <= i < |s.db.tickets| && s.db.tickets[i].Active() ensures s.db.tickets[i].key in s.zones {
      ActiveKnown(s, i);
    }
    HeldKeysKnown(s.db.tickets, s.zones, ids);
    GroupsKnown(s.zones, HeldKeys(s.db.tickets, ids));
  }

  lemma ExpiryStep(s: State, p: nat, ids: seq<nat>, end: Outcome)
    requires Inv(s) && p < |s.procs| && Distinct(ids)
    requires s.procs[p].InFlight() == [] && s.procs[p].Owes() == []
    requires forall i :: 0 <= i < |ids| ==>
               ids[i] < |s.db.orders| && s.db.orders[ids[i]].status == Pending && s.procs[p].Locks(ids[i])
    ensures Inv(With(s.(db := ExpireOrders(s.db, ids)), p, Releasing(GroupKeys(HeldKeys(s.db.tickets, ids)), end)))
  {
    var q := Releasing(GroupKeys(HeldKeys(s.db.tickets, ids)), end);
    var t := With(s.(db := ExpireOrders(s.db, ids)), p, q);
    ExpireKeeps(s.db, ids);
    HeldGroupsKnown(s, ids);
    ReplaceKeepsLocks(s.procs, p, q);
    ExpiryKeepsProcs(s, p, ids, q);
    ExpiryBooksAll(s, p, ids, end);
  }

  lemma ExpiryBooks(s: State, p: nat, ids: seq<nat>, end: Outcome, z: ZoneKey)
    requires p < |s.procs| && BalancedAt(s, z) && SettledAt(s, z)
    requires s.procs[p].InFlight() == [] && s.procs[p].Owes() == []
    ensures var t := With(s.(db := ExpireOrders(s.db, ids)), p, Releasing(GroupKeys(HeldKeys(s.db.tickets, ids)), end));
            BalancedAt(t, z) && SettledAt(t, z)
  {
    ReplaceSeats(s.procs, p, Releasing(GroupKeys(HeldKeys(s.db.tickets, ids)), end), z);
    ExpiryFreesHeld(s.db.tickets, ids, z);
    GroupingCounts(HeldKeys(s.db.tickets, ids), z);
  }

  lemma SweepKeeps(s: State, p: nat)
    requires Inv(s) && Enabled(s, Sweep(p))
    ensures Inv(Step(s, Sweep(p)))
  {
    var ids := s.procs[p].ids;
    assert ProcOk(s.db, s.zones, s.procs[p]);
    ExpiryStep(s, p, ids, Swept(|ids|));
  }

  lemma ConfirmStep(s: State, p: nat)
    requires Inv(s) && p < |s.procs| && s.procs[p].PayLocked?
    requires s.procs[p].order < |s.db.orders| && s.db.orders[s.procs[p].order].status == Pending
    requires CompletedCount(s.db.payments, s.procs[p].order) == 0
    ensures var o := s.procs[p].order;
            Inv(With(s.(db := ConfirmOrder(s.db, o, s.db.orders[o])), p, Finished(PaymentDone)))
  {
    var o := s.procs[p].order;
    var t := With(s.(db := ConfirmOrder(s.db, o, s.db.orders[o])), p, Finished(PaymentDone));
    ConfirmKeeps(s.db, o);
    ReplaceKeepsLocks(s.procs, p, Finished(PaymentDone));
    forall z ensures BalancedAt(t, z) && SettledAt(t, z) {
      assert BalancedAt(s, z) && SettledAt(s, z);
      ReplaceSeats(s.procs, p, Finished(PaymentDone), z);
      ConfirmKeepsSeats(s.db.tickets, [o], z);
    }
    forall i | 0 <= i < |t.procs| ensures ProcOk(t.db, t.zones, t.procs[i]) {
      if i != p {
        assert ProcOk(s.db, s.zones, s.procs[i]);
        assert s.procs[p].Locks(o);
        assert !s.procs[i].Locks(o);
      }
    }
  }

  /** What a payment step does with the row it has locked. */
  lemma PayCases(s: State, p: nat, now: int)
    requires ProcsOk(s.db, s.zones, s.procs) && Enabled(s, Pay(p, now))
    ensures var t, o := Step(s, Pay(p, now)), s.procs[p].order;
      var owed := Releasing(GroupKeys(HeldKeys(s.db.tickets, [o])), HoldGone);
      || (t == With(s, p, t.procs[p]) && t.procs[p].Finished?)
      || (s.db.orders[o].status == Pending && t == With(s.(db := ExpireOrders(s.db, [o])), p, owed))
      || (s.db.orders[o].status == Pending && PaidOnce(s.db.payments + [Payment(o, s.db.orders[o].total, Completed)])
          && t == With(s.(db := ConfirmOrder(s.db, o, s.db.orders[o])), p, Finished(PaymentDone)))
  {
    assert ProcOk(s.db, s.zones, s.procs[p]);
  }

  lemma PayKeeps(s: State, p: nat, now: int)
    requires Inv(s) && Enabled(s, Pay(p, now))
    ensures Inv(Step(s, Pay(p, now)))
  {
    var t, o := Step(s, Pay(p, now)), s.procs[p].order;
    PayCases(s, p, now);
    if t.db == s.db {
      QuietPay(s, p, now);
    } else if t.procs[p].Finished? {
      FirstPaymentFits(s.db.payments, o, s.db.orders[o].total);
      ConfirmStep(s, p);
    } else {
      ExpiryStep(s, p, [o], HoldGone);
    }
  }

  lemma QuietPay(s: State, p: nat, now: int)
    requires Inv(s) && Enabled(s, Pay(p, now)) && Step(s, Pay(p, now)).db == s.db
    ensures Inv(Step(s, Pay(p, now)))
  {
    var t := Step(s, Pay(p, now));
    PayCases(s, p, now);
    assert |t.db.outbox| == |s.db.outbox|;
    QuietStep(s, p, t.procs[p]);
  }

  /** The outbox worker touches nothing but the outbox. */
  lemma OutboxKeeps(s: State, outbox: seq<OutboxRow>)
    requires Inv(s)
    ensures Inv(s.(db := s.db.(outbox := outbox)))
  {
    var t := s.(db := s.db.(outbox := outbox));
    forall i | 0 <= i < |t.procs| ensures ProcOk(t.db, t.zones, t.procs[i]) {
      assert ProcOk(s.db, s.zones, s.procs[i]);
    }
    forall o | 0 <= o < |t.db.orders| ensures PaidUp(t.db, o) {
      assert PaidUp(s.db, o);
    }
    forall z ensures BalancedAt(t, z) && SettledAt(t, z) {
      assert BalancedAt(s, z) && SettledAt(s, z);
    }
  }

  /** Every step of every process, under every fault, keeps the invariant. */
  lemma StepKeeps(s: State, a: Action)
    requires Inv(s) && Enabled(s, a)
    ensures Inv(Step(s, a))
  {
    match a
    case Spawn(q) => SpawnKeeps(s, q);
    case Lookup(p) => LookupKeeps(s, p);
    case Reserve(p, fault) => ReserveKeeps(s, p, fault);
    case Undo(p, fault) => UndoKeeps(s, p, fault);
    case Write(p, now) => WriteKeeps(s, p, now);
    case Lock(p) => LockKeeps(s, p);
    case Pay(p, now) => PayKeeps(s, p, now);
    case Claim(p, now, ids) => ClaimKeeps(s, p, now, ids);
    case Sweep(p) => SweepKeeps(s, p);
    case Release(p, fault) => ReleaseKeeps(s, p, fault);
    case Settle(p) => SettleKeeps(s, p);
    case Abort(p) => AbortKeeps(s, p);
    case Crash(p) => CrashKeeps(s, p);
    case Deliver(_) => OutboxKeeps(s, Step(s, a).db.outbox);
    case Purge(_) => OutboxKeeps(s, Step(s, a).db.outbox);
  }

  lemma {:induction false} RunKeeps(s: State, actions: seq<Action>, t: State)
    requires Inv(s) && Run(s, actions, t)
    ensures Inv(t)
    decreases |actions|
  {
    if actions != [] {
      StepKeeps(s, actions[0]);
      RunKeeps(Step(s, actions[0]), actions[1..], t);
    }
  }
}
