/** Nothing gets stuck and nothing runs forever: under every fault, every run can be brought to its end. */
module Progress {
  import opened Sums
  import opened Store
  import opened Inventory
  import opened Booking
  import opened Protocol
  import opened Safety
  import opened Transactions
  import opened Guarantees
  import opened WriteOffs
  import opened Sweeper

  // ---------- how many steps are left ----------

  /** A release takes one call, or one more and a call a seat. */
  function ReleaseWork(): Group -> int { (g: Group) => g.quantity + 2 }

  /** An upper bound on the steps a process still takes, and on those that sweeping its order would take. */
  function WorkOf(q: Proc): int {
    match q
    case Asked(req) => 4 + 5 * |req.items|
    case Reserving(_, lines, taken, todo) => 3 + |taken| + 2 * |todo| + 3 * |lines|
    case Undoing(owed, _, _) => 1 + |owed|
    case Paying(_, _) => 3
    case PayLocked(_, _, _) => 2
    case Sweeping(_) => 3
    case SweepLocked(_) => 2
    case Releasing(owed, _) => 1 + Sum(owed, ReleaseWork())
    case ReleasingOne(_, left, owed, _) => 2 + left + Sum(owed, ReleaseWork())
    case Finished(_) => 0
    case Crashed => 0
  }

  function Work(): Proc -> int { (q: Proc) => WorkOf(q) }

  function IsHeld(): Ticket -> int { (t: Ticket) => Ind(t.status == Held) }

  /** A held ticket may still have to be released. */
  function WorkLeft(s: State): int { Sum(s.procs, Work()) + 3 * Sum(s.db.tickets, IsHeld()) }

  lemma WorkPositive(q: Proc)
    ensures WorkOf(q) >= 0 && (WorkOf(q) == 0 <==> q.Over())
  {
    match q
    case Releasing(owed, _) => SumAtLeast(owed, ReleaseWork(), 0);
    case ReleasingOne(_, _, owed, _) => SumAtLeast(owed, ReleaseWork(), 0);
    case _ =>
  }

  lemma WorkLeftPositive(s: State)
    ensures WorkLeft(s) >= 0
  {
    forall q ensures WorkOf(q) >= 0 { WorkPositive(q); }
    SumAtLeast(s.procs, Work(), 0);
    SumAtLeast(s.db.tickets, IsHeld(), 0);
  }

  /** A process moves, and with it at most the held tickets. */
  lemma WorkMoves(s: State, p: nat, t: State)
    requires p < |s.procs| == |t.procs| && t.procs == s.procs[p := t.procs[p]]
    ensures WorkLeft(t) == WorkLeft(s) - WorkOf(s.procs[p]) + WorkOf(t.procs[p])
                           + 3 * (Sum(t.db.tickets, IsHeld()) - Sum(s.db.tickets, IsHeld()))
  {
    SumUpdate(s.procs, p, t.procs[p], Work());
  }

  lemma {:induction false} AddSeatLength(groups: seq<Group>, k: ZoneKey)
    ensures |AddSeat(groups, k)| <= |groups| + 1
    ensures Sum(AddSeat(groups, k), ReleaseWork()) <= Sum(groups, ReleaseWork()) + 3
  {
    if groups == [] {
      assert AddSeat(groups, k)[1..] == [];
    } else if groups[0].key == k {
      assert AddSeat(groups, k)[1..] == groups[1..];
    } else {
      assert AddSeat(groups, k)[1..] == AddSeat(groups[1..], k);
      AddSeatLength(groups[1..], k);
    }
  }

  /** Grouping makes no more groups than tickets, so a release costs at most three steps a ticket. */
  lemma {:induction false} GroupKeysLength(keys: seq<ZoneKey>)
    ensures |GroupKeys(keys)| <= |keys| && Sum(GroupKeys(keys), ReleaseWork()) <= 3 * |keys|
  {
    if keys != [] {
      GroupKeysLength(keys[..|keys| - 1]);
      AddSeatLength(GroupKeys(keys[..|keys| - 1]), keys[|keys| - 1]);
    }
  }

  /** Expiring takes as many tickets out of `held` as it puts up for release. */
  lemma {:induction false} HeldLeave(tickets: seq<Ticket>, ids: seq<nat>)
    ensures Sum(MoveHeld(tickets, ids, Voided), IsHeld()) + |HeldKeys(tickets, ids)| == Sum(tickets, IsHeld())
  {
    if tickets != [] {
      HeldLeave(tickets[1..], ids);
      assert MoveHeld(tickets, ids, Voided)[1..] == MoveHeld(tickets[1..], ids, Voided);
    }
  }

  lemma ExpiryWork(db: Postgres, ids: seq<nat>, end: Outcome)
    ensures WorkOf(Releasing(GroupKeys(HeldKeys(db.tickets, ids)), end))
            + 3 * Sum(ExpireOrders(db, ids).tickets, IsHeld())
         <= 1 + 3 * Sum(db.tickets, IsHeld())
  {
    HeldLeave(db.tickets, ids);
    GroupKeysLength(HeldKeys(db.tickets, ids));
  }

  lemma {:induction false} NewTicketsHeld(o: nat, lines: seq<Line>)
    ensures Sum(NewTickets(o, lines), IsHeld()) == |lines|
  {
    if lines != [] {
      NewTicketsHeld(o, lines[1..]);
      assert NewTickets(o, lines)[1..] == NewTickets(o, lines[1..]);
    }
  }

  lemma ConfirmLeaves(tickets: seq<Ticket>, ids: seq<nat>)
    ensures Sum(MoveHeld(tickets, ids, Valid), IsHeld()) <= Sum(tickets, IsHeld())
  {
    var gone := (t: Ticket) => Ind(t.order in ids && t.status == Held);
    SumBalance(tickets, IsHeld(), MoveHeld(tickets, ids, Valid), IsHeld(), gone);
    SumAtLeast(tickets, gone, 0);
  }

  // ---------- every step is one less ----------

  /** A step of a process, as opposed to a new process or the outbox worker. */
  predicate OfProcess(a: Action) { !a.Spawn? && !a.Deliver? && !a.Purge? }

  lemma LookupWork(s: State, p: nat)
    requires Enabled(s, Lookup(p))
    ensures WorkOf(Step(s, Lookup(p)).procs[p]) < WorkOf(s.procs[p])
  {
    var req := s.procs[p].req;
    match ValidateAll(s.catalog, req.items)
    case Err(_) =>
    case Ok(lines) =>
      ValidatedLinesOffered(s.catalog, req.items);
      SortKeepsLines(lines);
      GroupKeysLength(LineKeys(SortLines(lines)));
  }

  /** The steps that do not touch the tickets. */
  lemma CallWork(s: State, a: Action)
    requires Enabled(s, a) && (a.Lookup? || a.Reserve? || a.Undo? || a.Lock? || a.Claim? || a.Release?)
    ensures WorkLeft(Step(s, a)) < WorkLeft(s)
  {
    WorkPositive(s.procs[a.p]);
    if a.Lookup? {
      LookupWork(s, a.p);
    } else if a.Reserve? {
      ReserveWork(s, a.p, a.fault);
    } else if a.Release? {
      ReleaseCallWork(s, a.p, a.fault);
    } else {
      OneCallWork(s, a);
    }
    CallMoves(s, a);
    WorkMoves(s, a.p, Step(s, a));
  }

  lemma CallMoves(s: State, a: Action)
    requires Enabled(s, a) && (a.Lookup? || a.Reserve? || a.Undo? || a.Lock? || a.Claim? || a.Release?)
    ensures var t := Step(s, a);
      |t.procs| == |s.procs| && t.procs == s.procs[a.p := t.procs[a.p]] && t.db == s.db
  {
    if a.Reserve? || a.Release? { MongoMoves(s, a); }
  }

  /** A step of a process moves that process only. */
  lemma OneProcessMoves(s: State, a: Action)
    requires Enabled(s, a) && OfProcess(a)
    ensures var t := Step(s, a);
      a.p < |s.procs| == |t.procs| && t.procs == s.procs[a.p := t.procs[a.p]]
  {
    match a
    case Pay(p, now) => PayShape(s, p, now);
    case Write(p, now) => WriteMoves(s, p, now);
    case Sweep(_) =>
    case Settle(_) =>
    case Abort(_) =>
    case Crash(_) =>
    case _ => CallMoves(s, a);
  }

  lemma WriteMoves(s: State, p: nat, now: int)
    requires Enabled(s, Write(p, now))
    ensures var t := Step(s, Write(p, now)); |s.procs| == |t.procs| && t.procs == s.procs[p := t.procs[p]]
  {}

  lemma MongoMoves(s: State, a: Action)
    requires Enabled(s, a) && (a.Reserve? || a.Release?)
    ensures var t := Step(s, a);
      |t.procs| == |s.procs| && t.procs == s.procs[a.p := t.procs[a.p]] && t.db == s.db
  {}

  lemma OneCallWork(s: State, a: Action)
    requires Enabled(s, a) && (a.Undo? || a.Lock? || a.Claim?)
    ensures WorkOf(Step(s, a).procs[a.p]) < WorkOf(s.procs[a.p])
  {}

  lemma ReserveWork(s: State, p: nat, fault: Fault)
    requires Enabled(s, Reserve(p, fault))
    ensures WorkOf(Step(s, Reserve(p, fault)).procs[p]) < WorkOf(s.procs[p])
  {}

  lemma ReleaseCallWork(s: State, p: nat, fault: Fault)
    requires Enabled(s, Release(p, fault))
    ensures WorkOf(Step(s, Release(p, fault)).procs[p]) < WorkOf(s.procs[p])
  {
    if s.procs[p].ReleasingOne? { SingleWork(s, p, fault); }
  }

  lemma SingleWork(s: State, p: nat, fault: Fault)
    requires Enabled(s, Release(p, fault)) && s.procs[p].ReleasingOne?
    ensures WorkOf(Step(s, Release(p, fault)).procs[p]) < WorkOf(s.procs[p])
  {}

  lemma EndWork(s: State, a: Action)
    requires Enabled(s, a) && (a.Settle? || a.Abort? || a.Crash?)
    ensures WorkLeft(Step(s, a)) < WorkLeft(s)
  {
    WorkPositive(s.procs[a.p]);
    WorkMoves(s, a.p, Step(s, a));
  }

  lemma WriteWork(s: State, p: nat, now: int)
    requires Enabled(s, Write(p, now))
    ensures WorkLeft(Step(s, Write(p, now))) < WorkLeft(s)
  {
    var q, t := s.procs[p], Step(s, Write(p, now));
    WorkMoves(s, p, t);
    match InsertOrder(s.db, s.users, q.req.user, q.req.key, q.lines, now)
    case Err(_) =>
    case Ok(db) =>
      NewTicketsHeld(|s.db.orders|, q.lines);
      SumAppend(s.db.tickets, NewTickets(|s.db.orders|, q.lines), IsHeld());
  }

  /** A payment ends, with or without the order confirmed, or expires it. */
  lemma PayShape(s: State, p: nat, now: int)
    requires Enabled(s, Pay(p, now))
    ensures var t, o := Step(s, Pay(p, now)), s.procs[p].order;
      || (t == With(s, p, t.procs[p]) && t.procs[p].Finished?)
      || t == With(s.(db := ConfirmOrder(s.db, o, s.procs[p].row)), p, Finished(PaymentDone))
      || t == With(s.(db := ExpireOrders(s.db, [o])), p, Releasing(GroupKeys(HeldKeys(s.db.tickets, [o])), HoldGone))
  {}

  lemma PayWork(s: State, p: nat, now: int)
    requires Enabled(s, Pay(p, now))
    ensures WorkLeft(Step(s, Pay(p, now))) < WorkLeft(s)
  {
    var o := s.procs[p].order;
    PayShape(s, p, now);
    WorkMoves(s, p, Step(s, Pay(p, now)));
    ExpiryWork(s.db, [o], HoldGone);
    ConfirmLeaves(s.db.tickets, [o]);
  }

  lemma SweepWork(s: State, p: nat)
    requires Enabled(s, Sweep(p))
    ensures WorkLeft(Step(s, Sweep(p))) < WorkLeft(s)
  {
    var ids := s.procs[p].ids;
    WorkMoves(s, p, Step(s, Sweep(p)));
    ExpiryWork(s.db, ids, Swept(|ids|));
  }

  /** Every step of a process leaves less work, whatever fails and in any state; a new process brings its own. */
  lemma StepWork(s: State, a: Action)
    requires Enabled(s, a)
    ensures OfProcess(a) ==> WorkLeft(Step(s, a)) < WorkLeft(s)
    ensures !OfProcess(a) ==> WorkLeft(Step(s, a)) == WorkLeft(s) + if a.Spawn? then WorkOf(a.proc) else 0
  {
    match a
    case Spawn(q) =>
      SumAppend(s.procs, [q], Work());
      assert [q][1..] == [];
    case Write(p, now) => WriteWork(s, p, now);
    case Pay(p, now) => PayWork(s, p, now);
    case Sweep(p) => SweepWork(s, p);
    case Settle(_) => EndWork(s, a);
    case Abort(_) => EndWork(s, a);
    case Crash(_) => EndWork(s, a);
    case Deliver(_) =>
    case Purge(_) =>
    case _ => CallWork(s, a);
  }

  function StepsOf(actions: seq<Action>): nat {
    if actions == [] then 0 else (if OfProcess(actions[0]) then 1 else 0) + StepsOf(actions[1..])
  }

  function WorkBrought(actions: seq<Action>): int {
    if actions == [] then 0 else (if actions[0].Spawn? then WorkOf(actions[0].proc) else 0) + WorkBrought(actions[1..])
  }

  /** No run goes on forever: its processes take at most the steps that were left at the start and that the processes
    started meanwhile brought with them, whatever the interleaving, the faults and the crashes. */
  lemma {:induction false} RunsEnd(s: State, actions: seq<Action>, t: State)
    requires Run(s, actions, t)
    ensures StepsOf(actions) + WorkLeft(t) <= WorkLeft(s) + WorkBrought(actions) && WorkLeft(t) >= 0
    ensures WorkLeft(t) == 0 ==> Quiescent(t)
    decreases |actions|
  {
    if actions == [] {
      WorkLeftPositive(t);
      if WorkLeft(t) == 0 { NoWorkLeft(t); }
    } else {
      StepWork(s, actions[0]);
      RunsEnd(Step(s, actions[0]), actions[1..], t);
    }
  }

  lemma NoWorkLeft(t: State)
    requires WorkLeft(t) == 0
    ensures Quiescent(t)
  {
    SumAtLeast(t.db.tickets, IsHeld(), 0);
    forall i | 0 <= i < |t.procs| ensures t.procs[i].Over() {
      forall q ensures WorkOf(q) >= 0 && (WorkOf(q) == 0 <==> q.Over()) { WorkPositive(q); }
      SumAtLeast(t.procs, Work(), i);
    }
  }

  // ---------- nobody is stuck ----------

  function LockedRows(s: State): set<nat> { set o: nat | o < |s.db.orders| && RowLocked(s.procs, o) }

  /** What a process does next when nothing fails. */
  function Next(s: State, p: nat, now: int): Action
    requires p < |s.procs| && !s.procs[p].Over()
  {
    match s.procs[p]
    case Asked(_) => Lookup(p)
    case Reserving(_, _, _, todo) => if todo == [] then Write(p, now) else Reserve(p, Fine)
    case Undoing(owed, _, _) => if owed == [] then Settle(p) else Undo(p, Fine)
    case Paying(_, _) => Lock(p)
    case PayLocked(_, _, _) => Pay(p, now)
    case Sweeping(batch) => Claim(p, now, Batch(s.db.orders, now, LockedRows(s), batch))
    case SweepLocked(_) => Sweep(p)
    case Releasing(owed, _) => if owed == [] then Settle(p) else Release(p, Fine)
    case ReleasingOne(_, _, _, _) => Release(p, Fine)
  }

  /** Only a payment may have to wait, and only for a row lock. */
  lemma NextGoes(s: State, p: nat, now: int)
    requires Inv(s) && p < |s.procs| && !s.procs[p].Over()
    ensures Enabled(s, Next(s, p, now)) || (s.procs[p].Paying? && RowLocked(s.procs, s.procs[p].order))
    ensures OfProcess(Next(s, p, now)) && Harmless(Next(s, p, now))
  {
    assert ProcOk(s.db, s.zones, s.procs[p]);
    if s.procs[p].Sweeping? {
      BatchIsDue(s.db.orders, now, LockedRows(s), s.procs[p].batch);
    }
  }

  /** In every state of the invariant an unfinished process can take its next step, or waits for the row lock of a
    process that can. */
  lemma SomebodyGoes(s: State, p: nat, now: int) returns (h: nat)
    requires Inv(s) && p < |s.procs| && !s.procs[p].Over()
    ensures h < |s.procs| && !s.procs[h].Over() && Enabled(s, Next(s, h, now))
    ensures h == p || (s.procs[p].Paying? && s.procs[h].Locks(s.procs[p].order))
  {
    h := p;
    NextGoes(s, p, now);
    if !Enabled(s, Next(s, p, now)) {
      h :| 0 <= h < |s.procs| && s.procs[h].Locks(s.procs[p].order);
      NextGoes(s, h, now);
    }
  }

  // ---------- every run can be completed ----------

  predicate Undisturbed(actions: seq<Action>) { forall a | a in actions :: OfProcess(a) && Harmless(a) && !a.Abort? }

  lemma GoOn(t: State, now: int) returns (a: Action)
    requires Inv(t) && !Quiescent(t)
    ensures Enabled(t, a) && OfProcess(a) && Harmless(a) && !a.Abort?
    ensures Inv(Step(t, a)) && 0 <= WorkLeft(Step(t, a)) < WorkLeft(t)
  {
    var p :| 0 <= p < |t.procs| && !t.procs[p].Over();
    var h := SomebodyGoes(t, p, now);
    a := Next(t, h, now);
    NextGoes(t, h, now);
    StepWork(t, a);
    StepKeeps(t, a);
    WorkLeftPositive(Step(t, a));
  }

  lemma {:induction false} Finish(t: State, now: int) returns (rest: seq<Action>, u: State)
    requires Inv(t)
    ensures Run(t, rest, u) && Quiescent(u) && Undisturbed(rest)
    decreases WorkLeft(t)
  {
    if Quiescent(t) {
      return [], t;
    }
    var a := GoOn(t, now);
    rest, u := Finish(Step(t, a), now);
    assert ([a] + rest)[1..] == rest;
    rest := [a] + rest;
  }

  /** However a run has gone so far, all its processes can be brought to an end within WorkLeft(t) steps, without a
    fault, a crash or another seat written off; the drift is then exactly what had been written off by then. */
  lemma EveryRunCompletes(s: State, actions: seq<Action>, t: State, now: int) returns (rest: seq<Action>, u: State)
    requires Reachable(s, actions, t)
    ensures Run(t, rest, u) && Quiescent(u) && Undisturbed(rest) && StepsOf(rest) <= WorkLeft(t)
    ensures forall z :: Drift(u, z) == WrittenOff(t, z)
  {
    ReachableInv(s, actions, t);
    rest, u := Finish(t, now);
    RunsEnd(t, rest, u);
    NobodyBrought(rest);
    HarmlessIsClean(t, rest, u);
    RunWritesOff(t, rest, u);
    RunKeeps(t, rest, u);
    forall z ensures Drift(u, z) == WrittenOff(t, z) { QuietDrift(u, z); }
  }

  lemma {:induction false} NobodyBrought(actions: seq<Action>)
    requires Undisturbed(actions)
    ensures WorkBrought(actions) == 0
  {
    if actions != [] {
      assert OfProcess(actions[0]);
      assert forall a | a in actions[1..] :: a in actions;
      NobodyBrought(actions[1..]);
    }
  }
}
