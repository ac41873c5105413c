/** Which steps of a run leave a seat counted for nobody, and what an audit finds when the run is over. */
module WriteOffs {
  import opened Store
  import opened Inventory
  import opened Booking
  import opened Protocol
  import opened Safety
  import opened Transactions
  import opened Audit
  import opened Guarantees

  // ---------- one step ----------

  /** The step leaves seats counted that nobody holds: a crash in the middle, a reservation that took effect unreported,
    or a compensation or release that did not reach MongoDB. */
  predicate WritesOff(s: State, a: Action)
    requires Enabled(s, a)
  {
    match a
    case Crash(p) => s.procs[p].InFlight() != [] || s.procs[p].Owes() != []
    case Reserve(p, fault) =>
      var g := s.procs[p].todo[0];
      fault == Unreported && g.key in s.zones && s.zones[g.key].booked + g.quantity <= s.zones[g.key].capacity
    case Undo(_, fault) => fault == Fault.Failed
    case Release(_, fault) => fault == Fault.Failed
    case _ => false
  }

  /** The seats of a zone that crashes and faults have left counted. */
  function WrittenOff(s: State, z: ZoneKey): int { Seats(s.lost, z) + Seats(s.unreleased, z) }

  /** The books of seats written off have grown: by nothing, or by seats of zone z. */
  ghost predicate Grows(s: State, t: State) { forall z :: WrittenOff(t, z) >= WrittenOff(s, z) }

  lemma MoreLost(s: State, t: State, groups: seq<Group>)
    requires groups != [] && Known(s.zones, groups)
    requires (t.lost == s.lost + groups && t.unreleased == s.unreleased)
          || (t.lost == s.lost && t.unreleased == s.unreleased + groups)
    ensures Grows(s, t) && WrittenOff(t, groups[0].key) > WrittenOff(s, groups[0].key)
  {
    forall z ensures Seats(groups, z) >= 0 && WrittenOff(t, z) == WrittenOff(s, z) + Seats(groups, z) {
      SeatsNonNegative(groups, z);
      SeatsConcat(s.lost, groups, z);
      SeatsConcat(s.unreleased, groups, z);
    }
    SeatsNonNegative(groups, groups[0].key);
  }

  lemma CrashWrites(s: State, p: nat)
    requires Inv(s) && Enabled(s, Crash(p))
    ensures StepTells(s, Crash(p))
  {
    var q, t := s.procs[p], Step(s, Crash(p));
    assert ProcOk(s.db, s.zones, q);
    assert s.lost + [] == s.lost && s.unreleased + [] == s.unreleased;
    if q.InFlight() != [] {
      assert forall i :: 0 <= i < |q.InFlight()| && q.Reserving? ==> q.taken[i] == (q.taken + q.todo)[i];
      MoreLost(s, t, q.InFlight());
    } else if q.Owes() != [] {
      MoreLost(s, t, q.Owes());
    }
  }

  /** What WritesOff says of a step is what happens to the books. */
  ghost predicate StepTells(s: State, a: Action)
    requires Enabled(s, a)
  {
    var t := Step(s, a);
    if WritesOff(s, a) then Grows(s, t) && exists z :: WrittenOff(t, z) > WrittenOff(s, z)
    else t.lost == s.lost && t.unreleased == s.unreleased
  }

  lemma ReserveWrites(s: State, p: nat, fault: Fault)
    requires Inv(s) && Enabled(s, Reserve(p, fault))
    ensures StepTells(s, Reserve(p, fault))
  {
    var q := s.procs[p];
    var g := q.todo[0];
    assert ProcOk(s.db, s.zones, q);
    assert (q.taken + q.todo)[|q.taken|] == g;
    ReserveNeverRefused(s, p);
    assert s.lost + [] == s.lost;
    if WritesOff(s, Reserve(p, fault)) {
      MoreLost(s, Step(s, Reserve(p, fault)), [g]);
    }
  }

  lemma UndoWrites(s: State, p: nat, fault: Fault)
    requires Inv(s) && Enabled(s, Undo(p, fault))
    ensures StepTells(s, Undo(p, fault))
  {
    assert ProcOk(s.db, s.zones, s.procs[p]);
    UndoAlwaysCovered(s, p);
    assert s.lost + [] == s.lost;
    if fault == Fault.Failed {
      MoreLost(s, Step(s, Undo(p, fault)), [s.procs[p].owed[0]]);
    }
  }

  lemma ReleaseWrites(s: State, p: nat, fault: Fault)
    requires Inv(s) && Enabled(s, Release(p, fault))
    ensures StepTells(s, Release(p, fault))
  {
    assert ProcOk(s.db, s.zones, s.procs[p]);
    ReleaseAlwaysCovered(s, p);
    if fault == Fault.Failed {
      MoreLost(s, Step(s, Release(p, fault)), [s.procs[p].owed[0]]);
    }
  }

  /** A step leaves the books of seats written off alone exactly when it writes none off. */
  lemma StepWritesOff(s: State, a: Action)
    requires Inv(s) && Enabled(s, a)
    ensures StepTells(s, a)
    ensures (Step(s, a).lost == s.lost && Step(s, a).unreleased == s.unreleased) <==> !WritesOff(s, a)
  {
    match a
    case Crash(p) => CrashWrites(s, p);
    case Reserve(p, fault) => ReserveWrites(s, p, fault);
    case Undo(p, fault) => UndoWrites(s, p, fault);
    case Release(p, fault) => ReleaseWrites(s, p, fault);
    case _ =>
  }

  // ---------- a whole run ----------

  /** No step of the run writes seats off. */
  ghost predicate Clean(s: State, actions: seq<Action>, t: State)
    requires Run(s, actions, t)
    decreases |actions|
  {
    actions == [] || (!WritesOff(s, actions[0]) && Clean(Step(s, actions[0]), actions[1..], t))
  }

  /** Over a run the books of seats written off stay exactly when the run is clean; else some zone has more. */
  lemma {:induction false} RunWritesOff(s: State, actions: seq<Action>, t: State)
    requires Inv(s) && Run(s, actions, t)
    ensures Grows(s, t)
    ensures Clean(s, actions, t) ==> t.lost == s.lost && t.unreleased == s.unreleased
    ensures !Clean(s, actions, t) ==> exists z :: WrittenOff(t, z) > WrittenOff(s, z)
    decreases |actions|
  {
    if actions != [] {
      var m := Step(s, actions[0]);
      StepWritesOff(s, actions[0]);
      StepKeeps(s, actions[0]);
      RunWritesOff(m, actions[1..], t);
      if WritesOff(s, actions[0]) {
        var z :| WrittenOff(m, z) > WrittenOff(s, z);
        assert WrittenOff(t, z) >= WrittenOff(m, z);
      } else if !Clean(m, actions[1..], t) {
        var z :| WrittenOff(t, z) > WrittenOff(m, z);
        assert WrittenOff(m, z) == WrittenOff(s, z);
      }
    }
  }

  /** Steps that can be told to be harmless without looking at the state. */
  predicate Harmless(a: Action) {
    match a
    case Crash(_) => false
    case Reserve(_, fault) => fault != Unreported
    case Undo(_, fault) => fault != Fault.Failed
    case Release(_, fault) => fault != Fault.Failed
    case _ => true
  }

  lemma {:induction false} HarmlessIsClean(s: State, actions: seq<Action>, t: State)
    requires Run(s, actions, t) && forall a | a in actions :: Harmless(a)
    ensures Clean(s, actions, t)
    decreases |actions|
  {
    if actions != [] {
      assert Harmless(actions[0]);
      assert forall a | a in actions[1..] :: a in actions;
      HarmlessIsClean(Step(s, actions[0]), actions[1..], t);
    }
  }

  // ---------- when all have finished ----------

  /** `booked_count` above the active tickets. */
  function Drift(s: State, z: ZoneKey): int { Booked(s.zones, z) - ActiveSeats(s.db.tickets, z) }

  lemma QuietDrift(t: State, z: ZoneKey)
    requires Inv(t) && Quiescent(t)
    ensures Drift(t, z) == WrittenOff(t, z) >= 0
    ensures VoidedSeats(t.db.tickets, z) == Seats(t.returned, z) + Seats(t.unreleased, z)
  {
    assert BalancedAt(t, z) && SettledAt(t, z);
    QuietBooks(t, z);
    BooksCover(t, z);
  }

  /** When everything has finished, every counter is as far from its tickets as it was at the start exactly when the run
    was clean; and then the seat of every ticket cancelled in the run went back exactly once. */
  lemma QuiescentExact(s: State, actions: seq<Action>, t: State)
    requires Reachable(s, actions, t) && Quiescent(t)
    ensures Clean(s, actions, t) <==> forall z :: Drift(t, z) == Drift(s, z)
    ensures Clean(s, actions, t) ==> forall z ::
              Seats(t.returned, z) - Seats(s.returned, z) == VoidedSeats(t.db.tickets, z) - VoidedSeats(s.db.tickets, z)
  {
    InitialInv(s);
    ReachableInv(s, actions, t);
    RunWritesOff(s, actions, t);
    forall z
      ensures Drift(t, z) == WrittenOff(t, z) && Drift(s, z) == WrittenOff(s, z)
      ensures VoidedSeats(t.db.tickets, z) == Seats(t.returned, z) + Seats(t.unreleased, z)
      ensures VoidedSeats(s.db.tickets, z) == Seats(s.returned, z) + Seats(s.unreleased, z)
    {
      QuietDrift(t, z);
      QuietDrift(s, z);
    }
  }

  /** Of a quiescent state the inventory audit says exactly whether seats are written off. */
  lemma GreenWhen(s: State, actions: seq<Action>, t: State)
    requires Reachable(s, actions, t) && Quiescent(t)
    ensures InventoryGreen(t.zones, t.db.tickets) <==> forall z :: WrittenOff(t, z) == 0
  {
    ReachableInv(s, actions, t);
    AuditorStaysGreen(s, actions, t);
    forall z ensures Drift(t, z) == WrittenOff(t, z) && (z !in t.zones ==> WrittenOff(t, z) == 0) {
      QuietDrift(t, z);
      BooksCover(t, z);
    }
    if InventoryGreen(t.zones, t.db.tickets) {
      forall z ensures WrittenOff(t, z) == 0 {
        if z in t.zones { assert z !in DriftAbove(t.zones, t.db.tickets); }
      }
    }
  }

  /** Once traffic stops, the whole inventory audit passes exactly when it passed at the start and no step of the run
    was a crash in the middle, an unreported reservation, or a failed compensation or release. */
  lemma QuiescentAudit(s: State, actions: seq<Action>, t: State)
    requires Reachable(s, actions, t) && Quiescent(t)
    ensures InventoryGreen(t.zones, t.db.tickets) <==> InventoryGreen(s.zones, s.db.tickets) && Clean(s, actions, t)
  {
    InitialInv(s);
    GreenWhen(s, [], s);
    GreenWhen(s, actions, t);
    RunWritesOff(s, actions, t);
    forall z ensures WrittenOff(s, z) >= 0 { QuietDrift(s, z); }
    if forall z :: WrittenOff(t, z) == 0 {
      forall z ensures WrittenOff(s, z) == 0 { assert WrittenOff(t, z) >= WrittenOff(s, z); }
    }
  }

  /** Databases that pass the audit, any traffic without crash, unreported reservation, or failed compensation or
    release: when it is over, they pass the whole audit again. */
  lemma AuditPassesAgain(catalog: Catalog, users: set<int>, zones: Zones, db: Postgres, actions: seq<Action>, t: State)
    requires CatalogOk(catalog, zones) && SchemaHolds(db) && PostgresGreen(db) && InventoryGreen(zones, db.tickets)
    requires Run(Startup(catalog, users, zones, db), actions, t) && Quiescent(t)
    requires forall a | a in actions :: Harmless(a)
    ensures PostgresGreen(t.db) && InventoryGreen(t.zones, t.db.tickets)
    ensures forall z :: Seats(t.returned, z) == VoidedSeats(t.db.tickets, z)
  {
    var s := Startup(catalog, users, zones, db);
    GreenStart(catalog, users, zones, db);
    HarmlessIsClean(s, actions, t);
    QuiescentAudit(s, actions, t);
    QuiescentExact(s, actions, t);
    AuditorStaysGreen(s, actions, t);
    forall z ensures Seats(s.returned, z) == VoidedSeats(s.db.tickets, z) { VoidedGroupsCount(db.tickets, z); }
  }
}
