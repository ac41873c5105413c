/** A flash sale on one zone: k orders of q seats each race for it, and exactly as many as fit are admitted. */
module Admission {
  import opened Wrappers
  import opened Sums
  import opened Store
  import opened Inventory
  import opened Booking
  import opened Protocol
  import opened Guarantees

  datatype Phase = Waiting | Admitted | Refused | Elsewhere

  /** The request is for exactly the seats of `g`. */
  predicate AsksFor(catalog: Catalog, req: Request, g: Group) {
    match ValidateAll(catalog, req.items)
    case Err(_) => false
    case Ok(lines) => |lines| == g.quantity && forall i :: 0 <= i < |lines| ==> lines[i].key == g.key
  }

  /** The idempotency key of a booking that has not been written yet. */
  function OpenKey(q: Proc): Option<string> {
    match q
    case Asked(req) => req.key
    case Reserving(req, _, _, _) => req.key
    case _ => None
  }

  /** The keys of these bookings are new: no order carries one, and no two of them share one. */
  ghost predicate FreshKeys(s: State) {
    && (forall i :: 0 <= i < |s.procs| && UsableKey(OpenKey(s.procs[i])) ==>
          FindKey(s.db.orders, OpenKey(s.procs[i]).value).None?)
    && (forall i, j :: 0 <= i < j < |s.procs| && UsableKey(OpenKey(s.procs[i])) ==>
          OpenKey(s.procs[i]) != OpenKey(s.procs[j]))
  }

  /** Where a single-zone order stands in the race for the seats of `g`. */
  function PhaseOf(catalog: Catalog, q: Proc, g: Group): Phase {
    match q
    case Asked(req) => if AsksFor(catalog, req, g) then Waiting else Elsewhere
    case Reserving(_, _, taken, todo) =>
      if taken == [] && todo == [g] then Waiting else if taken == [g] && todo == [] then Admitted else Elsewhere
    case Undoing(owed, end, recheck) =>
      if owed == [] && end == NoSeatsLeft && recheck == None then Refused else Elsewhere
    case Finished(Placed(_)) => Admitted
    case Finished(NoSeatsLeft) => Refused
    case _ => Elsewhere
  }

  function InPhase(catalog: Catalog, g: Group, ph: Phase): Proc -> int {
    (q: Proc) => Ind(PhaseOf(catalog, q, g) == ph)
  }

  function Number(catalog: Catalog, procs: seq<Proc>, g: Group, ph: Phase): int { Sum(procs, InPhase(catalog, g, ph)) }

  /** No releases, no PostgreSQL failure, a network that works. */
  predicate RaceAction(s: State, a: Action)
    requires Enabled(s, a)
  {
    match a
    case Lookup(_) => true
    case Reserve(_, fault) => fault == Fine
    case Write(p, now) =>
      InsertOrder(s.db, s.users, s.procs[p].req.user, s.procs[p].req.key, s.procs[p].lines, now).Ok?
    case Settle(_) => true
    case _ => false
  }

  ghost predicate Race(s: State, actions: seq<Action>, t: State)
    decreases |actions|
  {
    if actions == [] then s == t
    else Enabled(s, actions[0]) && RaceAction(s, actions[0]) && Race(Step(s, actions[0]), actions[1..], t)
  }

  /** `base` seats were booked before the race. */
  ghost predicate Fair(s: State, g: Group, base: nat) {
    && g.quantity > 0 && g.key in s.zones && Sound(s.zones)
    && (forall i :: 0 <= i < |s.procs| ==> PhaseOf(s.catalog, s.procs[i], g) != Elsewhere)
    && Booked(s.zones, g.key) == base + g.quantity * Number(s.catalog, s.procs, g, Admitted)
    && (Number(s.catalog, s.procs, g, Refused) > 0 ==> Booked(s.zones, g.key) + g.quantity > s.zones[g.key].capacity)
  }

  lemma MovePhase(catalog: Catalog, procs: seq<Proc>, p: nat, q: Proc, g: Group, ph: Phase)
    requires p < |procs|
    ensures Number(catalog, procs[p := q], g, ph)
         == Number(catalog, procs, g, ph) - Ind(PhaseOf(catalog, procs[p], g) == ph) + Ind(PhaseOf(catalog, q, g) == ph)
  {
    SumUpdate(procs, p, q, InPhase(catalog, g, ph));
  }

  lemma NumberNonNegative(catalog: Catalog, procs: seq<Proc>, g: Group, ph: Phase)
    ensures Number(catalog, procs, g, ph) >= 0
  {
    SumAtLeast(procs, InPhase(catalog, g, ph), 0);
  }

  /** A reservation in the race: admitted with its seats, or refused for want of room. */
  lemma ReserveOutcome(s: State, g: Group, p: nat)
    requires Enabled(s, Reserve(p, Fine)) && PhaseOf(s.catalog, s.procs[p], g) == Waiting
    requires g.quantity > 0 && g.key in s.zones && Sound(s.zones)
    ensures var t := Step(s, Reserve(p, Fine));
      && t.catalog == s.catalog && t.procs == s.procs[p := t.procs[p]] && SameZones(s.zones, t.zones) && Sound(t.zones)
      && if s.zones[g.key].booked <= s.zones[g.key].capacity - g.quantity
         then PhaseOf(t.catalog, t.procs[p], g) == Admitted
              && Booked(t.zones, g.key) == Booked(s.zones, g.key) + g.quantity
         else PhaseOf(t.catalog, t.procs[p], g) == Refused && t.zones == s.zones
  {
    assert s.procs[p].todo[0] == g && s.procs[p].todo[1..] == [] && [] + [g] == [g];
    CallEffect(s.zones, g.key, RoomFor(s.zones, g), g.quantity, Fine);
    if RoomFor(s.zones, g).Holds(s.zones[g.key].booked) {
      InRangeAccepted(s.zones, g.key, RoomFor(s.zones, g), g.quantity);
    }
  }

  lemma ReserveRaces(s: State, g: Group, base: nat, p: nat)
    requires Fair(s, g, base) && Enabled(s, Reserve(p, Fine))
    ensures Fair(Step(s, Reserve(p, Fine)), g, base)
    ensures |Step(s, Reserve(p, Fine)).procs| == |s.procs|
    ensures SameZones(s.zones, Step(s, Reserve(p, Fine)).zones)
  {
    var t := Step(s, Reserve(p, Fine));
    assert PhaseOf(s.catalog, s.procs[p], g) == Waiting;
    ReserveOutcome(s, g, p);
    MovePhase(s.catalog, s.procs, p, t.procs[p], g, Admitted);
    MovePhase(s.catalog, s.procs, p, t.procs[p], g, Refused);
    NumberNonNegative(s.catalog, s.procs, g, Refused);
    Times(g.quantity, Number(s.catalog, s.procs, g, Admitted), 0);
  }

  lemma {:induction false} OneZoneOneGroup(keys: seq<ZoneKey>, k: ZoneKey)
    requires keys != [] && forall i :: 0 <= i < |keys| ==> keys[i] == k
    ensures GroupKeys(keys) == [Group(k, |keys|)]
  {
    var n := |keys| - 1;
    if n > 0 {
      OneZoneOneGroup(keys[..n], k);
    } else {
      assert keys[..0] == [];
    }
  }

  lemma AskedOneZone(catalog: Catalog, req: Request, g: Group)
    requires AsksFor(catalog, req, g) && g.quantity > 0
    ensures GroupKeys(LineKeys(SortLines(ValidateAll(catalog, req.items).value))) == [g]
  {
    var lines := ValidateAll(catalog, req.items).value;
    var sorted := SortLines(lines);
    SortKeepsLines(lines);
    forall i | 0 <= i < |sorted| ensures sorted[i].key == g.key {
      assert sorted[i] in lines;
    }
    OneZoneOneGroup(LineKeys(sorted), g.key);
  }

  lemma LookupOutcome(s: State, g: Group, p: nat)
    requires Enabled(s, Lookup(p)) && PhaseOf(s.catalog, s.procs[p], g) == Waiting && g.quantity > 0 && FreshKeys(s)
    ensures var t := Step(s, Lookup(p));
      t == s.(procs := s.procs[p := t.procs[p]]) && PhaseOf(t.catalog, t.procs[p], g) == Waiting
  {
    AskedOneZone(s.catalog, s.procs[p].req, g);
  }

  /** A step that changes no counter and no phase. */
  lemma FairMoved(s: State, t: State, g: Group, base: nat, p: nat)
    requires Fair(s, g, base) && p < |s.procs|
    requires t.catalog == s.catalog && t.zones == s.zones
    requires |t.procs| == |s.procs| && t.procs == s.procs[p := t.procs[p]]
    requires PhaseOf(s.catalog, t.procs[p], g) == PhaseOf(s.catalog, s.procs[p], g)
    ensures Fair(t, g, base)
  {
    MovePhase(s.catalog, s.procs, p, t.procs[p], g, Admitted);
    MovePhase(s.catalog, s.procs, p, t.procs[p], g, Refused);
  }

  lemma WriteOutcome(s: State, g: Group, p: nat, now: int)
    requires Enabled(s, Write(p, now)) && RaceAction(s, Write(p, now)) && PhaseOf(s.catalog, s.procs[p], g) != Elsewhere
    ensures var t := Step(s, Write(p, now));
      && t.catalog == s.catalog && t.zones == s.zones && t.procs == s.procs[p := t.procs[p]]
      && PhaseOf(s.catalog, t.procs[p], g) == PhaseOf(s.catalog, s.procs[p], g)
  {}

  lemma SettleOutcome(s: State, g: Group, p: nat)
    requires Enabled(s, Settle(p)) && PhaseOf(s.catalog, s.procs[p], g) != Elsewhere
    ensures var t := Step(s, Settle(p));
      && t.catalog == s.catalog && t.zones == s.zones && t.procs == s.procs[p := t.procs[p]]
      && PhaseOf(s.catalog, t.procs[p], g) == PhaseOf(s.catalog, s.procs[p], g)
  {}

  lemma LookupPhase(s: State, g: Group, p: nat)
    requires Enabled(s, Lookup(p)) && PhaseOf(s.catalog, s.procs[p], g) != Elsewhere
    ensures PhaseOf(s.catalog, s.procs[p], g) == Waiting
  {}

  /** A step of the race moves one booking, keeps its key or lets go of it, and at most gives the key to a new order. */
  lemma StepKeys(s: State, a: Action)
    requires Enabled(s, a) && RaceAction(s, a)
    ensures var t := Step(s, a);
      && t.procs == s.procs[a.p := t.procs[a.p]] && |t.procs| == |s.procs|
      && (OpenKey(t.procs[a.p]) == OpenKey(s.procs[a.p]) || OpenKey(t.procs[a.p]) == None)
      && (t.db.orders == s.db.orders
          || (OpenKey(t.procs[a.p]) == None && |t.db.orders| == |s.db.orders| + 1 && s.db.orders <= t.db.orders
              && t.db.orders[|s.db.orders|].key == OpenKey(s.procs[a.p])))
  {}

  lemma FreshKeysKept(s: State, a: Action)
    requires Enabled(s, a) && RaceAction(s, a) && FreshKeys(s)
    ensures FreshKeys(Step(s, a))
  {
    var t := Step(s, a);
    StepKeys(s, a);
    forall i | 0 <= i < |t.procs| && UsableKey(OpenKey(t.procs[i]))
      ensures FindKey(t.db.orders, OpenKey(t.procs[i]).value).None?
    {
      assert OpenKey(t.procs[i]) == OpenKey(s.procs[i]);
      if i != a.p { assert OpenKey(s.procs[i]) != OpenKey(s.procs[a.p]); }
      NoSuchKey(s.db.orders, t.db.orders, OpenKey(t.procs[i]).value);
    }
  }

  lemma NoSuchKey(before: seq<Order>, after: seq<Order>, key: string)
    requires FindKey(before, key).None? && before <= after && |after| <= |before| + 1
    requires |after| == |before| + 1 ==> after[|before|].key != Some(key)
    ensures FindKey(after, key).None?
  {
    forall i | 0 <= i < |after| ensures after[i].key != Some(key) {
      if i < |before| { assert after[i] == before[i]; }
    }
  }

  lemma StepRaces(s: State, g: Group, base: nat, a: Action)
    requires Fair(s, g, base) && Enabled(s, a) && RaceAction(s, a) && FreshKeys(s)
    ensures Fair(Step(s, a), g, base)
    ensures |Step(s, a).procs| == |s.procs| && SameZones(s.zones, Step(s, a).zones)
  {
    if a.Reserve? {
      ReserveRaces(s, g, base, a.p);
    } else {
      match a {
        case Lookup(p) =>
          LookupPhase(s, g, p);
          LookupOutcome(s, g, p);
        case Write(p, now) => WriteOutcome(s, g, p, now);
        case Settle(p) => SettleOutcome(s, g, p);
      }
      FairMoved(s, Step(s, a), g, base, a.p);
    }
  }

  lemma {:induction false} RunRaces(s: State, g: Group, base: nat, actions: seq<Action>, t: State)
    requires Fair(s, g, base) && Race(s, actions, t) && FreshKeys(s)
    ensures Fair(t, g, base) && |t.procs| == |s.procs| && SameZones(s.zones, t.zones)
    decreases |actions|
  {
    if actions != [] {
      StepRaces(s, g, base, actions[0]);
      FreshKeysKept(s, actions[0]);
      RunRaces(Step(s, actions[0]), g, base, actions[1..], t);
    }
  }

  lemma Times(q: int, a: int, b: int)
    requires q > 0
    ensures a <= b ==> q * a <= q * b
    ensures q * (a + 1) == q * a + q
  {}

  lemma Quotient(d: int, q: int, n: int)
    requires q > 0
    ensures q * n <= d ==> n <= d / q
    ensures d < q * n + q ==> d / q <= n
  {
    var k := d / q;
    assert q * k <= d < q * k + q;
    Times(q, k + 1, n);
    Times(q, k, n);
    Times(q, n + 1, k);
    Times(q, n, k);
  }

  /** Everyone is admitted or refused in the end. */
  lemma {:induction false} AdmittedOrRefused(catalog: Catalog, procs: seq<Proc>, g: Group)
    requires forall i :: 0 <= i < |procs| ==>
               PhaseOf(catalog, procs[i], g) == Admitted || PhaseOf(catalog, procs[i], g) == Refused
    ensures Number(catalog, procs, g, Admitted) + Number(catalog, procs, g, Refused) == |procs|
  {
    if procs != [] {
      assert forall i :: 0 <= i < |procs[1..]| ==> procs[1..][i] == procs[i + 1];
      AdmittedOrRefused(catalog, procs[1..], g);
    }
  }

  /** What a finished race leaves: as many admitted as fit, the others refused. */
  lemma RaceResult(t: State, g: Group, base: nat)
    requires Fair(t, g, base) && base <= t.zones[g.key].capacity && Quiescent(t)
    ensures Number(t.catalog, t.procs, g, Admitted) == Min(|t.procs|, (t.zones[g.key].capacity - base) / g.quantity)
    ensures Number(t.catalog, t.procs, g, Refused) == |t.procs| - Number(t.catalog, t.procs, g, Admitted)
  {
    assert forall i :: 0 <= i < |t.procs| ==> t.procs[i].Over() && PhaseOf(t.catalog, t.procs[i], g) != Elsewhere;
    AdmittedOrRefused(t.catalog, t.procs, g);
    NumberNonNegative(t.catalog, t.procs, g, Refused);
    assert ZoneValid(t.zones[g.key]);
    Quotient(t.zones[g.key].capacity - base, g.quantity, Number(t.catalog, t.procs, g, Admitted));
  }

  function Placements(): Proc -> int { (q: Proc) => Ind(q.Finished? && q.outcome.Placed?) }
  function SoldOutReplies(): Proc -> int { (q: Proc) => Ind(q == Finished(NoSeatsLeft)) }

  /** A finished order was admitted exactly when it was placed. */
  lemma FinishedPhases(catalog: Catalog, procs: seq<Proc>, g: Group)
    requires forall i :: 0 <= i < |procs| ==> procs[i].Over() && PhaseOf(catalog, procs[i], g) != Elsewhere
    ensures Sum(procs, Placements()) == Number(catalog, procs, g, Admitted)
    ensures Sum(procs, SoldOutReplies()) == Number(catalog, procs, g, Refused)
  {
    SumEqual(procs, InPhase(catalog, g, Admitted), procs, Placements());
    SumEqual(procs, InPhase(catalog, g, Refused), procs, SoldOutReplies());
  }

  lemma RaceStarts(s: State, g: Group)
    requires g.key in s.zones && Sound(s.zones) && g.quantity > 0
    requires forall i :: 0 <= i < |s.procs| ==> PhaseOf(s.catalog, s.procs[i], g) == Waiting
    ensures 0 <= s.zones[g.key].booked <= s.zones[g.key].capacity && Fair(s, g, s.zones[g.key].booked)
  {
    assert ZoneValid(s.zones[g.key]);
    SumZero(s.procs, InPhase(s.catalog, g, Admitted));
    SumZero(s.procs, InPhase(s.catalog, g, Refused));
  }

  /** How many of k orders of q seats fit. */
  function Admits(z: Zone, q: nat, k: nat): int
    requires q > 0
  {
    Min(k, (z.capacity - z.booked) / q)
  }

  /** A finished fair race, counted by answers. */
  lemma RaceEnds(t: State, g: Group, before: Zone)
    requires before.booked >= 0 && Fair(t, g, before.booked) && Quiescent(t)
    requires before.booked <= before.capacity == t.zones[g.key].capacity
    ensures Sum(t.procs, Placements()) == Admits(before, g.quantity, |t.procs|)
    ensures Sum(t.procs, SoldOutReplies()) == |t.procs| - Admits(before, g.quantity, |t.procs|)
    ensures Booked(t.zones, g.key) == before.booked + g.quantity * Admits(before, g.quantity, |t.procs|)
  {
    RaceResult(t, g, before.booked);
    FinishedPhases(t.catalog, t.procs, g);
  }

  /** Every interleaving of k orders of q seats with new keys or none, from request to answer, ends with exactly
    min(k, (capacity - booked) div q) of them admitted. */
  lemma ExactAdmission(s: State, g: Group, actions: seq<Action>, t: State)
    requires g.key in s.zones && Sound(s.zones) && g.quantity > 0
    requires forall i :: 0 <= i < |s.procs| ==> PhaseOf(s.catalog, s.procs[i], g) == Waiting
    requires FreshKeys(s) && Race(s, actions, t) && Quiescent(t)
    ensures Sum(t.procs, Placements()) == Admits(s.zones[g.key], g.quantity, |s.procs|)
    ensures Sum(t.procs, SoldOutReplies()) == |s.procs| - Admits(s.zones[g.key], g.quantity, |s.procs|)
    ensures Booked(t.zones, g.key) == s.zones[g.key].booked + g.quantity * Admits(s.zones[g.key], g.quantity, |s.procs|)
  {
    RaceStarts(s, g);
    RunRaces(s, g, s.zones[g.key].booked, actions, t);
    RaceEnds(t, g, s.zones[g.key]);
  }
}
