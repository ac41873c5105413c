/** MongoDB zone counters: one atomic `update_one` at a time, under the collection validator.

  Any call may fail, or take effect and still be reported as failed. */
module Inventory {
  import opened Store

  type Zones = map<ZoneKey, Zone>

  /** The condition an update puts on `booked_count`. */
  datatype Guard = AnyCount | AtMost(limit: int) | AtLeast(floor: int) {
    predicate Holds(booked: int) {
      match this
      case AnyCount => true
      case AtMost(n) => booked <= n
      case AtLeast(n) => booked >= n
    }
  }

  datatype Fault = Fine | Failed | Unreported

  datatype Update = Modified(zones: Zones) | NotMatched | Rejected

  predicate ZoneValid(z: Zone) { 0 <= z.booked <= z.capacity }

  /** EVENT_ZONES_VALIDATOR on one event document. */
  predicate DocumentValid(zones: Zones, event: string) {
    forall k | k in zones :: k.event == event ==> ZoneValid(zones[k])
  }

  function Booked(zones: Zones, z: ZoneKey): int { if z in zones then zones[z].booked else 0 }

  function WithBooked(zones: Zones, k: ZoneKey, n: int): Zones
    requires k in zones
  {
    zones[k := zones[k].(booked := n)]
  }

  /** `$inc` under a guard. Level "moderate": a document that was already invalid is not checked again. */
  function Attempt(zones: Zones, k: ZoneKey, guard: Guard, delta: int): Update {
    if k !in zones || !guard.Holds(zones[k].booked) then NotMatched
    else
      var next := WithBooked(zones, k, zones[k].booked + delta);
      if DocumentValid(zones, k.event) && !DocumentValid(next, k.event) then Rejected else Modified(next)
  }

  function Applied(zones: Zones, k: ZoneKey, guard: Guard, delta: int): Zones {
    match Attempt(zones, k, guard, delta)
    case Modified(next) => next
    case _ => zones
  }

  /** An update inside 0..capacity is never refused by the validator. */
  lemma InRangeAccepted(zones: Zones, k: ZoneKey, guard: Guard, delta: int)
    requires k in zones && guard.Holds(zones[k].booked)
    requires 0 <= zones[k].booked + delta <= zones[k].capacity
    ensures Attempt(zones, k, guard, delta) == Modified(WithBooked(zones, k, zones[k].booked + delta))
  {
    var next := WithBooked(zones, k, zones[k].booked + delta);
    if DocumentValid(zones, k.event) {
      assert forall j | j in next :: j.event == k.event ==> ZoneValid(next[j]) by {
        assert forall j | j in next :: j == k || (j in zones && next[j] == zones[j]);
      }
    }
  }

  /** A guarded decrement is never refused by the validator, even from a corrupted document. */
  lemma DecrementAccepted(zones: Zones, k: ZoneKey, q: nat)
    requires k in zones && zones[k].booked >= q
    ensures Attempt(zones, k, AtLeast(q), -(q as int)) == Modified(WithBooked(zones, k, zones[k].booked - q))
  {
    if DocumentValid(zones, k.event) {
      assert ZoneValid(zones[k]);
      InRangeAccepted(zones, k, AtLeast(q), -(q as int));
    }
  }

  // ---------- release as truncated subtraction ----------

  /** What releasing `q` seats leaves in a counter, wherever the counter had drifted to. */
  function Released(booked: int, q: nat): int {
    if booked >= q then booked - q else if booked > 0 then 0 else booked
  }

  function Return(zones: Zones, g: Group): Zones {
    if g.key in zones then WithBooked(zones, g.key, Released(zones[g.key].booked, g.quantity)) else zones
  }

  function ReturnAll(zones: Zones, groups: seq<Group>): Zones {
    if groups == [] then zones else ReturnAll(Return(zones, groups[0]), groups[1..])
  }

  lemma ReleasedTwice(c: int, a: nat, b: nat)
    ensures Released(Released(c, a), b) == Released(c, a + b)
  {}

  lemma {:induction false} ReturnAllAppend(zones: Zones, gs: seq<Group>, hs: seq<Group>)
    ensures ReturnAll(zones, gs + hs) == ReturnAll(ReturnAll(zones, gs), hs)
  {
    if gs == [] {
      assert gs + hs == hs;
    } else {
      assert (gs + hs)[0] == gs[0] && (gs + hs)[1..] == gs[1..] + hs;
      ReturnAllAppend(Return(zones, gs[0]), gs[1..], hs);
    }
  }

  /** Releasing groups one after another depends only on the seats per zone: not on order, not on batching. */
  lemma {:induction false} ReturnAllBySeats(zones: Zones, groups: seq<Group>)
    ensures ReturnAll(zones, groups).Keys == zones.Keys
    ensures forall z :: z in zones ==>
         && Seats(groups, z) >= 0
         && ReturnAll(zones, groups)[z] == zones[z].(booked := Released(zones[z].booked, Seats(groups, z)))
  {
    if groups != [] {
      var next := Return(zones, groups[0]);
      assert next.Keys == zones.Keys;
      ReturnAllBySeats(next, groups[1..]);
      forall z | z in zones
        ensures Seats(groups, z) >= 0
        ensures ReturnAll(zones, groups)[z] == zones[z].(booked := Released(zones[z].booked, Seats(groups, z)))
      {
        SeatsNonNegative(groups, z);
        SeatsNonNegative(groups[1..], z);
        if groups[0].key == z {
          ReleasedTwice(zones[z].booked, groups[0].quantity, Seats(groups[1..], z));
        }
      }
    }
  }

  ghost predicate SameZones(a: Zones, b: Zones) {
    a.Keys == b.Keys
    && forall k | k in a :: b[k].capacity == a[k].capacity && b[k].price == a[k].price
  }

  ghost predicate Sound(zones: Zones) { forall k | k in zones :: ZoneValid(zones[k]) }

  ghost predicate Covers(zones: Zones, groups: seq<Group>) { forall z :: Booked(zones, z) >= Seats(groups, z) }

  lemma AttemptKeepsSound(zones: Zones, k: ZoneKey, guard: Guard, delta: int)
    ensures Sound(zones) ==> Sound(Applied(zones, k, guard, delta))
  {
    var after := Applied(zones, k, guard, delta);
    assert forall j | j in after :: j.event != k.event ==> after[j] == zones[j];
  }

  /** The capacities read at validation are still those of the documents. */
  ghost predicate Current(capacities: map<ZoneKey, nat>, zones: Zones) {
    forall k | k in capacities && k in zones :: capacities[k] == zones[k].capacity
  }

  // ---------- one call ----------

  /** What the caller sees: `modified_count`, or an exception. */
  datatype Reply = Count(modified: nat) | Raised

  /** The call changed the counter, whatever the caller was told. */
  predicate TookEffect(zones: Zones, k: ZoneKey, guard: Guard, delta: int, fault: Fault) {
    fault != Fault.Failed && Attempt(zones, k, guard, delta).Modified?
  }

  function AfterCall(zones: Zones, k: ZoneKey, guard: Guard, delta: int, fault: Fault): Zones {
    if fault == Fault.Failed then zones else Applied(zones, k, guard, delta)
  }

  function ReplyOf(zones: Zones, k: ZoneKey, guard: Guard, delta: int, fault: Fault): Reply {
    if fault != Fine then Raised
    else
      match Attempt(zones, k, guard, delta)
      case Modified(_) => Count(1)
      case NotMatched => Count(0)
      case Rejected => Raised
  }

  /** A call moves one counter by `delta` if it took effect, and nothing else. */
  lemma CallEffect(zones: Zones, k: ZoneKey, guard: Guard, delta: int, fault: Fault)
    ensures SameZones(zones, AfterCall(zones, k, guard, delta, fault))
    ensures forall z :: Booked(AfterCall(zones, k, guard, delta, fault), z)
                     == Booked(zones, z) + if z == k && TookEffect(zones, k, guard, delta, fault) then delta else 0
    ensures Sound(zones) ==> Sound(AfterCall(zones, k, guard, delta, fault))
    ensures ReplyOf(zones, k, guard, delta, fault) == Count(1) ==> TookEffect(zones, k, guard, delta, fault)
    ensures ReplyOf(zones, k, guard, delta, fault) == Count(0) ==> !TookEffect(zones, k, guard, delta, fault)
  {
    AttemptKeepsSound(zones, k, guard, delta);
  }

  /** `booked_count <= capacity - quantity`, with the capacity that was read. */
  function RoomIn(capacities: map<ZoneKey, nat>, g: Group): Guard {
    AtMost((if g.key in capacities then capacities[g.key] else 0) - g.quantity)
  }

  /** The seats of these groups went back at most: no counter below a full release, none above where it was. */
  ghost predicate GivenBack(before: Zones, groups: seq<Group>, after: Zones) {
    SameZones(before, after)
    && forall z | z in before ::
         Seats(groups, z) >= 0 && Released(before[z].booked, Seats(groups, z)) <= after[z].booked <= before[z].booked
  }

  lemma NothingGiven(zones: Zones)
    ensures GivenBack(zones, [], zones)
  {}

  /** Two partial releases are one of both. */
  lemma GivenBackTwice(a: Zones, gs: seq<Group>, b: Zones, hs: seq<Group>, c: Zones, all: seq<Group>)
    requires GivenBack(a, gs, b) && GivenBack(b, hs, c)
    requires forall z :: Seats(all, z) == Seats(gs, z) + Seats(hs, z)
    ensures GivenBack(a, all, c)
  {
    forall z | z in a ensures Seats(all, z) >= 0 && Released(a[z].booked, Seats(all, z)) <= c[z].booked <= a[z].booked {
      assert Seats(gs, z) >= 0 && Seats(hs, z) >= 0;
    }
  }
}
