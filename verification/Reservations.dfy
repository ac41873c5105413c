/** The three loops over the zone counters, under any pattern of faults: reserve, compensate, release. */
module Reservations {
  import opened Sums
  import opened Store
  import opened Inventory

  // ---------- what the loops do; `net` says how call number c ends ----------

  datatype ReserveResult = Reserved | SoldOut | Unreachable

  /** The counters afterwards, the number of the next call, and the seats that stay counted without an order. */
  datatype Undone = Undone(zones: Zones, calls: nat, lost: seq<Group>)
  datatype Reservation = Reservation(zones: Zones, calls: nat, result: ReserveResult, lost: seq<Group>)

  /** `given`: the seats that really went back. */
  datatype Given = Given(zones: Zones, calls: nat, given: seq<Group>)

  /** Compensation: every group is given back by an unguarded update, or lost. */
  function UndoUnder(zones: Zones, net: nat -> Fault, c: nat, groups: seq<Group>): Undone
    decreases |groups|
  {
    if groups == [] then Undone(zones, c, [])
    else
      var g := groups[0];
      var delta := -(g.quantity as int);
      var rest := UndoUnder(AfterCall(zones, g.key, AnyCount, delta, net(c)), net, c + 1, groups[1..]);
      rest.(lost := (if TookEffect(zones, g.key, AnyCount, delta, net(c)) then [] else [g]) + rest.lost)
  }

  /** Reservation: zone by zone, all or compensation of what was taken. */
  function ReserveUnder(zones: Zones, net: nat -> Fault, c: nat, capacities: map<ZoneKey, nat>,
                        taken: seq<Group>, todo: seq<Group>): Reservation
    decreases |todo|
  {
    if todo == [] then Reservation(zones, c, Reserved, [])
    else
      var g := todo[0];
      var room := RoomIn(capacities, g);
      var next := AfterCall(zones, g.key, room, g.quantity, net(c));
      match ReplyOf(zones, g.key, room, g.quantity, net(c))
      case Count(n) =>
        if n > 0 then ReserveUnder(next, net, c + 1, capacities, taken + [g], todo[1..])
        else
          var undone := UndoUnder(next, net, c + 1, taken);
          Reservation(undone.zones, undone.calls, SoldOut, undone.lost)
      case Raised =>
        var undone := UndoUnder(next, net, c + 1, taken);
        var missed := if TookEffect(zones, g.key, room, g.quantity, net(c)) then [g] else [];
        Reservation(undone.zones, undone.calls, Unreachable, missed + undone.lost)
  }

  /** The fallback of a release: one seat at a time, until a call fails. */
  function SinglesUnder(zones: Zones, net: nat -> Fault, c: nat, k: ZoneKey, left: nat): Given
    decreases left
  {
    if left == 0 then Given(zones, c, [])
    else
      var next := AfterCall(zones, k, AtLeast(1), -1, net(c));
      var one := [Group(k, if TookEffect(zones, k, AtLeast(1), -1, net(c)) then 1 else 0)];
      if ReplyOf(zones, k, AtLeast(1), -1, net(c)) == Raised then Given(next, c + 1, one)
      else
        var rest := SinglesUnder(next, net, c + 1, k, left - 1);
        rest.(given := one + rest.given)
  }

  /** One guarded release, with the fallback when the guard does not match. */
  function ReleaseOne(zones: Zones, net: nat -> Fault, c: nat, g: Group): Given {
    var delta := -(g.quantity as int);
    var next := AfterCall(zones, g.key, AtLeast(g.quantity), delta, net(c));
    if ReplyOf(zones, g.key, AtLeast(g.quantity), delta, net(c)) == Count(0)
    then SinglesUnder(next, net, c + 1, g.key, g.quantity)
    else Given(next, c + 1, if TookEffect(zones, g.key, AtLeast(g.quantity), delta, net(c)) then [g] else [])
  }

  function ReleaseUnder(zones: Zones, net: nat -> Fault, c: nat, groups: seq<Group>): Given
    decreases |groups|
  {
    if groups == [] then Given(zones, c, [])
    else
      var first := ReleaseOne(zones, net, c, groups[0]);
      var rest := ReleaseUnder(first.zones, net, first.calls, groups[1..]);
      rest.(given := first.given + rest.given)
  }

  /** The network is well behaved. */
  ghost predicate Calm(net: nat -> Fault) { forall n :: net(n) == Fine }

  lemma SeatsOne(g: Group, rest: seq<Group>, z: ZoneKey)
    ensures Seats([g] + rest, z) == QuantityAt(z)(g) + Seats(rest, z) && Seats([g], z) == QuantityAt(z)(g)
  {
    assert ([g] + rest)[1..] == rest;
    assert [] + [g] == [g];
    SeatsSnoc([], g, z);
  }

  lemma CallEffectAt(zones: Zones, k: ZoneKey, guard: Guard, delta: int, fault: Fault, z: ZoneKey)
    ensures Booked(AfterCall(zones, k, guard, delta, fault), z)
         == Booked(zones, z) + if z == k && TookEffect(zones, k, guard, delta, fault) then delta else 0
  {
    CallEffect(zones, k, guard, delta, fault);
  }

  // ---------- compensation ----------

  /** Every counter goes down by its seats, except for those lost. */
  lemma UndoBooks(zones: Zones, net: nat -> Fault, c: nat, groups: seq<Group>)
    ensures var u := UndoUnder(zones, net, c, groups);
      && SameZones(zones, u.zones)
      && forall z :: Booked(u.zones, z) == Booked(zones, z) - Seats(groups, z) + Seats(u.lost, z)
  {
    UndoSameZones(zones, net, c, groups);
    var u := UndoUnder(zones, net, c, groups);
    forall z ensures Booked(u.zones, z) == Booked(zones, z) - Seats(groups, z) + Seats(u.lost, z) {
      UndoBooksAt(zones, net, c, groups, z);
    }
  }

  lemma {:induction false} UndoSameZones(zones: Zones, net: nat -> Fault, c: nat, groups: seq<Group>)
    ensures SameZones(zones, UndoUnder(zones, net, c, groups).zones)
    decreases |groups|
  {
    if groups != [] {
      var g := groups[0];
      CallEffect(zones, g.key, AnyCount, -(g.quantity as int), net(c));
      UndoSameZones(AfterCall(zones, g.key, AnyCount, -(g.quantity as int), net(c)), net, c + 1, groups[1..]);
    }
  }

  lemma {:induction false} UndoBooksAt(zones: Zones, net: nat -> Fault, c: nat, groups: seq<Group>, z: ZoneKey)
    ensures var u := UndoUnder(zones, net, c, groups);
      Booked(u.zones, z) == Booked(zones, z) - Seats(groups, z) + Seats(u.lost, z)
    decreases |groups|
  {
    if groups != [] {
      var g := groups[0];
      var delta := -(g.quantity as int);
      var next := AfterCall(zones, g.key, AnyCount, delta, net(c));
      var rest := UndoUnder(next, net, c + 1, groups[1..]);
      CallEffectAt(zones, g.key, AnyCount, delta, net(c), z);
      UndoBooksAt(next, net, c + 1, groups[1..], z);
      SeatsOne(g, rest.lost, z);
      assert [] + rest.lost == rest.lost;
    }
  }

  /** These seats can have been reserved in these counters. */
  ghost predicate ReservedHere(zones: Zones, groups: seq<Group>) {
    Sound(zones) && Covers(zones, groups) && forall i :: 0 <= i < |groups| ==> groups[i].key in zones
  }

  /** Nothing is lost on a calm network, while the counters cover the seats. */
  lemma {:induction false} UndoCalm(zones: Zones, net: nat -> Fault, c: nat, groups: seq<Group>)
    requires Calm(net) && ReservedHere(zones, groups)
    ensures UndoUnder(zones, net, c, groups).lost == []
    decreases |groups|
  {
    if groups != [] {
      UndoOneCalm(zones, groups);
      var next := AfterCall(zones, groups[0].key, AnyCount, -(groups[0].quantity as int), Fine);
      assert net(c) == Fine;
      UndoCalm(next, net, c + 1, groups[1..]);
    }
  }

  lemma UndoOneCalm(zones: Zones, groups: seq<Group>)
    requires ReservedHere(zones, groups) && groups != []
    ensures var g := groups[0];
      var delta := -(g.quantity as int);
      && TookEffect(zones, g.key, AnyCount, delta, Fine)
      && ReservedHere(AfterCall(zones, g.key, AnyCount, delta, Fine), groups[1..])
  {
    var g := groups[0];
    var delta := -(g.quantity as int);
    SeatsNonNegative(groups, g.key);
    SeatsNonNegative(groups[1..], g.key);
    assert Booked(zones, g.key) >= Seats(groups, g.key);
    assert ZoneValid(zones[g.key]);
    InRangeAccepted(zones, g.key, AnyCount, delta);
    CallEffect(zones, g.key, AnyCount, delta, Fine);
    forall z ensures Booked(AfterCall(zones, g.key, AnyCount, delta, Fine), z) >= Seats(groups[1..], z) {
      assert Booked(zones, z) >= Seats(groups, z);
    }
    assert forall i :: 0 <= i < |groups[1..]| ==> groups[1..][i] == groups[i + 1];
  }

  // ---------- reservation ----------

  predicate HasRoom(zones: Zones, capacities: map<ZoneKey, nat>, g: Group) {
    g.key in zones && RoomIn(capacities, g).Holds(zones[g.key].booked)
  }

  /** Every group finds room. */
  predicate Fits(zones: Zones, capacities: map<ZoneKey, nat>, groups: seq<Group>) {
    forall i :: 0 <= i < |groups| ==> HasRoom(zones, capacities, groups[i])
  }

  /** All seats of the order are counted, or those taken so far are given back, except for those lost. */
  lemma {:induction false} ReserveBooks(zones: Zones, net: nat -> Fault, c: nat, capacities: map<ZoneKey, nat>,
                                        taken: seq<Group>, todo: seq<Group>)
    ensures var h := ReserveUnder(zones, net, c, capacities, taken, todo);
      && SameZones(zones, h.zones) && (h.result == Reserved ==> h.lost == [])
      && forall z :: Booked(h.zones, z)
                  == Booked(zones, z) + (if h.result == Reserved then Seats(todo, z) else -Seats(taken, z))
                     + Seats(h.lost, z)
    decreases |todo|
  {
    if todo != [] {
      var g := todo[0];
      var room := RoomIn(capacities, g);
      var next := AfterCall(zones, g.key, room, g.quantity, net(c));
      CallEffect(zones, g.key, room, g.quantity, net(c));
      if ReplyOf(zones, g.key, room, g.quantity, net(c)) == Count(1) {
        ReserveBooks(next, net, c + 1, capacities, taken + [g], todo[1..]);
        forall z ensures Seats(taken + [g], z) == Seats(taken, z) + QuantityAt(z)(g) {
          SeatsSnoc(taken, g, z);
        }
      } else {
        UndoBooks(next, net, c + 1, taken);
        var lost := UndoUnder(next, net, c + 1, taken).lost;
        forall z ensures Seats([g] + lost, z) == QuantityAt(z)(g) + Seats(lost, z) && [] + lost == lost {
          SeatsOne(g, lost, z);
        }
      }
    }
  }

  /** What was reserved is in known zones, whose counters stay within their capacities. */
  lemma {:induction false} ReservedSound(zones: Zones, net: nat -> Fault, c: nat, capacities: map<ZoneKey, nat>,
                                         taken: seq<Group>, todo: seq<Group>)
    requires ReserveUnder(zones, net, c, capacities, taken, todo).result == Reserved
    ensures forall i :: 0 <= i < |todo| ==> todo[i].key in zones
    ensures Sound(zones) ==> Sound(ReserveUnder(zones, net, c, capacities, taken, todo).zones)
    decreases |todo|
  {
    if todo != [] {
      var g := todo[0];
      CallEffect(zones, g.key, RoomIn(capacities, g), g.quantity, net(c));
      ReservedSound(AfterCall(zones, g.key, RoomIn(capacities, g), g.quantity, net(c)), net, c + 1, capacities,
                    taken + [g], todo[1..]);
      assert forall i :: 1 <= i < |todo| ==> todo[i] == todo[1..][i - 1];
    }
  }

  lemma RoomElsewhere(zones: Zones, capacities: map<ZoneKey, nat>, g: Group, fault: Fault, h: Group)
    requires g.key != h.key
    ensures HasRoom(AfterCall(zones, g.key, RoomIn(capacities, g), g.quantity, fault), capacities, h)
         == HasRoom(zones, capacities, h)
  {}

  /** The room of the later zones does not depend on the first one. */
  lemma FitsNext(zones: Zones, capacities: map<ZoneKey, nat>, todo: seq<Group>, fault: Fault)
    requires todo != [] && DistinctKeys(todo)
    ensures var next := AfterCall(zones, todo[0].key, RoomIn(capacities, todo[0]), todo[0].quantity, fault);
      Fits(zones, capacities, todo) <==> HasRoom(zones, capacities, todo[0]) && Fits(next, capacities, todo[1..])
  {
    var next := AfterCall(zones, todo[0].key, RoomIn(capacities, todo[0]), todo[0].quantity, fault);
    forall i | 0 < i < |todo|
      ensures HasRoom(next, capacities, todo[1..][i - 1]) == HasRoom(zones, capacities, todo[i])
    {
      RoomElsewhere(zones, capacities, todo[0], fault, todo[i]);
    }
    if Fits(next, capacities, todo[1..]) {
      forall i | 0 <= i < |todo| && HasRoom(zones, capacities, todo[0]) ensures HasRoom(zones, capacities, todo[i]) {
        if i > 0 { assert HasRoom(next, capacities, todo[1..][i - 1]); }
      }
    }
    if Fits(zones, capacities, todo) {
      forall i | 0 <= i < |todo[1..]| ensures HasRoom(next, capacities, todo[1..][i]) {
        assert HasRoom(zones, capacities, todo[i + 1]);
        assert HasRoom(next, capacities, todo[1..][(i + 1) - 1]) == HasRoom(zones, capacities, todo[i + 1]);
      }
    }
  }

  /** An answer about room is right: reserved only if every group fits, sold out only if some group does not. */
  lemma {:induction false} ReserveDecides(zones: Zones, net: nat -> Fault, c: nat, capacities: map<ZoneKey, nat>,
                                          taken: seq<Group>, todo: seq<Group>)
    requires DistinctKeys(todo)
    ensures var h := ReserveUnder(zones, net, c, capacities, taken, todo);
      && (h.result == Reserved ==> Fits(zones, capacities, todo))
      && (h.result == SoldOut ==> !Fits(zones, capacities, todo))
    decreases |todo|
  {
    if todo != [] {
      var g := todo[0];
      FitsNext(zones, capacities, todo, net(c));
      assert forall i :: 0 <= i < |todo[1..]| ==> todo[1..][i] == todo[i + 1];
      ReserveDecides(AfterCall(zones, g.key, RoomIn(capacities, g), g.quantity, net(c)), net, c + 1, capacities,
                     taken + [g], todo[1..]);
    }
  }

  /** On a calm network, with current capacities, there is an answer, and nothing is lost. */
  lemma {:induction false} ReserveCalm(zones: Zones, net: nat -> Fault, c: nat, capacities: map<ZoneKey, nat>,
                                       taken: seq<Group>, todo: seq<Group>)
    requires Calm(net) && ReservedHere(zones, taken)
    ensures var h := ReserveUnder(zones, net, c, capacities, taken, todo);
      && h.lost == []
      && (Current(capacities, zones) && (forall g :: g in todo ==> g.key in capacities) ==> h.result != Unreachable)
    decreases |todo|
  {
    if todo != [] {
      var g := todo[0];
      var room := RoomIn(capacities, g);
      var next := AfterCall(zones, g.key, room, g.quantity, net(c));
      CallEffect(zones, g.key, room, g.quantity, net(c));
      if g.key in zones && room.Holds(zones[g.key].booked) && g.key in capacities
        && capacities[g.key] == zones[g.key].capacity {
        assert ZoneValid(zones[g.key]);
        InRangeAccepted(zones, g.key, room, g.quantity);
      }
      forall z ensures Seats(taken + [g], z) == Seats(taken, z) + QuantityAt(z)(g) {
        SeatsSnoc(taken, g, z);
      }
      if ReplyOf(zones, g.key, room, g.quantity, net(c)) == Count(1) {
        forall z ensures Booked(next, z) >= Seats(taken + [g], z) {
          assert Booked(zones, z) >= Seats(taken, z);
        }
        ReserveCalm(next, net, c + 1, capacities, taken + [g], todo[1..]);
      } else {
        assert next == zones;
        UndoCalm(next, net, c + 1, taken);
      }
    }
  }

  /** Only the capacities of zones that exist matter. */
  lemma {:induction false} SameRoom(zones: Zones, net: nat -> Fault, c: nat, a: map<ZoneKey, nat>, b: map<ZoneKey, nat>,
                                    taken: seq<Group>, todo: seq<Group>)
    requires forall g :: g in todo && g.key in zones ==> RoomIn(a, g) == RoomIn(b, g)
    ensures ReserveUnder(zones, net, c, a, taken, todo) == ReserveUnder(zones, net, c, b, taken, todo)
    decreases |todo|
  {
    if todo != [] {
      var g := todo[0];
      var next := AfterCall(zones, g.key, RoomIn(a, g), g.quantity, net(c));
      CallEffect(zones, g.key, RoomIn(a, g), g.quantity, net(c));
      SameRoom(next, net, c + 1, a, b, taken + [g], todo[1..]);
    }
  }

  // ---------- release ----------

  lemma {:induction false} SinglesBooks(zones: Zones, net: nat -> Fault, c: nat, k: ZoneKey, left: nat)
    ensures var r := SinglesUnder(zones, net, c, k, left);
      r.zones == ReturnAll(zones, r.given) && forall z :: 0 <= Seats(r.given, z) <= if z == k then left else 0
    decreases left
  {
    if left > 0 {
      var took := TookEffect(zones, k, AtLeast(1), -1, net(c));
      var one := Group(k, if took then 1 else 0);
      var next := AfterCall(zones, k, AtLeast(1), -1, net(c));
      assert next == Return(zones, one) by {
        if k in zones { assert WithBooked(zones, k, zones[k].booked) == zones; }
      }
      SinglesBooks(next, net, c + 1, k, left - 1);
      var rest := SinglesUnder(next, net, c + 1, k, left - 1).given;
      assert ([one] + rest)[1..] == rest && [one][1..] == [];
      forall z
        ensures Seats([one] + rest, z) == QuantityAt(z)(one) + Seats(rest, z) && Seats([one], z) == QuantityAt(z)(one)
      {
        SeatsOne(one, rest, z);
      }
    }
  }

  lemma {:induction false} SinglesCalm(zones: Zones, net: nat -> Fault, c: nat, k: ZoneKey, left: nat)
    requires Calm(net)
    ensures SinglesUnder(zones, net, c, k, left).zones == Return(zones, Group(k, left))
    decreases left
  {
    if k in zones { assert WithBooked(zones, k, zones[k].booked) == zones; }
    if left > 0 {
      var next := AfterCall(zones, k, AtLeast(1), -1, net(c));
      if k in zones && zones[k].booked >= 1 { DecrementAccepted(zones, k, 1); }
      assert next == Return(zones, Group(k, 1));
      SinglesCalm(next, net, c + 1, k, left - 1);
      if k in zones { ReleasedTwice(zones[k].booked, 1, left - 1); }
    }
  }

  lemma ReleaseOneBooks(zones: Zones, net: nat -> Fault, c: nat, g: Group)
    ensures var r := ReleaseOne(zones, net, c, g);
      r.zones == ReturnAll(zones, r.given) && (forall z :: 0 <= Seats(r.given, z) <= QuantityAt(z)(g))
  {
    if g.key in zones && zones[g.key].booked >= g.quantity { DecrementAccepted(zones, g.key, g.quantity); }
    forall z ensures Seats([g], z) == QuantityAt(z)(g) { SeatsOne(g, [], z); }
    assert [g][1..] == [];
    assert ReturnAll(zones, [g]) == Return(zones, g);
    SinglesBooks(zones, net, c + 1, g.key, g.quantity);
  }

  lemma ReleaseOneCalm(zones: Zones, net: nat -> Fault, c: nat, g: Group)
    requires Calm(net)
    ensures ReleaseOne(zones, net, c, g).zones == Return(zones, g)
  {
    if g.key in zones && zones[g.key].booked >= g.quantity { DecrementAccepted(zones, g.key, g.quantity); }
    SinglesCalm(zones, net, c + 1, g.key, g.quantity);
  }

  /** A release, whatever fails, is truncated subtraction of the seats that went back, at most those of the groups; on a
    calm network it is truncated subtraction of all of them. */
  lemma {:induction false} ReleaseBooks(zones: Zones, net: nat -> Fault, c: nat, groups: seq<Group>)
    ensures var r := ReleaseUnder(zones, net, c, groups);
      && r.zones == ReturnAll(zones, r.given) && (forall z :: 0 <= Seats(r.given, z) <= Seats(groups, z))
      && (Calm(net) ==> r.zones == ReturnAll(zones, groups))
    decreases |groups|
  {
    if groups != [] {
      var first := ReleaseOne(zones, net, c, groups[0]);
      var rest := ReleaseUnder(first.zones, net, first.calls, groups[1..]);
      ReleaseOneBooks(zones, net, c, groups[0]);
      if Calm(net) { ReleaseOneCalm(zones, net, c, groups[0]); }
      ReleaseBooks(first.zones, net, first.calls, groups[1..]);
      ReturnAllAppend(zones, first.given, rest.given);
      forall z ensures Seats(first.given + rest.given, z) == Seats(first.given, z) + Seats(rest.given, z) {
        SumAppend(first.given, rest.given, QuantityAt(z));
      }
    }
  }

  /** Under every fault each counter ends between a full release and where it was. */
  lemma ReleaseBounds(zones: Zones, net: nat -> Fault, c: nat, groups: seq<Group>)
    ensures GivenBack(zones, groups, ReleaseUnder(zones, net, c, groups).zones)
  {
    var r := ReleaseUnder(zones, net, c, groups);
    ReleaseBooks(zones, net, c, groups);
    ReturnAllBySeats(zones, r.given);
    forall z | z in zones
      ensures Seats(groups, z) >= 0
      ensures Released(zones[z].booked, Seats(groups, z)) <= r.zones[z].booked <= zones[z].booked
    {
      assert 0 <= Seats(r.given, z) <= Seats(groups, z);
    }
  }

  /** What the reservation of a whole order means. */
  lemma ReserveFacts(zones: Zones, net: nat -> Fault, c: nat, capacities: map<ZoneKey, nat>, groups: seq<Group>)
    requires forall i :: 0 <= i < |groups| ==> groups[i].key in capacities
    ensures var h := ReserveUnder(zones, net, c, capacities, [], groups);
      && SameZones(zones, h.zones)
      && (forall z :: Booked(h.zones, z) == Booked(zones, z) + (if h.result == Reserved then Seats(groups, z) else 0)
                                            + Seats(h.lost, z))
      && (h.result == Reserved ==> h.lost == [] && (Sound(zones) ==> Sound(h.zones))
                                   && forall i :: 0 <= i < |groups| ==> groups[i].key in h.zones)
      && (DistinctKeys(groups) ==> (h.result == Reserved ==> Fits(zones, capacities, groups))
                                   && (h.result == SoldOut ==> !Fits(zones, capacities, groups)))
      && (Calm(net) && Sound(zones) ==> h.lost == [])
      && (Calm(net) && Sound(zones) && Current(capacities, zones) ==> h.result != Unreachable)
  {
    ReserveBooks(zones, net, c, capacities, [], groups);
    if ReserveUnder(zones, net, c, capacities, [], groups).result == Reserved {
      ReservedSound(zones, net, c, capacities, [], groups);
    }
    if DistinctKeys(groups) { ReserveDecides(zones, net, c, capacities, [], groups); }
    if Calm(net) && Sound(zones) {
      forall z ensures Booked(zones, z) >= Seats([], z) {}
      ReserveCalm(zones, net, c, capacities, [], groups);
    }
  }

  // ---------- the loops ----------

  /** Compensation from group i on, after `lost` was lost. */
  function UndoFrom(zones: Zones, net: nat -> Fault, c: nat, groups: seq<Group>, i: nat, lost: seq<Group>): Undone
    requires i <= |groups|
  {
    var rest := UndoUnder(zones, net, c, groups[i..]);
    rest.(lost := lost + rest.lost)
  }

  function MissedBy(zones: Zones, g: Group, fault: Fault): seq<Group> {
    if TookEffect(zones, g.key, AnyCount, -(g.quantity as int), fault) then [] else [g]
  }

  lemma UndoFirst(zones: Zones, net: nat -> Fault, c: nat, groups: seq<Group>, i: nat, lost: seq<Group>)
    requires i < |groups|
    ensures var next := AfterCall(zones, groups[i].key, AnyCount, -(groups[i].quantity as int), net(c));
      UndoFrom(zones, net, c, groups, i, lost)
      == UndoFrom(next, net, c + 1, groups, i + 1, lost + MissedBy(zones, groups[i], net(c)))
  {
    assert groups[i..][0] == groups[i] && groups[i..][1..] == groups[i + 1..];
    var next := AfterCall(zones, groups[i].key, AnyCount, -(groups[i].quantity as int), net(c));
    var rest := UndoUnder(next, net, c + 1, groups[i + 1..]);
    var missed := MissedBy(zones, groups[i], net(c));
    assert lost + (missed + rest.lost) == (lost + missed) + rest.lost;
  }

  /** What the next group of a reservation leads to. */
  lemma ReserveFirst(zones: Zones, net: nat -> Fault, c: nat, capacities: map<ZoneKey, nat>, groups: seq<Group>, i: nat)
    requires i < |groups|
    ensures var g := groups[i];
      var room := RoomIn(capacities, g);
      var here := ReserveUnder(zones, net, c, capacities, groups[..i], groups[i..]);
      var next := AfterCall(zones, g.key, room, g.quantity, net(c));
      var undone := UndoUnder(next, net, c + 1, groups[..i]);
      match ReplyOf(zones, g.key, room, g.quantity, net(c))
      case Count(n) =>
        if n > 0 then here == ReserveUnder(next, net, c + 1, capacities, groups[..i + 1], groups[i + 1..])
        else here == Reservation(undone.zones, undone.calls, SoldOut, undone.lost)
      case Raised =>
        var missed := if TookEffect(zones, g.key, room, g.quantity, net(c)) then [g] else [];
        here == Reservation(undone.zones, undone.calls, Unreachable, missed + undone.lost)
  {
    assert groups[i..][0] == groups[i] && groups[i..][1..] == groups[i + 1..]
           && groups[..i] + [groups[i]] == groups[..i + 1];
  }

  lemma SinglesFirst(zones: Zones, net: nat -> Fault, c: nat, k: ZoneKey, left: nat, given: seq<Group>)
    requires left > 0
    ensures var here := SinglesUnder(zones, net, c, k, left);
      var one := [Group(k, if TookEffect(zones, k, AtLeast(1), -1, net(c)) then 1 else 0)];
      var after := AfterCall(zones, k, AtLeast(1), -1, net(c));
      var next := SinglesUnder(after, net, c + 1, k, left - 1);
      here.(given := given + here.given)
      == if ReplyOf(zones, k, AtLeast(1), -1, net(c)) == Raised then Given(after, c + 1, given + one)
         else next.(given := (given + one) + next.given)
  {
    var one := [Group(k, if TookEffect(zones, k, AtLeast(1), -1, net(c)) then 1 else 0)];
    var next := SinglesUnder(AfterCall(zones, k, AtLeast(1), -1, net(c)), net, c + 1, k, left - 1);
    assert given + (one + next.given) == (given + one) + next.given;
  }

  lemma ReleaseFirst(zones: Zones, net: nat -> Fault, c: nat, groups: seq<Group>, i: nat, given: seq<Group>)
    requires i < |groups|
    ensures var here := ReleaseUnder(zones, net, c, groups[i..]);
      var first := ReleaseOne(zones, net, c, groups[i]);
      var next := ReleaseUnder(first.zones, net, first.calls, groups[i + 1..]);
      here.(given := given + here.given) == next.(given := (given + first.given) + next.given)
  {
    assert groups[i..][0] == groups[i] && groups[i..][1..] == groups[i + 1..];
    var first := ReleaseOne(zones, net, c, groups[i]);
    var next := ReleaseUnder(first.zones, net, first.calls, groups[i + 1..]);
    assert given + (first.given + next.given) == (given + first.given) + next.given;
  }

  lemma UndoFacts(zones: Zones, net: nat -> Fault, c: nat, reserved: seq<Group>)
    ensures var u := UndoUnder(zones, net, c, reserved);
      && SameZones(zones, u.zones)
      && (forall z :: Booked(u.zones, z) == Booked(zones, z) - Seats(reserved, z) + Seats(u.lost, z))
      && (Calm(net) && ReservedHere(zones, reserved) ==> u.lost == [])
  {
    UndoBooks(zones, net, c, reserved);
    if Calm(net) && ReservedHere(zones, reserved) { UndoCalm(zones, net, c, reserved); }
  }

  class Events {
    var zones: Zones
    var calls: nat
    const net: nat -> Fault

    constructor (zones: Zones, net: nat -> Fault)
      ensures this.zones == zones && this.net == net && calls == 0
    {
      this.zones, this.net, this.calls := zones, net, 0;
    }

    ghost predicate Reliable() { Calm(net) }

    method UpdateOne(k: ZoneKey, guard: Guard, delta: int) returns (reply: Reply)
      modifies this
      ensures calls == old(calls) + 1
      ensures zones == AfterCall(old(zones), k, guard, delta, net(old(calls)))
      ensures reply == ReplyOf(old(zones), k, guard, delta, net(old(calls)))
    {
      var fault := net(calls);
      calls := calls + 1;
      if fault == Fault.Failed {
        return Raised;
      }
      var update := Attempt(zones, k, guard, delta);
      match update {
        case Modified(next) => zones := next; reply := Count(1);
        case NotMatched => reply := Count(0);
        case Rejected => reply := Raised;
      }
      if fault == Unreported {
        reply := Raised;
      }
    }

    /** The loop of `_release_reservations`: failures are logged, never raised. */
    method UndoEach(reserved: seq<Group>) returns (ghost lost: seq<Group>)
      modifies this
      ensures Undone(zones, calls, lost) == UndoUnder(old(zones), net, old(calls), reserved)
    {
      lost := [];
      ghost var all := UndoUnder(zones, net, calls, reserved);
      assert reserved[0..] == reserved;
      for i := 0 to |reserved|
        invariant UndoFrom(zones, net, calls, reserved, i, lost) == all
      {
        UndoFirst(zones, net, calls, reserved, i, lost);
        lost := lost + MissedBy(zones, reserved[i], net(calls));
        var reply := UpdateOne(reserved[i].key, AnyCount, -(reserved[i].quantity as int));
      }
    }

    /** Give back reservations of an order that never reached PostgreSQL. `lost` is what stays counted although no
      ticket exists for it. */
    method ReleaseReservations(reserved: seq<Group>) returns (ghost lost: seq<Group>)
      modifies this
      ensures Undone(zones, calls, lost) == UndoUnder(old(zones), net, old(calls), reserved)
      ensures SameZones(old(zones), zones)
      ensures forall z :: Booked(zones, z) == Booked(old(zones), z) - Seats(reserved, z) + Seats(lost, z)
      ensures Reliable() && ReservedHere(old(zones), reserved) ==> lost == []
    {
      UndoFacts(zones, net, calls, reserved);
      lost := UndoEach(reserved);
    }

    /** The loop of step 3: one conditional update a zone for the whole quantity; the first that does not modify its
      zone ends it, and everything taken is given back. */
    method TryReserve(groups: seq<Group>, capacities: map<ZoneKey, nat>)
      returns (result: ReserveResult, ghost lost: seq<Group>)
      requires forall i :: 0 <= i < |groups| ==> groups[i].key in capacities
      modifies this
      ensures Reservation(zones, calls, result, lost)
              == ReserveUnder(old(zones), net, old(calls), capacities, [], groups)
    {
      ghost var all := ReserveUnder(zones, net, calls, capacities, [], groups);
      assert groups[0..] == groups && groups[..0] == [];
      for i := 0 to |groups|
        invariant ReserveUnder(zones, net, calls, capacities, groups[..i], groups[i..]) == all
      {
        var g := groups[i];
        ReserveFirst(zones, net, calls, capacities, groups, i);
        ghost var missed := if TookEffect(zones, g.key, RoomIn(capacities, g), g.quantity, net(calls)) then [g] else [];
        assert RoomIn(capacities, g) == AtMost(capacities[g.key] - g.quantity);
        var reply := UpdateOne(g.key, AtMost(capacities[g.key] - g.quantity), g.quantity);
        if reply == Count(0) {
          lost := UndoEach(groups[..i]);
          return SoldOut, lost;
        }
        if reply == Raised {
          lost := UndoEach(groups[..i]);
          return Unreachable, missed + lost;
        }
      }
      result, lost := Reserved, [];
    }

    /** Step 3 of a booking, all or nothing. The capacities are the ones read with the prices. `lost` counts seats that
      a fault left reserved. */
    method ReserveOrUndo(groups: seq<Group>, capacities: map<ZoneKey, nat>)
      returns (result: ReserveResult, ghost lost: seq<Group>)
      requires forall i :: 0 <= i < |groups| ==> groups[i].key in capacities
      modifies this
      ensures Reservation(zones, calls, result, lost)
              == ReserveUnder(old(zones), net, old(calls), capacities, [], groups)
      ensures SameZones(old(zones), zones)
      ensures forall z :: Booked(zones, z) ==
                          Booked(old(zones), z) + (if result == Reserved then Seats(groups, z) else 0) + Seats(lost, z)
      ensures result == Reserved ==> forall i :: 0 <= i < |groups| ==> groups[i].key in zones
      ensures result == Reserved ==> lost == [] && (Sound(old(zones)) ==> Sound(zones))
      ensures DistinctKeys(groups) ==> (result == Reserved ==> Fits(old(zones), capacities, groups))
      ensures DistinctKeys(groups) ==> (result == SoldOut ==> !Fits(old(zones), capacities, groups))
      ensures Reliable() && Sound(old(zones)) ==> lost == []
      ensures Reliable() && Sound(old(zones)) && Current(capacities, old(zones)) ==> result != Unreachable
    {
      ReserveFacts(zones, net, calls, capacities, groups);
      result, lost := TryReserve(groups, capacities);
    }

    /** Give back the seats of committed expiries: guarded by `booked_count >= quantity`, else seat by seat while
      the counter is positive. `given` is what really went back. */
    method ReleaseCountedSeats(groups: seq<Group>) returns (ghost given: seq<Group>)
      modifies this
      ensures Given(zones, calls, given) == ReleaseUnder(old(zones), net, old(calls), groups)
      ensures zones == ReturnAll(old(zones), given) && forall z :: 0 <= Seats(given, z) <= Seats(groups, z)
      ensures Reliable() ==> zones == ReturnAll(old(zones), groups)
      ensures GivenBack(old(zones), groups, zones)
    {
      given := [];
      ghost var all := ReleaseUnder(zones, net, calls, groups);
      assert groups[0..] == groups;
      for i := 0 to |groups|
        invariant var rest := ReleaseUnder(zones, net, calls, groups[i..]); rest.(given := given + rest.given) == all
      {
        ReleaseFirst(zones, net, calls, groups, i, given);
        ghost var more := ReleaseGroup(groups[i]);
        given := given + more;
      }
      ReleaseBooks(old(zones), net, old(calls), groups);
      ReleaseBounds(old(zones), net, old(calls), groups);
    }

    method ReleaseGroup(g: Group) returns (ghost given: seq<Group>)
      modifies this
      ensures Given(zones, calls, given) == ReleaseOne(old(zones), net, old(calls), g)
      ensures zones == ReturnAll(old(zones), given) && forall z :: 0 <= Seats(given, z) <= QuantityAt(z)(g)
      ensures Reliable() ==> zones == Return(old(zones), g)
    {
      ReleaseOneBooks(zones, net, calls, g);
      if Reliable() { ReleaseOneCalm(zones, net, calls, g); }
      given := if TookEffect(zones, g.key, AtLeast(g.quantity), -(g.quantity as int), net(calls)) then [g] else [];
      var reply := UpdateOne(g.key, AtLeast(g.quantity), -(g.quantity as int));
      if reply == Count(0) {
        given := ReleaseSingles(g.key, g.quantity);
      }
    }

    /** One seat at a time while the counter is positive, until a call fails. */
    method ReleaseSingles(k: ZoneKey, quantity: nat) returns (ghost given: seq<Group>)
      modifies this
      ensures Given(zones, calls, given) == SinglesUnder(old(zones), net, old(calls), k, quantity)
    {
      given := [];
      ghost var all := SinglesUnder(zones, net, calls, k, quantity);
      for j := 0 to quantity
        invariant var rest := SinglesUnder(zones, net, calls, k, quantity - j);
                  rest.(given := given + rest.given) == all
      {
        SinglesFirst(zones, net, calls, k, quantity - j, given);
        given := given + [Group(k, if TookEffect(zones, k, AtLeast(1), -1, net(calls)) then 1 else 0)];
        var reply := UpdateOne(k, AtLeast(1), -1);
        if reply == Raised {
          return;
        }
      }
    }
  }
}
