/** The services and the sweep batch are runs of the protocol, under every pattern of faults: each loop, executed alone,
  takes the protocol's steps one by one and ends where the method ends. */
module Refinement {
  import opened Store
  import opened Inventory
  import opened Reservations
  import opened Booking
  import opened Protocol
  import opened Safety
  import opened Services
  import opened Sweeper

  lemma {:induction false} RunConcat(s: State, a: seq<Action>, m: State, b: seq<Action>, t: State)
    requires Run(s, a, m) && Run(m, b, t)
    ensures Run(s, a + b, t)
    decreases |a|
  {
    if a == [] {
      assert a + b == b;
    } else {
      assert (a + b)[0] == a[0] && (a + b)[1..] == a[1..] + b;
      RunConcat(Step(s, a[0]), a[1..], m, b, t);
    }
  }

  lemma RunThen(s: State, a: Action, rest: seq<Action>, t: State)
    requires Enabled(s, a) && Run(Step(s, a), rest, t)
    ensures Run(s, [a] + rest, t)
  {
    assert ([a] + rest)[1..] == rest;
  }

  lemma RunOne(s: State, a: Action)
    requires Enabled(s, a)
    ensures Run(s, [a], Step(s, a))
  {
    assert [a][1..] == [];
  }

  lemma RunThenOne(s: State, actions: seq<Action>, m: State, a: Action)
    requires Run(s, actions, m) && Enabled(m, a)
    ensures Run(s, actions + [a], Step(m, a))
  {
    RunOne(m, a);
    RunConcat(s, actions, m, [a], Step(m, a));
  }

  /** Two replacements of one process are the last one. */
  lemma ReplaceTwice(procs: seq<Proc>, p: nat, a: Proc, b: Proc)
    requires p < |procs|
    ensures procs[p := a][p := b] == procs[p := b]
  {}

  // ---------- compensation ----------

  /** The counters and the seats written off are as given, and process p is q. */
  function Left(s: State, p: nat, zones: Zones, lost: seq<Group>, q: Proc): State
    requires p < |s.procs|
  {
    With(s.(zones := zones, lost := s.lost + lost), p, q)
  }

  lemma LeftTwice(s: State, p: nat, a: Zones, lostA: seq<Group>, q: Proc, b: Zones, lostB: seq<Group>, r: Proc)
    requires p < |s.procs|
    ensures Left(Left(s, p, a, lostA, q), p, b, lostB, r) == Left(s, p, b, lostA + lostB, r)
  {
    ReplaceTwice(s.procs, p, q, r);
    assert (s.lost + lostA) + lostB == s.lost + (lostA + lostB);
  }

  lemma LeftAlone(s: State, p: nat)
    requires p < |s.procs|
    ensures Left(s, p, s.zones, [], s.procs[p]) == s
  {
    assert s.lost + [] == s.lost && s.procs[p := s.procs[p]] == s.procs;
  }

  lemma UndoIs(s: State, p: nat, fault: Fault)
    requires p < |s.procs| && s.procs[p].Undoing? && s.procs[p].owed != []
    ensures var q := s.procs[p];
      var g := q.owed[0];
      Step(s, Undo(p, fault)) == Left(s, p, AfterCall(s.zones, g.key, AnyCount, -(g.quantity as int), fault),
                                      MissedBy(s.zones, g, fault), Undoing(q.owed[1..], q.end, q.recheck))
  {}

  /** The compensation loop. */
  lemma {:induction false} UndoRuns(s: State, p: nat, net: nat -> Fault, c: nat)
    returns (actions: seq<Action>, t: State)
    requires p < |s.procs| && s.procs[p].Undoing?
    ensures Run(s, actions, t)
    ensures var q := s.procs[p];
      var u := UndoUnder(s.zones, net, c, q.owed);
      t == Left(s, p, u.zones, u.lost, Undoing([], q.end, q.recheck))
    decreases |s.procs[p].owed|
  {
    var q := s.procs[p];
    if q.owed == [] {
      actions, t := [], s;
      LeftAlone(s, p);
    } else {
      UndoGoesOn(s, p, net, c);
      actions, t := UndoRuns(Step(s, Undo(p, net(c))), p, net, c + 1);
      RunThen(s, Undo(p, net(c)), actions, t);
      actions := [Undo(p, net(c))] + actions;
    }
  }

  lemma UndoGoesOn(s: State, p: nat, net: nat -> Fault, c: nat)
    requires p < |s.procs| && s.procs[p].Undoing? && s.procs[p].owed != []
    ensures var q, m := s.procs[p], Step(s, Undo(p, net(c)));
      var all, rest := UndoUnder(s.zones, net, c, q.owed), UndoUnder(m.zones, net, c + 1, q.owed[1..]);
      var end := Undoing([], q.end, q.recheck);
      && p < |m.procs| && m.procs[p] == Undoing(q.owed[1..], q.end, q.recheck)
      && Left(m, p, rest.zones, rest.lost, end) == Left(s, p, all.zones, all.lost, end)
  {
    var q := s.procs[p];
    var g := q.owed[0];
    var m := Step(s, Undo(p, net(c)));
    UndoIs(s, p, net(c));
    var u := UndoUnder(m.zones, net, c + 1, q.owed[1..]);
    LeftTwice(s, p, m.zones, MissedBy(s.zones, g, net(c)), m.procs[p], u.zones, u.lost, Undoing([], q.end, q.recheck));
  }

  /** Compensation, and the answer. */
  lemma UndoEnds(s: State, p: nat, net: nat -> Fault, c: nat) returns (actions: seq<Action>)
    requires p < |s.procs| && s.procs[p].Undoing?
    requires s.procs[p].recheck.Some? ==> FindKey(s.db.orders, s.procs[p].recheck.value).None?
    ensures var u := UndoUnder(s.zones, net, c, s.procs[p].owed);
      Run(s, actions, Left(s, p, u.zones, u.lost, Finished(s.procs[p].end)))
  {
    var q := s.procs[p];
    var t;
    actions, t := UndoRuns(s, p, net, c);
    RunThenOne(s, actions, t, Settle(p));
    actions := actions + [Settle(p)];
    ReplaceTwice(s.procs, p, t.procs[p], Finished(q.end));
  }

  // ---------- reservation ----------

  lemma SameCapacities(a: Zones, b: Zones)
    requires SameZones(a, b)
    ensures Capacities(a) == Capacities(b)
  {
    assert Capacities(a).Keys == Capacities(b).Keys;
  }

  /** Where the reservation loop leaves the process. */
  function AfterReserve(q: Proc, result: ReserveResult): Proc
    requires q.Reserving?
  {
    match result
    case Reserved => Reserving(q.req, q.lines, q.taken + q.todo, [])
    case SoldOut => Finished(NoSeatsLeft)
    case Unreachable => Finished(Unavailable)
  }

  function FirstReply(s: State, p: nat, fault: Fault): Reply
    requires Enabled(s, Reserve(p, fault))
  {
    var g := s.procs[p].todo[0];
    ReplyOf(s.zones, g.key, RoomFor(s.zones, g), g.quantity, fault)
  }

  /** The reservation loop, and the answer if it did not get every zone. */
  lemma {:induction false} ReserveRuns(s: State, p: nat, net: nat -> Fault, c: nat) returns (actions: seq<Action>)
    requires p < |s.procs| && s.procs[p].Reserving?
    ensures var q := s.procs[p];
      var h := ReserveUnder(s.zones, net, c, Capacities(s.zones), q.taken, q.todo);
      Run(s, actions, Left(s, p, h.zones, h.lost, AfterReserve(q, h.result)))
    decreases |s.procs[p].todo|
  {
    var q := s.procs[p];
    if q.todo == [] {
      actions := [];
      LeftAlone(s, p);
      assert q.taken + [] == q.taken;
      return;
    }
    var m := Step(s, Reserve(p, net(c)));
    var rest;
    if FirstReply(s, p, net(c)) == Count(1) {
      ReserveGoesOn(s, p, net, c);
      rest := ReserveRuns(m, p, net, c + 1);
    } else {
      ReserveStops(s, p, net, c);
      rest := UndoEnds(m, p, net, c + 1);
    }
    var h := ReserveUnder(s.zones, net, c, Capacities(s.zones), q.taken, q.todo);
    RunThen(s, Reserve(p, net(c)), rest, Left(s, p, h.zones, h.lost, AfterReserve(q, h.result)));
    actions := [Reserve(p, net(c))] + rest;
  }

  lemma ReserveGoesOn(s: State, p: nat, net: nat -> Fault, c: nat)
    requires Enabled(s, Reserve(p, net(c)))
    requires FirstReply(s, p, net(c)) == Count(1)
    ensures var m := Step(s, Reserve(p, net(c)));
      var q, r := s.procs[p], m.procs[p];
      && r == Reserving(q.req, q.lines, q.taken + [q.todo[0]], q.todo[1..])
      && var h := ReserveUnder(s.zones, net, c, Capacities(s.zones), q.taken, q.todo);
         && h == ReserveUnder(m.zones, net, c + 1, Capacities(m.zones), r.taken, r.todo)
         && Left(m, p, h.zones, h.lost, AfterReserve(r, h.result))
            == Left(s, p, h.zones, h.lost, AfterReserve(q, h.result))
  {
    var q := s.procs[p];
    var g := q.todo[0];
    var m := Step(s, Reserve(p, net(c)));
    CallEffect(s.zones, g.key, RoomFor(s.zones, g), g.quantity, net(c));
    SameCapacities(s.zones, m.zones);
    assert (q.taken + [g]) + q.todo[1..] == q.taken + q.todo;
    var h := ReserveUnder(s.zones, net, c, Capacities(s.zones), q.taken, q.todo);
    ReplaceTwice(s.procs, p, m.procs[p], AfterReserve(q, h.result));
  }

  lemma ReserveStops(s: State, p: nat, net: nat -> Fault, c: nat)
    requires Enabled(s, Reserve(p, net(c)))
    requires FirstReply(s, p, net(c)) != Count(1)
    ensures var m := Step(s, Reserve(p, net(c)));
      var q, r := s.procs[p], m.procs[p];
      && r.Undoing? && r.owed == q.taken && r.recheck.None?
      && var h := ReserveUnder(s.zones, net, c, Capacities(s.zones), q.taken, q.todo);
         var u := UndoUnder(m.zones, net, c + 1, r.owed);
         && h.result != Reserved
         && Left(m, p, u.zones, u.lost, Finished(r.end)) == Left(s, p, h.zones, h.lost, AfterReserve(q, h.result))
  {
    var q := s.procs[p];
    var g := q.todo[0];
    var m := Step(s, Reserve(p, net(c)));
    var room := RoomFor(s.zones, g);
    var reply := ReplyOf(s.zones, g.key, room, g.quantity, net(c));
    var missed := if reply == Raised && TookEffect(s.zones, g.key, room, g.quantity, net(c)) then [g] else [];
    var u := UndoUnder(m.zones, net, c + 1, q.taken);
    assert s.lost + [] == s.lost && [] + u.lost == u.lost;
    assert m == Left(s, p, m.zones, missed, m.procs[p]);
    LeftTwice(s, p, m.zones, missed, m.procs[p], u.zones, u.lost, Finished(m.procs[p].end));
  }

  // ---------- booking ----------

  /** The request has ended like this. */
  function Ended(s: State, p: nat, e: Ending): State
    requires p < |s.procs|
  {
    Left(s.(db := e.db), p, e.zones, e.lost, Finished(e.outcome))
  }

  /** From the validated lines on. */
  lemma LinesRuns(s: State, p: nat, now: int, net: nat -> Fault, c: nat, up: bool) returns (actions: seq<Action>)
    requires p < |s.procs| && s.procs[p].Reserving? && s.procs[p].taken == []
    requires s.procs[p].todo == GroupKeys(LineKeys(s.procs[p].lines))
    requires KeyUnused(s.db, s.procs[p].req)
    ensures var q := s.procs[p];
      var e := LinesResult(Capacities(s.zones), s.users, s.zones, s.db, q.req, q.lines, now, net, c, up);
      Run(s, actions, Ended(s, p, e))
  {
    var q := s.procs[p];
    var h := ReserveUnder(s.zones, net, c, Capacities(s.zones), [], q.todo);
    actions := ReserveRuns(s, p, net, c);
    assert s.(db := s.db) == s;
    if h.result == Reserved {
      var m := Left(s, p, h.zones, h.lost, Reserving(q.req, q.lines, q.todo, []));
      assert [] + q.todo == q.todo;
      ReserveBooks(s.zones, net, c, Capacities(s.zones), [], q.todo);
      var rest := WriteRuns(m, p, now, net, h.calls, up);
      var e := LinesResult(Capacities(s.zones), s.users, s.zones, s.db, q.req, q.lines, now, net, c, up);
      WriteEnds(s, p, h.zones, m, e);
      RunConcat(s, actions, m, rest, Ended(s, p, e));
      actions := actions + rest;
    }
  }

  lemma WriteEnds(s: State, p: nat, zones: Zones, m: State, e: Ending)
    requires p < |s.procs| && |m.procs| == |s.procs| && m == Left(s, p, zones, [], m.procs[p])
    ensures Ended(m, p, e) == Ended(s, p, e)
  {
    ReplaceTwice(s.procs, p, m.procs[p], Finished(e.outcome));
    assert s.lost + [] == s.lost;
  }

  /** The PostgreSQL transaction after the reservation, or giving the seats back. */
  function WriteResult(s: State, q: Proc, now: int, net: nat -> Fault, c: nat, up: bool): Ending
    requires q.Reserving?
  {
    var undone := UndoUnder(s.zones, net, c, q.taken);
    if !up then Ending(s.db, undone.zones, undone.calls, Unavailable, undone.lost)
    else
      match InsertOrder(s.db, s.users, q.req.user, q.req.key, q.lines, now)
      case Ok(after) => Ending(after, s.zones, c, Placed(|s.db.orders|), [])
      case Err(v) => Ending(s.db, undone.zones, undone.calls, Refusal(v), undone.lost)
  }

  lemma WriteRuns(s: State, p: nat, now: int, net: nat -> Fault, c: nat, up: bool) returns (actions: seq<Action>)
    requires p < |s.procs| && s.procs[p].Reserving? && s.procs[p].todo == []
    requires KeyUnused(s.db, s.procs[p].req)
    ensures Run(s, actions, Ended(s, p, WriteResult(s, s.procs[p], now, net, c, up)))
  {
    var q := s.procs[p];
    var a := if up then Write(p, now) else Abort(p);
    var m := Step(s, a);
    if up && InsertOrder(s.db, s.users, q.req.user, q.req.key, q.lines, now).Ok? {
      RunOne(s, a);
      actions := [a];
      assert s.lost + [] == s.lost;
    } else {
      var rest := UndoEnds(m, p, net, c);
      var e := WriteResult(s, q, now, net, c, up);
      ReplaceTwice(s.procs, p, m.procs[p], Finished(e.outcome));
      RunThen(s, a, rest, Ended(s, p, e));
      actions := [a] + rest;
    }
  }

  /** A request that a key lookup or the validation answers. */
  lemma LookupAnswers(s: State, p: nat, now: int, net: nat -> Fault, c: nat, up: bool)
    requires p < |s.procs| && s.procs[p].Asked? && !Step(s, Lookup(p)).procs[p].Reserving?
    ensures Step(s, Lookup(p))
         == Ended(s, p, BookResult(s.catalog, s.users, s.zones, s.db, s.procs[p].req, now, net, c, up))
  {
    assert s.lost + [] == s.lost;
  }

  /** A request that goes on to reserve seats. */
  lemma LookupGoesOn(s: State, p: nat)
    requires p < |s.procs| && s.procs[p].Asked? && Step(s, Lookup(p)).procs[p].Reserving?
    ensures var req, m := s.procs[p].req, Step(s, Lookup(p));
      var q := m.procs[p];
      && m == With(s, p, q) && q.req == req && q.taken == [] && q.todo == GroupKeys(LineKeys(q.lines))
      && KeyUnused(s.db, req)
      && ValidateAll(s.catalog, req.items).Ok? && q.lines == SortLines(ValidateAll(s.catalog, req.items).value)
  {}

  lemma BookOfLines(s: State, req: Request, now: int, net: nat -> Fault, c: nat, up: bool)
    requires CatalogOk(s.catalog, s.zones) && ValidateAll(s.catalog, req.items).Ok?
    requires KeyUnused(s.db, req)
    ensures BookResult(s.catalog, s.users, s.zones, s.db, req, now, net, c, up)
         == LinesResult(Capacities(s.zones), s.users, s.zones, s.db, req,
                        SortLines(ValidateAll(s.catalog, req.items).value), now, net, c, up)
  {
    ReservesAsRead(s, req.items, SortLines(ValidateAll(s.catalog, req.items).value), net, c);
  }

  lemma EndedAfter(s: State, p: nat, q: Proc, e: Ending)
    requires p < |s.procs|
    ensures Ended(With(s, p, q), p, e) == Ended(s, p, e)
  {
    ReplaceTwice(s.procs, p, q, Finished(e.outcome));
  }

  /** Every booking under any faults is a run of one booking process. */
  lemma BookingRuns(s: State, p: nat, now: int, net: nat -> Fault, c: nat, up: bool) returns (actions: seq<Action>)
    requires CatalogOk(s.catalog, s.zones) && p < |s.procs| && s.procs[p].Asked?
    ensures Run(s, actions, Ended(s, p, BookResult(s.catalog, s.users, s.zones, s.db, s.procs[p].req, now, net, c, up)))
  {
    var e := BookResult(s.catalog, s.users, s.zones, s.db, s.procs[p].req, now, net, c, up);
    var m := Step(s, Lookup(p));
    if m.procs[p].Reserving? {
      LookupGoesOn(s, p);
      BookOfLines(s, s.procs[p].req, now, net, c, up);
      actions := LinesRuns(m, p, now, net, c, up);
      EndedAfter(s, p, m.procs[p], e);
      RunThen(s, Lookup(p), actions, Ended(s, p, e));
      actions := [Lookup(p)] + actions;
    } else {
      LookupAnswers(s, p, now, net, c, up);
      RunOne(s, Lookup(p));
      actions := [Lookup(p)];
    }
  }

  /** Reserving with the capacities that were read is reserving with those of the documents. */
  lemma ReservesAsRead(s: State, items: seq<Item>, lines: seq<Line>, net: nat -> Fault, c: nat)
    requires CatalogOk(s.catalog, s.zones) && ValidateAll(s.catalog, items).Ok?
    requires lines == SortLines(ValidateAll(s.catalog, items).value)
    ensures ReserveUnder(s.zones, net, c, CapacitiesRead(s.catalog, items), [], GroupKeys(LineKeys(lines)))
         == ReserveUnder(s.zones, net, c, Capacities(s.zones), [], GroupKeys(LineKeys(lines)))
  {
    CapacitiesKnown(s.catalog, items, lines);
    CapacitiesCurrent(s.catalog, s.zones, items);
    SameRoom(s.zones, net, c, CapacitiesRead(s.catalog, items), Capacities(s.zones), [], GroupKeys(LineKeys(lines)));
  }

  // ---------- release ----------

  /** Seats went back, some perhaps did not, and process p is q. */
  function GaveBack(s: State, p: nat, r: Given, unreleased: seq<Group>, q: Proc): State
    requires p < |s.procs|
  {
    With(s.(zones := r.zones, returned := s.returned + r.given, unreleased := unreleased), p, q)
  }

  lemma GaveBackTwice(s: State, p: nat, a: Given, keptA: seq<Group>, q: Proc, b: Given, keptB: seq<Group>, r: Proc)
    requires p < |s.procs|
    ensures GaveBack(GaveBack(s, p, a, keptA, q), p, b, keptB, r)
            == GaveBack(s, p, b.(given := a.given + b.given), keptB, r)
  {
    ReplaceTwice(s.procs, p, q, r);
    assert (s.returned + a.given) + b.given == s.returned + (a.given + b.given);
  }

  lemma GaveBackNothing(s: State, p: nat, c: nat)
    requires p < |s.procs|
    ensures GaveBack(s, p, Given(s.zones, c, []), s.unreleased, s.procs[p]) == s
  {
    assert s.returned + [] == s.returned && s.procs[p := s.procs[p]] == s.procs;
  }

  /** The fallback loop. */
  lemma {:induction false} SinglesRuns(s: State, p: nat, net: nat -> Fault, c: nat)
    returns (actions: seq<Action>, t: State)
    requires p < |s.procs| && s.procs[p].ReleasingOne?
    ensures Run(s, actions, t)
    ensures var q := s.procs[p];
      t == GaveBack(s, p, SinglesUnder(s.zones, net, c, q.key, q.left), t.unreleased, Releasing(q.owed, q.end))
    decreases s.procs[p].left
  {
    if s.procs[p].left == 0 {
      RunOne(s, Release(p, Fine));
      actions, t := [Release(p, Fine)], Step(s, Release(p, Fine));
      assert s.returned + [] == s.returned;
    } else {
      var m := Step(s, Release(p, net(c)));
      SinglesGoOn(s, p, net, c);
      if m.procs[p].Releasing? {
        RunOne(s, Release(p, net(c)));
        actions, t := [Release(p, net(c))], m;
      } else {
        actions, t := SinglesRuns(m, p, net, c + 1);
        RunThen(s, Release(p, net(c)), actions, t);
        actions := [Release(p, net(c))] + actions;
        SinglesCompose(s, p, net, c, t.unreleased);
      }
    }
  }

  lemma SinglesGoOn(s: State, p: nat, net: nat -> Fault, c: nat)
    requires p < |s.procs| && s.procs[p].ReleasingOne? && s.procs[p].left > 0
    ensures var q, m := s.procs[p], Step(s, Release(p, net(c)));
      var one := if TookEffect(s.zones, q.key, AtLeast(1), -1, net(c)) then 1 else 0;
      var first := Given(m.zones, c + 1, [Group(q.key, one)]);
      && m == GaveBack(s, p, first, m.unreleased, m.procs[p])
      && if ReplyOf(s.zones, q.key, AtLeast(1), -1, net(c)) == Raised
         then m.procs[p] == Releasing(q.owed, q.end) && SinglesUnder(s.zones, net, c, q.key, q.left) == first
         else m.procs[p] == ReleasingOne(q.key, q.left - 1, q.owed, q.end)
  {}

  lemma SinglesCompose(s: State, p: nat, net: nat -> Fault, c: nat, kept: seq<Group>)
    requires p < |s.procs| && s.procs[p].ReleasingOne? && s.procs[p].left > 0
    requires Step(s, Release(p, net(c))).procs[p].ReleasingOne?
    ensures var q, m := s.procs[p], Step(s, Release(p, net(c)));
      var end := Releasing(q.owed, q.end);
      GaveBack(m, p, SinglesUnder(m.zones, net, c + 1, q.key, q.left - 1), kept, end)
      == GaveBack(s, p, SinglesUnder(s.zones, net, c, q.key, q.left), kept, end)
  {
    var q, m := s.procs[p], Step(s, Release(p, net(c)));
    SinglesGoOn(s, p, net, c);
    var one := if TookEffect(s.zones, q.key, AtLeast(1), -1, net(c)) then 1 else 0;
    var first := Given(m.zones, c + 1, [Group(q.key, one)]);
    GaveBackTwice(s, p, first, m.unreleased, m.procs[p], SinglesUnder(m.zones, net, c + 1, q.key, q.left - 1), kept,
                  Releasing(q.owed, q.end));
  }

  /** The release of the first group. */
  lemma ReleaseOneRuns(s: State, p: nat, net: nat -> Fault, c: nat) returns (actions: seq<Action>, t: State)
    requires p < |s.procs| && s.procs[p].Releasing? && s.procs[p].owed != []
    ensures Run(s, actions, t)
    ensures var q := s.procs[p];
      t == GaveBack(s, p, ReleaseOne(s.zones, net, c, q.owed[0]), t.unreleased, Releasing(q.owed[1..], q.end))
  {
    var q := s.procs[p];
    var m := Step(s, Release(p, net(c)));
    if m.procs[p].Releasing? {
      RunOne(s, Release(p, net(c)));
      actions, t := [Release(p, net(c))], m;
      assert s.returned + [] == s.returned;
    } else {
      var rest;
      rest, t := SinglesRuns(m, p, net, c + 1);
      RunThen(s, Release(p, net(c)), rest, t);
      actions := [Release(p, net(c))] + rest;
      assert s.returned + [] == s.returned;
      assert m == GaveBack(s, p, Given(m.zones, c + 1, []), m.unreleased, m.procs[p]);
      var singles := SinglesUnder(m.zones, net, c + 1, q.owed[0].key, q.owed[0].quantity);
      assert [] + singles.given == singles.given;
      GaveBackTwice(s, p, Given(m.zones, c + 1, []), m.unreleased, m.procs[p], singles, t.unreleased,
                    Releasing(q.owed[1..], q.end));
    }
  }

  /** The release loop. */
  lemma {:induction false} ReleaseRuns(s: State, p: nat, net: nat -> Fault, c: nat)
    returns (actions: seq<Action>, t: State)
    requires p < |s.procs| && s.procs[p].Releasing?
    ensures Run(s, actions, t)
    ensures var q := s.procs[p];
      t == GaveBack(s, p, ReleaseUnder(s.zones, net, c, q.owed), t.unreleased, Releasing([], q.end))
    decreases |s.procs[p].owed|
  {
    var q := s.procs[p];
    if q.owed == [] {
      actions, t := [], s;
      GaveBackNothing(s, p, c);
    } else {
      var m;
      actions, m := ReleaseOneRuns(s, p, net, c);
      var first := ReleaseOne(s.zones, net, c, q.owed[0]);
      var rest;
      rest, t := ReleaseRuns(m, p, net, first.calls);
      RunConcat(s, actions, m, rest, t);
      actions := actions + rest;
      GaveBackTwice(s, p, first, m.unreleased, m.procs[p], ReleaseUnder(first.zones, net, first.calls, q.owed[1..]),
                    t.unreleased, Releasing([], q.end));
    }
  }

  lemma ReleaseEnds(s: State, p: nat, net: nat -> Fault, c: nat) returns (actions: seq<Action>, t: State)
    requires p < |s.procs| && s.procs[p].Releasing?
    ensures Run(s, actions, t)
    ensures t == GaveBack(s, p, ReleaseUnder(s.zones, net, c, s.procs[p].owed), t.unreleased, Finished(s.procs[p].end))
  {
    var q := s.procs[p];
    var m;
    actions, m := ReleaseRuns(s, p, net, c);
    t := Step(m, Settle(p));
    RunThenOne(s, actions, m, Settle(p));
    actions := actions + [Settle(p)];
    ReplaceTwice(s.procs, p, m.procs[p], Finished(q.end));
  }

  // ---------- payment and sweep ----------

  /** Where the databases and the process are. */
  predicate EndsIn(t: State, s: State, p: nat, db: Postgres, zones: Zones, outcome: Outcome)
    requires p < |s.procs|
  {
    t.db == db && t.zones == zones && t.lost == s.lost && t.procs == s.procs[p := Finished(outcome)]
  }

  /** A payment under any faults is a run of one payment process. */
  lemma PaymentRuns(s: State, p: nat, now: int, net: nat -> Fault, c: nat, up: bool)
    returns (actions: seq<Action>, t: State)
    requires p < |s.procs| && s.procs[p].Paying? && !RowLocked(s.procs, s.procs[p].order)
    ensures Run(s, actions, t)
    ensures var e := PayResult(s.zones, s.db, s.procs[p].order, s.procs[p].amount, now, net, c, up);
      EndsIn(t, s, p, e.db, e.zones, e.outcome)
  {
    var o := s.procs[p].order;
    if !up {
      RunOne(s, Abort(p));
      actions, t := [Abort(p)], Step(s, Abort(p));
      return;
    }
    var m := Step(s, Lock(p));
    if o >= |s.db.orders| {
      RunOne(s, Lock(p));
      actions, t := [Lock(p)], m;
      return;
    }
    var rest;
    rest, t := LockedPaymentRuns(m, p, now, net, c);
    RunThen(s, Lock(p), rest, t);
    actions := [Lock(p)] + rest;
    ReplaceTwice(s.procs, p, m.procs[p], t.procs[p]);
  }

  /** A locked payment that ends in its transaction. */
  lemma PayAnswers(s: State, p: nat, now: int, net: nat -> Fault, c: nat)
    requires p < |s.procs| && s.procs[p].PayLocked? && s.procs[p].order < |s.db.orders|
    requires s.procs[p].row == s.db.orders[s.procs[p].order] && !Step(s, Pay(p, now)).procs[p].Releasing?
    ensures var e := PayResult(s.zones, s.db, s.procs[p].order, s.procs[p].amount, now, net, c, true);
      EndsIn(Step(s, Pay(p, now)), s, p, e.db, e.zones, e.outcome)
  {
    if s.procs[p].row.status == Pending { PendingAnswers(s, p, now, net, c); }
  }

  lemma PendingAnswers(s: State, p: nat, now: int, net: nat -> Fault, c: nat)
    requires p < |s.procs| && s.procs[p].PayLocked? && s.procs[p].order < |s.db.orders|
    requires s.procs[p].row == s.db.orders[s.procs[p].order] && !Overdue(s.procs[p].row, now)
    requires s.procs[p].row.status == Pending
    ensures var e := PayResult(s.zones, s.db, s.procs[p].order, s.procs[p].amount, now, net, c, true);
      EndsIn(Step(s, Pay(p, now)), s, p, e.db, e.zones, e.outcome)
  {}

  /** A locked payment that finds its hold overdue. */
  lemma PayExpires(s: State, p: nat, now: int, net: nat -> Fault, c: nat)
    requires p < |s.procs| && s.procs[p].PayLocked? && s.procs[p].order < |s.db.orders|
    requires s.procs[p].row == s.db.orders[s.procs[p].order] && Step(s, Pay(p, now)).procs[p].Releasing?
    ensures var m, e := Step(s, Pay(p, now)), PayResult(s.zones, s.db, s.procs[p].order, s.procs[p].amount,
                                                         now, net, c, true);
      && m == With(s.(db := e.db), p, m.procs[p]) && m.procs[p].end == e.outcome
      && e.zones == ReleaseUnder(s.zones, net, c, m.procs[p].owed).zones
  {}

  lemma LockedPaymentRuns(s: State, p: nat, now: int, net: nat -> Fault, c: nat)
    returns (actions: seq<Action>, t: State)
    requires p < |s.procs| && s.procs[p].PayLocked? && s.procs[p].order < |s.db.orders|
    requires s.procs[p].row == s.db.orders[s.procs[p].order]
    ensures Run(s, actions, t)
    ensures var e := PayResult(s.zones, s.db, s.procs[p].order, s.procs[p].amount, now, net, c, true);
      EndsIn(t, s, p, e.db, e.zones, e.outcome)
  {
    var m := Step(s, Pay(p, now));
    if m.procs[p].Releasing? {
      PayExpires(s, p, now, net, c);
      actions, t := ReleaseEnds(m, p, net, c);
      RunThen(s, Pay(p, now), actions, t);
      actions := [Pay(p, now)] + actions;
      ReplaceTwice(s.procs, p, m.procs[p], t.procs[p]);
    } else {
      PayAnswers(s, p, now, net, c);
      RunOne(s, Pay(p, now));
      actions, t := [Pay(p, now)], m;
    }
  }

  /** A sweep batch under any faults is a run of one sweep process. */
  lemma SweepRuns(s: State, p: nat, tick: Tick, net: nat -> Fault, c: nat)
    returns (actions: seq<Action>, t: State)
    requires p < |s.procs| && s.procs[p].Sweeping?
    requires forall o: nat :: RowLocked(s.procs, o) ==> o in tick.locked
    ensures Run(s, actions, t)
    ensures var e := BatchUnder(s.db, s.zones, net, c, tick, s.procs[p].batch);
      EndsIn(t, s, p, e.db, e.zones, Swept(|e.ids|))
  {
    var now, locked := tick.now, tick.locked;
    var ids := Batch(s.db.orders, now, locked, s.procs[p].batch);
    var claim := Claim(p, now, ids);
    ClaimIsProtocolStep(s, p, now, locked);
    var m := Step(s, claim);
    if ids == [] {
      RunOne(s, claim);
      actions, t := [claim], m;
      ExpireNone(s.db);
      NoneHeld(s.db.tickets);
    } else {
      var n := Step(m, Sweep(p));
      var rest;
      rest, t := ReleaseEnds(n, p, net, c);
      RunThen(m, Sweep(p), rest, t);
      RunThen(s, claim, [Sweep(p)] + rest, t);
      actions := [claim] + ([Sweep(p)] + rest);
      ReplaceTwice(s.procs, p, m.procs[p], n.procs[p]);
      ReplaceTwice(s.procs, p, n.procs[p], t.procs[p]);
    }
  }

  /** The batch loop of a tick under any faults is a run of one sweep process after the other. */
  lemma {:induction false} CleanupRuns(s: State, ticks: seq<Tick>, batch: nat, net: nat -> Fault, c: nat)
    returns (actions: seq<Action>, t: State)
    requires LocksKnown(s.procs, ticks)
    ensures Run(s, actions, t)
    ensures var e := SweepUnder(s.db, s.zones, net, c, ticks, batch);
      t.db == e.db && t.zones == e.zones && t.lost == s.lost
    decreases |ticks|
  {
    if ticks == [] {
      return [], s;
    }
    var p, started := |s.procs|, Step(s, Spawn(Sweeping(batch)));
    SpawnLocks(s.procs, Sweeping(batch));
    assert ticks[0] in ticks;
    var m;
    actions, m := SweepRuns(started, p, ticks[0], net, c);
    RunThen(s, Spawn(Sweeping(batch)), actions, m);
    actions := [Spawn(Sweeping(batch))] + actions;
    t := m;
    var first := BatchUnder(s.db, s.zones, net, c, ticks[0], batch);
    if |first.ids| >= batch {
      assert m.procs == s.procs + [m.procs[p]];
      SpawnLocks(s.procs, m.procs[p]);
      assert forall tick :: tick in ticks[1..] ==> tick in ticks;
      var rest;
      rest, t := CleanupRuns(m, ticks[1..], batch, net, first.calls);
      RunConcat(s, actions, m, rest, t);
      actions := actions + rest;
    }
  }

  /** Rows that other processes hold are found locked. */
  ghost predicate LocksKnown(procs: seq<Proc>, ticks: seq<Tick>) {
    forall o: nat, tick :: tick in ticks && RowLocked(procs, o) ==> o in tick.locked
  }

  lemma SpawnLocks(procs: seq<Proc>, q: Proc)
    requires forall o: nat :: !q.Locks(o)
    ensures forall o: nat :: RowLocked(procs + [q], o) ==> RowLocked(procs, o)
  {
    forall o: nat | RowLocked(procs + [q], o) ensures RowLocked(procs, o) {
      var i :| 0 <= i < |procs + [q]| && (procs + [q])[i].Locks(o);
      assert i < |procs| && procs[i].Locks(o);
    }
  }
}
