/** The expired-hold sweeper: batches of overdue holds, and why they amount to one big sweep. */
module Sweeper {
  import opened Sums
  import opened Store
  import opened Inventory
  import opened Reservations
  import opened Protocol

  // ---------- the claim: ORDER BY expires_at, id LIMIT n FOR UPDATE SKIP LOCKED ----------

  predicate Claimable(orders: seq<Order>, now: int, locked: set<nat>, o: nat) {
    o < |orders| && Overdue(orders[o], now) && o !in locked
  }

  function Deadline(orders: seq<Order>, o: nat): int {
    if o < |orders| && orders[o].expiresAt.Some? then orders[o].expiresAt.value else 0
  }

  predicate Sooner(orders: seq<Order>, a: nat, b: nat) {
    Deadline(orders, a) < Deadline(orders, b) || (Deadline(orders, a) == Deadline(orders, b) && a < b)
  }

  /** All claimable orders, soonest deadline first, each once. */
  ghost predicate IsQueue(q: seq<nat>, orders: seq<Order>, now: int, locked: set<nat>) {
    && (forall i :: 0 <= i < |q| ==> Claimable(orders, now, locked, q[i]))
    && (forall o: nat :: Claimable(orders, now, locked, o) ==> o in q)
    && (forall i, j :: 0 <= i < j < |q| ==> Sooner(orders, q[i], q[j]))
  }

  function Enqueue(orders: seq<Order>, q: seq<nat>, o: nat): seq<nat> {
    if q == [] || Sooner(orders, o, q[0]) then [o] + q else [q[0]] + Enqueue(orders, q[1..], o)
  }

  lemma {:induction false} EnqueueSorted(orders: seq<Order>, q: seq<nat>, o: nat)
    requires o !in q && forall i, j :: 0 <= i < j < |q| ==> Sooner(orders, q[i], q[j])
    ensures var r := Enqueue(orders, q, o);
      && (forall x :: x in r <==> x in q || x == o)
      && (forall i, j :: 0 <= i < j < |r| ==> Sooner(orders, r[i], r[j]))
  {
    if q != [] && !Sooner(orders, o, q[0]) {
      var tail := q[1..];
      assert q == [q[0]] + tail;
      EnqueueSorted(orders, tail, o);
      var r, rt := Enqueue(orders, q, o), Enqueue(orders, tail, o);
      assert r == [q[0]] + rt;
      forall j | 1 <= j < |r| ensures Sooner(orders, r[0], r[j]) {
        assert r[j] == rt[j - 1] && r[j] in rt;
        if r[j] != o { var k :| 0 <= k < |tail| && tail[k] == r[j]; assert q[k + 1] == r[j]; }
      }
    }
  }

  function QueueUpTo(orders: seq<Order>, now: int, locked: set<nat>, n: nat): seq<nat> {
    if n == 0 then []
    else
      var q := QueueUpTo(orders, now, locked, n - 1);
      if Claimable(orders, now, locked, n - 1) then Enqueue(orders, q, n - 1) else q
  }

  function Queue(orders: seq<Order>, now: int, locked: set<nat>): seq<nat> { QueueUpTo(orders, now, locked, |orders|) }

  ghost predicate SortedQueue(orders: seq<Order>, q: seq<nat>) {
    forall i, j :: 0 <= i < j < |q| ==> Sooner(orders, q[i], q[j])
  }

  /** q lists the claimable orders below n. */
  ghost predicate Lists(q: seq<nat>, orders: seq<Order>, now: int, locked: set<nat>, n: nat) {
    forall o: nat :: o in q <==> o < n && Claimable(orders, now, locked, o)
  }

  lemma NextOrder(orders: seq<Order>, now: int, locked: set<nat>, q: seq<nat>, n: nat)
    requires Lists(q, orders, now, locked, n) && SortedQueue(orders, q)
    ensures !Claimable(orders, now, locked, n) ==> Lists(q, orders, now, locked, n + 1)
    ensures Claimable(orders, now, locked, n) ==>
              Lists(Enqueue(orders, q, n), orders, now, locked, n + 1) && SortedQueue(orders, Enqueue(orders, q, n))
  {
    EnqueueSorted(orders, q, n);
  }

  lemma QueueStep(orders: seq<Order>, now: int, locked: set<nat>, n: nat)
    requires Lists(QueueUpTo(orders, now, locked, n), orders, now, locked, n)
    requires SortedQueue(orders, QueueUpTo(orders, now, locked, n))
    ensures Lists(QueueUpTo(orders, now, locked, n + 1), orders, now, locked, n + 1)
    ensures SortedQueue(orders, QueueUpTo(orders, now, locked, n + 1))
  {
    NextOrder(orders, now, locked, QueueUpTo(orders, now, locked, n), n);
  }

  lemma {:induction false} QueueUpToSorted(orders: seq<Order>, now: int, locked: set<nat>, n: nat)
    ensures Lists(QueueUpTo(orders, now, locked, n), orders, now, locked, n)
    ensures SortedQueue(orders, QueueUpTo(orders, now, locked, n))
  {
    if n > 0 {
      QueueUpToSorted(orders, now, locked, n - 1);
      QueueStep(orders, now, locked, n - 1);
    }
  }

  lemma QueueIsQueue(orders: seq<Order>, now: int, locked: set<nat>)
    ensures IsQueue(Queue(orders, now, locked), orders, now, locked)
  {
    QueueUpToSorted(orders, now, locked, |orders|);
    var q := Queue(orders, now, locked);
    assert forall i :: 0 <= i < |q| ==> q[i] in q;
  }

  /** There is only one such queue. */
  lemma {:induction false} QueueUnique(p: seq<nat>, q: seq<nat>, orders: seq<Order>)
    requires forall i, j :: 0 <= i < j < |p| ==> Sooner(orders, p[i], p[j])
    requires forall i, j :: 0 <= i < j < |q| ==> Sooner(orders, q[i], q[j])
    requires forall o :: o in p <==> o in q
    ensures p == q
  {
    assert p != [] ==> p[0] in p;
    assert q != [] ==> q[0] in q;
    if p != [] && q != [] {
      assert p[0] in q && q[0] in p;
      assert p[0] == q[0];
      assert p == [p[0]] + p[1..] && q == [q[0]] + q[1..];
      assert forall o :: o in p[1..] <==> o in p && o != p[0];
      assert forall o :: o in q[1..] <==> o in q && o != q[0];
      QueueUnique(p[1..], q[1..], orders);
    }
  }

  /** An order later in the queue is not among the first n. */
  lemma LaterIsNotFirst(q: seq<nat>, orders: seq<Order>, n: nat, o: nat)
    requires n <= |q| && forall i, j :: 0 <= i < j < |q| ==> Sooner(orders, q[i], q[j])
    ensures o in q[n..] <==> o in q && o !in q[..n]
  {
    assert q == q[..n] + q[n..];
    forall i, j | 0 <= i < j < |q| ensures q[i] != q[j] {
      assert Sooner(orders, q[i], q[j]);
    }
  }

  /** Expiring the first n takes exactly them out of the queue. */
  lemma ClaimableAfter(orders: seq<Order>, now: int, locked: set<nat>, first: seq<nat>, o: nat)
    ensures Claimable(SetExpired(orders, first), now, locked, o) <==> Claimable(orders, now, locked, o) && o !in first
  {}

  lemma SameDeadlines(orders: seq<Order>, first: seq<nat>, q: seq<nat>)
    requires forall i, j :: 0 <= i < j < |q| ==> Sooner(SetExpired(orders, first), q[i], q[j])
    ensures forall i, j :: 0 <= i < j < |q| ==> Sooner(orders, q[i], q[j])
  {
    forall i, j | 0 <= i < j < |q| ensures Sooner(orders, q[i], q[j]) {
      assert Sooner(SetExpired(orders, first), q[i], q[j]);
    }
  }

  /** Once the first n are expired, the queue is what was behind them. */
  lemma QueueAdvances(orders: seq<Order>, now: int, locked: set<nat>, n: nat)
    requires n <= |Queue(orders, now, locked)|
    ensures var q := Queue(orders, now, locked);
            Queue(SetExpired(orders, q[..n]), now, locked) == q[n..]
  {
    var q := Queue(orders, now, locked);
    var r := Queue(SetExpired(orders, q[..n]), now, locked);
    QueueIsQueue(orders, now, locked);
    QueueIsQueue(SetExpired(orders, q[..n]), now, locked);
    SameDeadlines(orders, q[..n], r);
    forall o ensures o in r <==> o in q[n..] {
      InQueue(orders, now, locked, o);
      InQueue(SetExpired(orders, q[..n]), now, locked, o);
      ClaimableAfter(orders, now, locked, q[..n], o);
      LaterIsNotFirst(q, orders, n, o);
    }
    QueueUnique(r, q[n..], orders);
  }

  lemma InQueue(orders: seq<Order>, now: int, locked: set<nat>, o: nat)
    ensures o in Queue(orders, now, locked) <==> Claimable(orders, now, locked, o)
  {
    QueueUpToSorted(orders, now, locked, |orders|);
  }

  // ---------- one sweep over a list of orders ----------

  function SweptZones(zones: Zones, tickets: seq<Ticket>, ids: seq<nat>): Zones {
    ReturnAll(zones, GroupKeys(HeldKeys(tickets, ids)))
  }

  lemma ExpireInTwo(db: Postgres, a: seq<nat>, b: seq<nat>)
    ensures ExpireOrders(ExpireOrders(db, a), b) == ExpireOrders(db, a + b)
  {
    assert ExpiryRows(a + b) == ExpiryRows(a) + ExpiryRows(b);
    ExpiredTwice(db.orders, a, b);
    assert MoveHeld(MoveHeld(db.tickets, a, Voided), b, Voided) == MoveHeld(db.tickets, a + b, Voided);
  }

  /** Held tickets of a and b are those of a, then those of b that are still held. */
  lemma HeldInTwo(tickets: seq<Ticket>, a: seq<nat>, b: seq<nat>, z: ZoneKey)
    ensures Occurrences(HeldKeys(tickets, a + b), z)
         == Occurrences(HeldKeys(tickets, a), z) + Occurrences(HeldKeys(MoveHeld(tickets, a, Voided), b), z)
  {
    var inA := (t: Ticket) => Ind(t.order in a && t.status == Held && t.key == z);
    var inB := (t: Ticket) => Ind(t.order in b && t.status == Held && t.key == z);
    var both := (t: Ticket) => Ind(t.order in a + b && t.status == Held && t.key == z);
    HeldKeysCount(tickets, a, z);
    HeldKeysCount(MoveHeld(tickets, a, Voided), b, z);
    HeldKeysCount(tickets, a + b, z);
    SumBalance(tickets, both, MoveHeld(tickets, a, Voided), inB, inA);
  }

  /** Giving seats back in two sweeps leaves every counter as one sweep would, even counters that had drifted. */
  lemma ZonesInTwo(zones: Zones, tickets: seq<Ticket>, a: seq<nat>, b: seq<nat>)
    ensures SweptZones(SweptZones(zones, tickets, a), MoveHeld(tickets, a, Voided), b)
            == SweptZones(zones, tickets, a + b)
  {
    var later := MoveHeld(tickets, a, Voided);
    var mid := SweptZones(zones, tickets, a);
    ReturnAllBySeats(zones, GroupKeys(HeldKeys(tickets, a)));
    ReturnAllBySeats(mid, GroupKeys(HeldKeys(later, b)));
    ReturnAllBySeats(zones, GroupKeys(HeldKeys(tickets, a + b)));
    forall z | z in zones ensures SweptZones(mid, later, b)[z] == SweptZones(zones, tickets, a + b)[z] {
      GroupingCounts(HeldKeys(tickets, a), z);
      GroupingCounts(HeldKeys(later, b), z);
      GroupingCounts(HeldKeys(tickets, a + b), z);
      HeldInTwo(tickets, a, b, z);
      ReleasedTwice(zones[z].booked, Seats(GroupKeys(HeldKeys(tickets, a)), z),
                    Seats(GroupKeys(HeldKeys(later, b)), z));
    }
  }

  lemma {:induction false} NoneHeld(tickets: seq<Ticket>)
    ensures HeldKeys(tickets, []) == []
  {
    if tickets != [] {
      NoneHeld(tickets[1..]);
    }
  }

  lemma ExpireNone(db: Postgres)
    ensures ExpireOrders(db, []) == db
  {
    assert SetExpired(db.orders, []) == db.orders;
    assert MoveHeld(db.tickets, [], Voided) == db.tickets;
    assert ExpiryRows([]) == [] && db.outbox + [] == db.outbox;
  }

  /** Both databases as one transaction over these holds leaves them: no counter below a full release or above where it
    was, whatever fails, and each exactly there if the network works. */
  ghost predicate SweptTo(db: Postgres, zones: Zones, ids: seq<nat>, afterDb: Postgres, afterZones: Zones,
                          reliable: bool)
  {
    && afterDb == ExpireOrders(db, ids)
    && GivenBack(zones, GroupKeys(HeldKeys(db.tickets, ids)), afterZones)
    && (reliable ==> afterZones == SweptZones(zones, db.tickets, ids))
  }

  /** A sweep of some holds and then of more is the sweep of both. */
  lemma SweptOn(db: Postgres, zones: Zones, swept: seq<nat>, more: seq<nat>,
                mid: Postgres, midZones: Zones, after: Postgres, afterZones: Zones, reliable: bool)
    requires SweptTo(db, zones, swept, mid, midZones, reliable)
    requires SweptTo(mid, midZones, more, after, afterZones, reliable)
    ensures SweptTo(db, zones, swept + more, after, afterZones, reliable)
  {
    ExpireInTwo(db, swept, more);
    ZonesInTwo(zones, db.tickets, swept, more);
    GivenInTwo(db.tickets, zones, swept, more, midZones, afterZones);
  }

  lemma GivenInTwo(tickets: seq<Ticket>, zones: Zones, a: seq<nat>, b: seq<nat>, mid: Zones, after: Zones)
    requires GivenBack(zones, GroupKeys(HeldKeys(tickets, a)), mid)
    requires GivenBack(mid, GroupKeys(HeldKeys(MoveHeld(tickets, a, Voided), b)), after)
    ensures GivenBack(zones, GroupKeys(HeldKeys(tickets, a + b)), after)
  {
    var gs, hs := GroupKeys(HeldKeys(tickets, a)), GroupKeys(HeldKeys(MoveHeld(tickets, a, Voided), b));
    var all := GroupKeys(HeldKeys(tickets, a + b));
    forall z ensures Seats(all, z) == Seats(gs, z) + Seats(hs, z) {
      GroupingCounts(HeldKeys(tickets, a), z);
      GroupingCounts(HeldKeys(MoveHeld(tickets, a, Voided), b), z);
      GroupingCounts(HeldKeys(tickets, a + b), z);
      HeldInTwo(tickets, a, b, z);
    }
    GivenBackTwice(zones, gs, mid, hs, after, all);
  }

  // ---------- the batch loop ----------

  /** The head of the claim. */
  function Batch(orders: seq<Order>, now: int, locked: set<nat>, batch: nat): seq<nat> {
    var q := Queue(orders, now, locked);
    q[..Min(|q|, batch)]
  }

  /** What a batch finds: the time, and the rows other transactions have locked. */
  datatype Tick = Tick(now: int, locked: set<nat>)

  /** The holds expired by one batch a tick, until a batch is short. */
  function SweepIds(orders: seq<Order>, ticks: seq<Tick>, batch: nat): seq<nat>
    decreases |ticks|
  {
    if ticks == [] then []
    else
      var claimed := Batch(orders, ticks[0].now, ticks[0].locked, batch);
      claimed + if |claimed| < batch then [] else SweepIds(SetExpired(orders, claimed), ticks[1..], batch)
  }

  lemma SweepUnfold(orders: seq<Order>, t: Tick, ticks: seq<Tick>, batch: nat)
    ensures var claimed := Batch(orders, t.now, t.locked, batch);
      SweepIds(orders, [t] + ticks, batch)
      == if |claimed| < batch then claimed else claimed + SweepIds(SetExpired(orders, claimed), ticks, batch)
  {
    assert ([t] + ticks)[1..] == ticks;
    assert Batch(orders, t.now, t.locked, batch) + [] == Batch(orders, t.now, t.locked, batch);
  }

  /** Some batch could claim o. */
  ghost predicate DueAtSome(orders: seq<Order>, ticks: seq<Tick>, o: nat) {
    exists b :: 0 <= b < |ticks| && Claimable(orders, ticks[b].now, ticks[b].locked, o)
  }

  /** Every hold that is swept was overdue at the time of some batch, and is swept once. */
  lemma {:induction false} SweptWereDue(orders: seq<Order>, ticks: seq<Tick>, batch: nat)
    ensures Distinct(SweepIds(orders, ticks, batch))
    ensures forall k :: 0 <= k < |SweepIds(orders, ticks, batch)| ==>
            DueAtSome(orders, ticks, SweepIds(orders, ticks, batch)[k])
    decreases |ticks|
  {
    if ticks != [] {
      var claimed := Batch(orders, ticks[0].now, ticks[0].locked, batch);
      SweptWereDue(SetExpired(orders, claimed), ticks[1..], batch);
      BatchIsDue(orders, ticks[0].now, ticks[0].locked, batch);
      DueInAll(orders, ticks, claimed, SweepIds(SetExpired(orders, claimed), ticks[1..], batch));
      SweepUnfold(orders, ticks[0], ticks[1..], batch);
      assert ticks == [ticks[0]] + ticks[1..];
    }
  }

  lemma DueInAll(orders: seq<Order>, ticks: seq<Tick>, claimed: seq<nat>, rest: seq<nat>)
    requires ticks != [] && Distinct(claimed) && Distinct(rest)
    requires forall k :: 0 <= k < |claimed| ==> Claimable(orders, ticks[0].now, ticks[0].locked, claimed[k])
    requires forall k :: 0 <= k < |rest| ==> DueAtSome(SetExpired(orders, claimed), ticks[1..], rest[k])
    ensures forall k :: 0 <= k < |claimed| ==> DueAtSome(orders, ticks, claimed[k])
    ensures Distinct(claimed + rest)
    ensures forall k :: 0 <= k < |claimed + rest| ==> DueAtSome(orders, ticks, (claimed + rest)[k])
  {
    forall k | 0 <= k < |rest| ensures rest[k] !in claimed && DueAtSome(orders, ticks, rest[k]) {
      DueLater(orders, ticks, claimed, rest[k]);
    }
  }

  lemma DueLater(orders: seq<Order>, ticks: seq<Tick>, claimed: seq<nat>, o: nat)
    requires ticks != [] && DueAtSome(SetExpired(orders, claimed), ticks[1..], o)
    ensures o !in claimed && DueAtSome(orders, ticks, o)
  {
    var b :| 0 <= b < |ticks[1..]|
             && Claimable(SetExpired(orders, claimed), ticks[1..][b].now, ticks[1..][b].locked, o);
    ClaimableAfter(orders, ticks[b + 1].now, ticks[b + 1].locked, claimed, o);
  }

  lemma BatchIsDue(orders: seq<Order>, now: int, locked: set<nat>, batch: nat)
    ensures var ids := Batch(orders, now, locked, batch);
      Distinct(ids) && |ids| <= batch && forall k :: 0 <= k < |ids| ==> Claimable(orders, now, locked, ids[k])
  {
    var q := Queue(orders, now, locked);
    QueueIsQueue(orders, now, locked);
    forall i, j | 0 <= i < j < |q| ensures q[i] != q[j] {
      assert Sooner(orders, q[i], q[j]);
    }
  }

  /** `rounds` batches that are all full. */
  function FullRounds(batch: nat, rounds: nat): nat { if rounds == 0 then 0 else batch + FullRounds(batch, rounds - 1) }

  lemma {:induction false} FullRoundsIs(batch: nat, rounds: nat)
    ensures FullRounds(batch, rounds) == batch * rounds
  {
    if rounds > 0 {
      FullRoundsIs(batch, rounds - 1);
      assert batch * rounds == batch * (rounds - 1) + batch;
    }
  }

  /** Once the ticks are through, there is nothing that a batch at tick `t` could claim. */
  predicate Drained(orders: seq<Order>, ticks: seq<Tick>, batch: nat, t: Tick) {
    Queue(SetExpired(orders, SweepIds(orders, ticks, batch)), t.now, t.locked) == []
  }

  /** When fewer holds than batch * |ticks| were swept, the last batch left nothing that it could have claimed. */
  lemma NothingLeft(orders: seq<Order>, ticks: seq<Tick>, batch: nat)
    requires |SweepIds(orders, ticks, batch)| < batch * |ticks|
    ensures exists t :: t in ticks && Queue(SetExpired(orders, SweepIds(orders, ticks, batch)), t.now, t.locked) == []
  {
    FullRoundsIs(batch, |ticks|);
    var t := NothingLeftFrom(orders, ticks, batch);
    assert Drained(orders, ticks, batch, t);
  }

  lemma {:induction false} NothingLeftFrom(orders: seq<Order>, ticks: seq<Tick>, batch: nat) returns (t: Tick)
    requires |SweepIds(orders, ticks, batch)| < FullRounds(batch, |ticks|)
    ensures t in ticks && Drained(orders, ticks, batch, t)
    decreases |ticks|
  {
    assert ticks == [ticks[0]] + ticks[1..];
    SweepUnfold(orders, ticks[0], ticks[1..], batch);
    if |Batch(orders, ticks[0].now, ticks[0].locked, batch)| < batch {
      t := ticks[0];
      ShortBatchDrains(orders, t, ticks[1..], batch);
    } else {
      t := NothingLeftFrom(SetExpired(orders, Batch(orders, ticks[0].now, ticks[0].locked, batch)), ticks[1..], batch);
      FullBatchDrains(orders, ticks[0], ticks[1..], batch, t);
    }
  }

  lemma FullBatchDrains(orders: seq<Order>, first: Tick, ticks: seq<Tick>, batch: nat, t: Tick)
    requires |Batch(orders, first.now, first.locked, batch)| >= batch
    requires Drained(SetExpired(orders, Batch(orders, first.now, first.locked, batch)), ticks, batch, t)
    ensures Drained(orders, [first] + ticks, batch, t)
  {
    var claimed := Batch(orders, first.now, first.locked, batch);
    SweepUnfold(orders, first, ticks, batch);
    ExpiredTwice(orders, claimed, SweepIds(SetExpired(orders, claimed), ticks, batch));
  }

  lemma ShortBatchDrains(orders: seq<Order>, t: Tick, ticks: seq<Tick>, batch: nat)
    requires |Batch(orders, t.now, t.locked, batch)| < batch
    ensures Drained(orders, [t] + ticks, batch, t)
  {
    SweepUnfold(orders, t, ticks, batch);
    QueueAdvances(orders, t.now, t.locked, |Batch(orders, t.now, t.locked, batch)|);
  }

  lemma ExpiredTwice(orders: seq<Order>, a: seq<nat>, b: seq<nat>)
    ensures SetExpired(SetExpired(orders, a), b) == SetExpired(orders, a + b)
  {}

  /** How many of n holds some rounds of batches claim. */
  function Claims(n: nat, batch: nat, rounds: nat): (c: nat)
    ensures c <= n
  {
    if rounds == 0 then 0 else if n < batch then n else batch + Claims(n - batch, batch, rounds - 1)
  }

  lemma {:induction false} ClaimsIs(n: nat, batch: nat, rounds: nat)
    ensures Claims(n, batch, rounds) == Min(n, FullRounds(batch, rounds))
  {
    if rounds > 0 && n >= batch { ClaimsIs(n - batch, batch, rounds - 1); }
  }

  function FirstHolds(orders: seq<Order>, now: int, locked: set<nat>, batch: nat, rounds: nat): seq<nat> {
    Front(Queue(orders, now, locked), batch, rounds)
  }

  function Front(q: seq<nat>, batch: nat, rounds: nat): seq<nat> { q[..Claims(|q|, batch, rounds)] }

  lemma FrontStep(q: seq<nat>, batch: nat, rounds: nat)
    requires rounds > 0
    ensures Front(q, batch, rounds)
         == q[..Min(|q|, batch)] + if |q| < batch then [] else Front(q[batch..], batch, rounds - 1)
  {
    if |q| < batch {
      assert q[..|q|] + [] == q;
    } else {
      var n := Claims(|q| - batch, batch, rounds - 1);
      assert q[..batch + n] == q[..batch] + q[batch..][..n];
    }
  }

  lemma FirstHoldsStep(orders: seq<Order>, now: int, locked: set<nat>, batch: nat, rounds: nat)
    requires rounds > 0
    ensures var claimed := Batch(orders, now, locked, batch);
      FirstHolds(orders, now, locked, batch, rounds)
      == claimed + if |claimed| < batch then []
                   else FirstHolds(SetExpired(orders, claimed), now, locked, batch, rounds - 1)
  {
    FrontStep(Queue(orders, now, locked), batch, rounds);
    if |Queue(orders, now, locked)| >= batch {
      QueueAdvances(orders, now, locked, batch);
    }
  }

  /** A fixed clock and fixed locks. */
  predicate Steady(ticks: seq<Tick>, t: Tick) { forall i :: 0 <= i < |ticks| ==> ticks[i] == t }

  /** Under a fixed clock and fixed locks: the first holds of the queue, as many as the rounds claim. */
  lemma {:induction false} FixedSweep(orders: seq<Order>, ticks: seq<Tick>, t: Tick, batch: nat)
    requires Steady(ticks, t)
    ensures SweepIds(orders, ticks, batch) == FirstHolds(orders, t.now, t.locked, batch, |ticks|)
    decreases |ticks|
  {
    if ticks != [] {
      assert ticks == [t] + ticks[1..];
      SweepUnfold(orders, t, ticks[1..], batch);
      FixedSweep(SetExpired(orders, Batch(orders, t.now, t.locked, batch)), ticks[1..], t, batch);
      FirstHoldsStep(orders, t.now, t.locked, batch, |ticks|);
    }
  }

  /** Small batches claim what one big batch would. */
  lemma SteadySweep(orders: seq<Order>, ticks: seq<Tick>, t: Tick, batch: nat)
    requires Steady(ticks, t)
    ensures SweepIds(orders, ticks, batch) == Batch(orders, t.now, t.locked, FullRounds(batch, |ticks|))
  {
    FixedSweep(orders, ticks, t, batch);
    ClaimsIs(|Queue(orders, t.now, t.locked)|, batch, |ticks|);
  }

  lemma NoneSwept(db: Postgres, zones: Zones, reliable: bool)
    ensures SweptTo(db, zones, [], db, zones, reliable)
  {
    ExpireNone(db);
    NoneHeld(db.tickets);
    NothingGiven(zones);
  }

  // ---------- the loop under any pattern of faults ----------

  /** Both databases after some batches, the number of the next MongoDB call, and the holds expired. */
  datatype SweepEnd = SweepEnd(db: Postgres, zones: Zones, calls: nat, ids: seq<nat>)

  /** One batch: expire and commit, then release. */
  function BatchUnder(db: Postgres, zones: Zones, net: nat -> Fault, c: nat, t: Tick, batch: nat): SweepEnd {
    var ids := Batch(db.orders, t.now, t.locked, batch);
    var released := ReleaseUnder(zones, net, c, GroupKeys(HeldKeys(db.tickets, ids)));
    SweepEnd(ExpireOrders(db, ids), released.zones, released.calls, ids)
  }

  function SweepUnder(db: Postgres, zones: Zones, net: nat -> Fault, c: nat, ticks: seq<Tick>, batch: nat): SweepEnd
    decreases |ticks|
  {
    if ticks == [] then SweepEnd(db, zones, c, [])
    else
      var first := BatchUnder(db, zones, net, c, ticks[0], batch);
      if |first.ids| < batch then first
      else
        var rest := SweepUnder(first.db, first.zones, net, first.calls, ticks[1..], batch);
        rest.(ids := first.ids + rest.ids)
  }

  lemma BatchSweeps(db: Postgres, zones: Zones, net: nat -> Fault, c: nat, t: Tick, batch: nat)
    ensures var e := BatchUnder(db, zones, net, c, t, batch); SweptTo(db, zones, e.ids, e.db, e.zones, Calm(net))
  {
    var groups := GroupKeys(HeldKeys(db.tickets, Batch(db.orders, t.now, t.locked, batch)));
    ReleaseBooks(zones, net, c, groups);
    ReleaseBounds(zones, net, c, groups);
  }

  /** The batches expire the holds of SweepIds, and leave both databases as one transaction over all of them would. */
  lemma {:induction false} SweepIsOne(db: Postgres, zones: Zones, net: nat -> Fault, c: nat, ticks: seq<Tick>,
                                      batch: nat)
    ensures var e := SweepUnder(db, zones, net, c, ticks, batch);
      e.ids == SweepIds(db.orders, ticks, batch) && SweptTo(db, zones, e.ids, e.db, e.zones, Calm(net))
    decreases |ticks|
  {
    if ticks == [] {
      NoneSwept(db, zones, Calm(net));
    } else {
      assert ticks == [ticks[0]] + ticks[1..];
      SweepUnfold(db.orders, ticks[0], ticks[1..], batch);
      BatchSweeps(db, zones, net, c, ticks[0], batch);
      var first := BatchUnder(db, zones, net, c, ticks[0], batch);
      if |first.ids| >= batch {
        SweepIsOne(first.db, first.zones, net, first.calls, ticks[1..], batch);
        var rest := SweepUnder(first.db, first.zones, net, first.calls, ticks[1..], batch);
        SweptOn(db, zones, first.ids, rest.ids, first.db, first.zones, rest.db, rest.zones, Calm(net));
      }
    }
  }

  /** The ticks from i on, after `swept` was swept. */
  function SweepFrom(db: Postgres, zones: Zones, net: nat -> Fault, c: nat, ticks: seq<Tick>, batch: nat, i: nat,
                     swept: seq<nat>): SweepEnd
    requires i <= |ticks|
  {
    var rest := SweepUnder(db, zones, net, c, ticks[i..], batch);
    rest.(ids := swept + rest.ids)
  }

  lemma SweepFirst(db: Postgres, zones: Zones, net: nat -> Fault, c: nat, ticks: seq<Tick>, batch: nat, i: nat,
                   swept: seq<nat>)
    requires i < |ticks|
    ensures var first := BatchUnder(db, zones, net, c, ticks[i], batch);
      SweepFrom(db, zones, net, c, ticks, batch, i, swept)
      == if |first.ids| < batch then first.(ids := swept + first.ids)
         else SweepFrom(first.db, first.zones, net, first.calls, ticks, batch, i + 1, swept + first.ids)
  {
    assert ticks[i..][0] == ticks[i] && ticks[i..][1..] == ticks[i + 1..];
    var first := BatchUnder(db, zones, net, c, ticks[i], batch);
    JoinThree(swept, first.ids, SweepUnder(first.db, first.zones, net, first.calls, ticks[i + 1..], batch).ids);
  }

  lemma SweepAtStart(db: Postgres, zones: Zones, net: nat -> Fault, c: nat, ticks: seq<Tick>, batch: nat)
    ensures SweepFrom(db, zones, net, c, ticks, batch, 0, []) == SweepUnder(db, zones, net, c, ticks, batch)
  {
    var all := SweepUnder(db, zones, net, c, ticks, batch);
    assert ticks[0..] == ticks && [] + all.ids == all.ids;
  }

  lemma JoinThree(a: seq<nat>, b: seq<nat>, c: seq<nat>)
    ensures a + (b + c) == (a + b) + c
  {}

  class Worker {
    var db: Postgres
    const events: Events

    constructor (db: Postgres, events: Events)
      ensures this.db == db && this.events == events
    {
      this.db, this.events := db, events;
    }

    /** Expire up to `batch` overdue holds in one transaction, commit, then release their seats. */
    method SweepOneBatch(t: Tick, batch: nat) returns (done: nat, ghost swept: seq<nat>)
      modifies this, events
      ensures SweepEnd(db, events.zones, events.calls, swept)
           == BatchUnder(old(db), old(events.zones), events.net, old(events.calls), t, batch)
      ensures done == |swept|
    {
      var claimed := Batch(db.orders, t.now, t.locked, batch);
      done, swept := |claimed|, claimed;
      if claimed == [] {
        ExpireNone(db);
        NoneHeld(db.tickets);
        return;
      }
      var groups := GroupKeys(HeldKeys(db.tickets, claimed));
      db := ExpireOrders(db, claimed);
      ghost var given := events.ReleaseCountedSeats(groups);
    }

    /** Batches until one is short, at most one a tick. */
    method SweepBatches(ticks: seq<Tick>, batch: nat) returns (total: nat, ghost swept: seq<nat>)
      modifies this, events
      ensures SweepEnd(db, events.zones, events.calls, swept)
           == SweepUnder(old(db), old(events.zones), events.net, old(events.calls), ticks, batch)
      ensures total == |swept|
    {
      total, swept := 0, [];
      ghost var all := SweepUnder(db, events.zones, events.net, events.calls, ticks, batch);
      SweepAtStart(db, events.zones, events.net, events.calls, ticks, batch);
      for i := 0 to |ticks|
        invariant total == |swept|
        invariant SweepFrom(db, events.zones, events.net, events.calls, ticks, batch, i, swept) == all
      {
        SweepFirst(db, events.zones, events.net, events.calls, ticks, batch, i, swept);
        var done;
        ghost var more;
        done, more := SweepOneBatch(ticks[i], batch);
        swept := swept + more;
        total := total + done;
        if done < batch {
          return;
        }
      }
    }

    /** At most |ticks| batches, each at its own time and with its own locked rows; under a fixed clock and fixed locks
      exactly the holds that one batch of batch * |ticks| would claim. Both databases are left as one transaction over
      all of them would leave them. */
    method CleanupExpiredSeatHolds(ticks: seq<Tick>, batch: nat) returns (total: nat, ghost swept: seq<nat>)
      modifies this, events
      ensures SweepEnd(db, events.zones, events.calls, swept)
           == SweepUnder(old(db), old(events.zones), events.net, old(events.calls), ticks, batch)
      ensures swept == SweepIds(old(db).orders, ticks, batch) && total == |swept|
      ensures SweptTo(old(db), old(events.zones), swept, db, events.zones, events.Reliable())
      ensures ticks != [] && Steady(ticks, ticks[0]) ==>
                swept == Batch(old(db).orders, ticks[0].now, ticks[0].locked, FullRounds(batch, |ticks|))
    {
      if ticks != [] && Steady(ticks, ticks[0]) { SteadySweep(db.orders, ticks, ticks[0], batch); }
      SweepIsOne(db, events.zones, events.net, events.calls, ticks, batch);
      total, swept := SweepBatches(ticks, batch);
    }
  }

  /** The SQL claim is one of the claims the protocol allows. */
  lemma ClaimIsProtocolStep(s: State, p: nat, now: int, locked: set<nat>)
    requires p < |s.procs| && s.procs[p].Sweeping?
    requires forall o: nat :: RowLocked(s.procs, o) ==> o in locked
    ensures Enabled(s, Claim(p, now, Batch(s.db.orders, now, locked, s.procs[p].batch)))
  {
    BatchIsDue(s.db.orders, now, locked, s.procs[p].batch);
  }
}
