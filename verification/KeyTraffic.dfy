/** Requests with an Idempotency-Key among any other traffic: what each of them is answered. */
module KeyTraffic {
  import opened Wrappers
  import opened Store
  import opened Protocol
  import opened Safety
  import opened Transactions
  import opened Guarantees
  import opened Progress

  // ---------- where a process comes from ----------

  /** The processes that a run starts, in their order. */
  function Started(actions: seq<Action>): seq<Proc> {
    if actions == [] then []
    else (if actions[0].Spawn? then [actions[0].proc] else []) + Started(actions[1..])
  }

  predicate CarriesKey(db: Postgres, o: nat, key: Option<string>) { o < |db.orders| && db.orders[o].key == key }

  predicate NamesOrder(end: Outcome) { end.Placed? || end.Replayed? }

  /** What a process may have become since it was started; an answer with an order names one with the request's key. */
  predicate Traced(db: Postgres, start: Proc, q: Proc) {
    match q
    case Asked(_) => start == q
    case Reserving(req, _, _, _) => start == Asked(req)
    case Undoing(_, end, recheck) => !NamesOrder(end) && (recheck.Some? ==> start.Asked? && start.req.key == recheck)
    case Releasing(_, end) => !NamesOrder(end)
    case ReleasingOne(_, _, _, end) => !NamesOrder(end)
    case Finished(Placed(o)) => start.Asked? && CarriesKey(db, o, start.req.key)
    case Finished(Replayed(o)) => start.Asked? && start.req.key.Some? && CarriesKey(db, o, start.req.key)
    case _ => true
  }

  predicate Placing(q: Proc) { q.Finished? && q.outcome.Placed? }

  /** Only by placing an order does a process add one, the next. */
  predicate AddsOrder(s: State, a: Action)
    requires Enabled(s, a) && OfProcess(a)
  {
    var t := Step(s, a);
    a.p < |t.procs|
    && if Placing(t.procs[a.p])
       then t.procs[a.p] == Finished(Placed(|s.db.orders|)) && |t.db.orders| == |s.db.orders| + 1
       else |t.db.orders| == |s.db.orders|
  }

  predicate AllTraced(db: Postgres, starts: seq<Proc>, procs: seq<Proc>) {
    |starts| == |procs| && forall i :: 0 <= i < |procs| ==> Traced(db, starts[i], procs[i])
  }

  lemma TracedStays(a: Postgres, b: Postgres, start: Proc, q: Proc)
    requires Traced(a, start, q) && |a.orders| <= |b.orders|
    requires forall o :: 0 <= o < |a.orders| ==> b.orders[o].key == a.orders[o].key
    ensures Traced(b, start, q)
  {}

  lemma LookupTraced(s: State, p: nat, start: Proc)
    requires Enabled(s, Lookup(p)) && Traced(s.db, start, s.procs[p])
    ensures Traced(Step(s, Lookup(p)).db, start, Step(s, Lookup(p)).procs[p])
    ensures AddsOrder(s, Lookup(p))
  {}

  lemma WriteTraced(s: State, p: nat, now: int, start: Proc)
    requires Enabled(s, Write(p, now)) && Traced(s.db, start, s.procs[p])
    ensures Traced(Step(s, Write(p, now)).db, start, Step(s, Write(p, now)).procs[p])
    ensures AddsOrder(s, Write(p, now))
  {}

  lemma SettleTraced(s: State, p: nat, start: Proc)
    requires Enabled(s, Settle(p)) && Traced(s.db, start, s.procs[p])
    ensures Traced(Step(s, Settle(p)).db, start, Step(s, Settle(p)).procs[p])
    ensures AddsOrder(s, Settle(p))
  {}

  lemma PayTraced(s: State, p: nat, now: int, start: Proc)
    requires Enabled(s, Pay(p, now))
    ensures Traced(Step(s, Pay(p, now)).db, start, Step(s, Pay(p, now)).procs[p])
    ensures AddsOrder(s, Pay(p, now))
  {
    PayShape(s, p, now);
  }

  lemma MongoTraced(s: State, a: Action, start: Proc)
    requires Enabled(s, a) && (a.Reserve? || a.Undo? || a.Release?) && Traced(s.db, start, s.procs[a.p])
    ensures Traced(Step(s, a).db, start, Step(s, a).procs[a.p])
    ensures AddsOrder(s, a)
  {}

  lemma RowTraced(s: State, a: Action, start: Proc)
    requires Enabled(s, a) && (a.Lock? || a.Claim? || a.Sweep? || a.Abort? || a.Crash?)
    ensures Traced(Step(s, a).db, start, Step(s, a).procs[a.p])
    ensures AddsOrder(s, a)
  {}

  lemma MovedTraced(s: State, a: Action, start: Proc)
    requires Enabled(s, a) && OfProcess(a) && Traced(s.db, start, s.procs[a.p])
    ensures Traced(Step(s, a).db, start, Step(s, a).procs[a.p])
    ensures AddsOrder(s, a)
  {
    match a
    case Lookup(p) => LookupTraced(s, p, start);
    case Write(p, now) => WriteTraced(s, p, now, start);
    case Settle(p) => SettleTraced(s, p, start);
    case Pay(p, now) => PayTraced(s, p, now, start);
    case Reserve(_, _) => MongoTraced(s, a, start);
    case Undo(_, _) => MongoTraced(s, a, start);
    case Release(_, _) => MongoTraced(s, a, start);
    case _ => RowTraced(s, a, start);
  }

  lemma StepTraced(s: State, a: Action, starts: seq<Proc>)
    requires Inv(s) && Enabled(s, a) && AllTraced(s.db, starts, s.procs)
    ensures AllTraced(Step(s, a).db, starts + Started([a]), Step(s, a).procs)
  {
    var t := Step(s, a);
    StepKeeps(s, a);
    StepEvolves(s, a);
    assert [a][1..] == [] && Started([a]) == if a.Spawn? then [a.proc] else [];
    forall o | 0 <= o < |s.db.orders| ensures t.db.orders[o].key == s.db.orders[o].key {
      assert OrderEvolves(s.db.orders[o], t.db.orders[o]);
    }
    if OfProcess(a) {
      OneProcessMoves(s, a);
      MovedTraced(s, a, starts[a.p]);
    }
    forall i | 0 <= i < |s.procs| && (!OfProcess(a) || i != a.p) ensures Traced(t.db, starts[i], t.procs[i]) {
      TracedStays(s.db, t.db, starts[i], s.procs[i]);
    }
  }

  lemma {:induction false} RunTraced(s: State, starts: seq<Proc>, actions: seq<Action>, t: State)
    requires Inv(s) && Run(s, actions, t) && AllTraced(s.db, starts, s.procs)
    ensures AllTraced(t.db, starts + Started(actions), t.procs)
    decreases |actions|
  {
    if actions == [] {
      assert starts + [] == starts;
    } else {
      StepKeeps(s, actions[0]);
      StepTraced(s, actions[0], starts);
      assert [actions[0]][1..] == [];
      assert (starts + Started([actions[0]])) + Started(actions[1..]) == starts + Started(actions);
      RunTraced(Step(s, actions[0]), starts + Started([actions[0]]), actions[1..], t);
    }
  }

  // ---------- who placed an order ----------

  /** Each order from place n on was placed by exactly one process, and no process says it placed another. */
  ghost predicate EachPlacedOnce(s: State, n: nat) {
    && n <= |s.db.orders|
    && (forall i, o: nat :: 0 <= i < |s.procs| && s.procs[i] == Finished(Placed(o)) ==> n <= o < |s.db.orders|)
    && (forall o: nat :: n <= o < |s.db.orders| ==> Finished(Placed(o)) in s.procs)
    && (forall i, j :: 0 <= i < j < |s.procs| && Placing(s.procs[i]) ==> s.procs[j] != s.procs[i])
  }

  lemma OthersKeepOrders(s: State, a: Action)
    requires Enabled(s, a) && !OfProcess(a)
    ensures |Step(s, a).db.orders| == |s.db.orders|
    ensures s.procs <= Step(s, a).procs && |Step(s, a).procs| <= |s.procs| + 1
    ensures |Step(s, a).procs| > |s.procs| ==> !Placing(Step(s, a).procs[|s.procs|])
  {}

  lemma StepPlaced(s: State, a: Action, starts: seq<Proc>, n: nat)
    requires Enabled(s, a) && AllTraced(s.db, starts, s.procs) && EachPlacedOnce(s, n)
    ensures EachPlacedOnce(Step(s, a), n)
  {
    var t := Step(s, a);
    if OfProcess(a) {
      OneProcessMoves(s, a);
      MovedTraced(s, a, starts[a.p]);
      MovedPlaced(s, t, a.p, n);
    } else {
      OthersKeepOrders(s, a);
    }
  }

  lemma MovedPlaced(s: State, t: State, p: nat, n: nat)
    requires EachPlacedOnce(s, n) && p < |s.procs| == |t.procs| && t.procs == s.procs[p := t.procs[p]]
    requires !s.procs[p].Finished?
    requires if Placing(t.procs[p])
             then t.procs[p] == Finished(Placed(|s.db.orders|)) && |t.db.orders| == |s.db.orders| + 1
             else |t.db.orders| == |s.db.orders|
    ensures EachPlacedOnce(t, n)
  {
    forall o: nat | n <= o < |t.db.orders| ensures Finished(Placed(o)) in t.procs {
      if o < |s.db.orders| {
        var i :| 0 <= i < |s.procs| && s.procs[i] == Finished(Placed(o));
        assert t.procs[i] == s.procs[i];
      }
    }
    forall i, j | 0 <= i < j < |t.procs| && Placing(t.procs[i]) ensures t.procs[j] != t.procs[i] {
      if i != p && j != p { assert t.procs[i] == s.procs[i] && t.procs[j] == s.procs[j]; }
    }
  }

  lemma {:induction false} RunPlaced(s: State, starts: seq<Proc>, actions: seq<Action>, t: State, n: nat)
    requires Inv(s) && Run(s, actions, t) && AllTraced(s.db, starts, s.procs) && EachPlacedOnce(s, n)
    ensures EachPlacedOnce(t, n)
    decreases |actions|
  {
    if actions != [] {
      StepKeeps(s, actions[0]);
      StepTraced(s, actions[0], starts);
      StepPlaced(s, actions[0], starts, n);
      RunPlaced(Step(s, actions[0]), starts + Started([actions[0]]), actions[1..], t, n);
    }
  }

  // ---------- what the requests with one key are answered ----------

  predicate Answers(q: Proc, o: nat) { q == Finished(Placed(o)) || q == Finished(Replayed(o)) }

  /** Process i was started for a request with this key. */
  predicate Asks(actions: seq<Action>, i: nat, key: string) {
    i < |Started(actions)| && Started(actions)[i].Asked? && Started(actions)[i].req.key == Some(key)
  }

  /** Over any run, whatever else is bought, paid and swept: all requests with one key that are answered with an order
    are answered with the same one, it carries the key, and at most one of them placed it. */
  lemma OneAnswerPerKey(s: State, actions: seq<Action>, t: State, key: string, i: nat, j: nat, a: nat, b: nat)
    requires Reachable(s, actions, t) && Asks(actions, i, key) && Asks(actions, j, key)
    requires i < |t.procs| && j < |t.procs| && Answers(t.procs[i], a) && Answers(t.procs[j], b)
    ensures a == b < |t.db.orders| && t.db.orders[a].key == Some(key)
    ensures i != j ==> !(t.procs[i] == Finished(Placed(a)) && t.procs[j] == Finished(Placed(b)))
  {
    ReachableInv(s, actions, t);
    RunOrigins(s, actions, t);
    assert Traced(t.db, Started(actions)[i], t.procs[i]) && Traced(t.db, Started(actions)[j], t.procs[j]);
  }

  lemma RunOrigins(s: State, actions: seq<Action>, t: State)
    requires Reachable(s, actions, t)
    ensures AllTraced(t.db, Started(actions), t.procs) && EachPlacedOnce(t, |s.db.orders|)
  {
    InitialInv(s);
    RunTraced(s, [], actions, t);
    RunPlaced(s, [], actions, t, |s.db.orders|);
    assert [] + Started(actions) == Started(actions);
  }

  /** Every order of a run was placed by exactly one process, for a request with the order's key: requests with one key
    leave at most one order, and the tickets of no other. */
  lemma EveryOrderAsked(s: State, actions: seq<Action>, t: State, o: nat) returns (i: nat)
    requires Reachable(s, actions, t) && |s.db.orders| <= o < |t.db.orders|
    ensures i < |t.procs| == |Started(actions)| && t.procs[i] == Finished(Placed(o))
    ensures Started(actions)[i].Asked? && Started(actions)[i].req.key == t.db.orders[o].key
    ensures forall j :: 0 <= j < |t.procs| && t.procs[j] == Finished(Placed(o)) ==> j == i
  {
    RunOrigins(s, actions, t);
    assert Finished(Placed(o)) in t.procs;
    i :| 0 <= i < |t.procs| && t.procs[i] == Finished(Placed(o));
    assert Traced(t.db, Started(actions)[i], t.procs[i]);
  }
}
