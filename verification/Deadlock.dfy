/** Concurrent order INSERTs as lock-takers on unique-index entries.

  Each transaction takes its idempotency-key entry first and then its seat entries in lock order. An entry held by an
  unfinished transaction makes the next one wait; an entry of a committed row is a unique violation, which aborts. */
module Deadlock {
  import opened Wrappers
  import opened Sums
  import opened Text
  import opened Store
  import opened Booking

  datatype Entry = KeyEntry(key: string) | SeatEntry(zone: ZoneKey, seat: string)

  predicate EntryBefore(a: Entry, b: Entry) {
    match (a, b)
    case (KeyEntry(j), KeyEntry(k)) => Before(j, k)
    case (KeyEntry(_), SeatEntry(_, _)) => true
    case (SeatEntry(_, _), KeyEntry(_)) => false
    case (SeatEntry(y, s), SeatEntry(z, t)) => LockBefore(Line(y, Some(s), 0), Line(z, Some(t), 0))
  }

  lemma EntryBeforeOrder(a: Entry, b: Entry, c: Entry)
    ensures !EntryBefore(a, a)
    ensures EntryBefore(a, b) || EntryBefore(b, a) || a == b
    ensures EntryBefore(a, b) && EntryBefore(b, c) ==> EntryBefore(a, c)
  {
    match (a, b)
    case (SeatEntry(y, s), SeatEntry(z, t)) =>
      LockBeforeTotal(Line(y, Some(s), 0), Line(z, Some(t), 0));
      if c.SeatEntry? && EntryBefore(a, b) && EntryBefore(b, c) {
        LockBeforeTransitive(Line(y, Some(s), 0), Line(z, Some(t), 0), Line(c.zone, Some(c.seat), 0));
      }
    case (KeyEntry(j), KeyEntry(k)) =>
      BeforeTotal(j, k);
      BeforeIrreflexive(j);
      if c.KeyEntry? && Before(j, k) && Before(k, c.key) {
        BeforeTransitive(j, k, c.key);
      }
    case (KeyEntry(j), SeatEntry(_, _)) => BeforeIrreflexive(j);
    case (SeatEntry(y, s), KeyEntry(_)) => LockBeforeTotal(Line(y, Some(s), 0), Line(y, Some(s), 0));
  }

  /** A transaction has inserted the first `taken` of its entries. */
  datatype Tx = Tx(wants: seq<Entry>, taken: nat, over: bool) {
    predicate Active() { !over && taken <= |wants| }
    predicate Wanting() { !over && taken < |wants| }
    function Next(): Entry
      requires Wanting()
    {
      wants[taken]
    }
    predicate Holds(e: Entry) { !over && taken <= |wants| && e in wants[..taken] }
  }

  ghost predicate InOrder(wants: seq<Entry>) {
    forall i, j :: 0 <= i < j < |wants| ==> !EntryBefore(wants[j], wants[i])
  }

  /** `filled`: entries of committed rows. */
  datatype Table = Table(filled: set<Entry>, txs: seq<Tx>)

  ghost predicate Disciplined(s: Table) {
    forall i :: 0 <= i < |s.txs| ==> s.txs[i].taken <= |s.txs[i].wants| && InOrder(s.txs[i].wants)
  }

  /** Transaction i's next INSERT waits for transaction j to end. */
  predicate WaitsFor(s: Table, i: nat, j: nat) {
    && i < |s.txs| && j < |s.txs| && i != j && s.txs[i].Wanting()
    && s.txs[i].Next() !in s.filled && !s.txs[i].Holds(s.txs[i].Next())
    && s.txs[j].Holds(s.txs[i].Next())
  }

  predicate Blocked(s: Table, i: nat) { exists j | 0 <= j < |s.txs| :: WaitsFor(s, i, j) }

  predicate CanStep(s: Table, i: nat) { i < |s.txs| && s.txs[i].Active() && !Blocked(s, i) }

  /** COMMIT, a unique violation that aborts, or one more entry. */
  function TxStep(s: Table, i: nat): Table
    requires CanStep(s, i)
  {
    var tx := s.txs[i];
    if tx.taken == |tx.wants| then
      Table(s.filled + (set e | e in tx.wants), s.txs[i := tx.(over := true)])
    else if tx.Next() in s.filled || tx.Holds(tx.Next()) then
      s.(txs := s.txs[i := tx.(over := true)])
    else
      s.(txs := s.txs[i := tx.(taken := tx.taken + 1)])
  }

  // ---------- no cycle ----------

  /** Transaction j wants a later entry than transaction i. */
  ghost predicate Rises(s: Table, i: nat, j: nat) {
    i < |s.txs| && j < |s.txs| && s.txs[i].Wanting() && s.txs[j].Wanting()
    && EntryBefore(s.txs[i].Next(), s.txs[j].Next())
  }

  lemma RisesOrder(s: Table, i: nat, j: nat, k: nat)
    ensures !Rises(s, i, i)
    ensures Rises(s, i, j) && Rises(s, j, k) ==> Rises(s, i, k)
  {
    if Rises(s, i, i) { EntryBeforeOrder(s.txs[i].Next(), s.txs[i].Next(), s.txs[i].Next()); }
    if Rises(s, i, j) && Rises(s, j, k) { EntryBeforeOrder(s.txs[i].Next(), s.txs[j].Next(), s.txs[k].Next()); }
  }

  /** Along a wait-for edge the wanted entry strictly rises. */
  lemma WaitRises(s: Table, i: nat, j: nat, k: nat)
    requires Disciplined(s)
    ensures WaitsFor(s, i, j) && WaitsFor(s, j, k) ==> Rises(s, i, j)
  {
    if WaitsFor(s, i, j) && WaitsFor(s, j, k) {
      var e, tx := s.txs[i].Next(), s.txs[j];
      var n :| 0 <= n < tx.taken && tx.wants[..tx.taken][n] == e;
      assert !EntryBefore(tx.wants[tx.taken], tx.wants[n]);
      EntryBeforeOrder(e, tx.Next(), e);
    }
  }

  ghost predicate WaitPath(s: Table, path: seq<nat>) {
    forall n :: 0 <= n < |path| - 1 ==> WaitsFor(s, path[n], path[n + 1])
  }

  lemma {:induction false} PathRises(s: Table, path: seq<nat>)
    requires Disciplined(s) && WaitPath(s, path) && |path| >= 3
    ensures Rises(s, path[0], path[|path| - 2])
  {
    var n := |path|;
    WaitRises(s, path[n - 3], path[n - 2], path[n - 1]);
    if n > 3 {
      PathRises(s, path[..n - 1]);
      RisesOrder(s, path[0], path[n - 3], path[n - 2]);
    }
  }

  /** Transactions that take their entries in order never wait for each other in a circle. */
  lemma NoWaitCycle(s: Table, path: seq<nat>)
    requires Disciplined(s) && WaitPath(s, path) && |path| >= 2
    ensures path[0] != path[|path| - 1]
  {
    var n := |path|;
    if n >= 3 {
      PathRises(s, path);
      WaitRises(s, path[n - 2], path[n - 1], path[1]);
      RisesOrder(s, path[0], path[n - 2], path[n - 1]);
      RisesOrder(s, path[0], path[0], path[0]);
    }
  }

  // ---------- progress ----------

  /** The transactions that want something later than transaction i does. */
  ghost function WantLater(s: Table, i: nat): set<nat> { set k: nat | k < |s.txs| && Rises(s, i, k) }

  /** Following the wait-for edges ends at a transaction that can step. */
  lemma {:induction false} FollowWaits(s: Table, i: nat) returns (free: nat)
    requires Disciplined(s) && i < |s.txs| && s.txs[i].Active()
    ensures CanStep(s, free)
    decreases WantLater(s, i)
  {
    free := i;
    if j :| 0 <= j < |s.txs| && WaitsFor(s, i, j) {
      free := j;
      if k :| 0 <= k < |s.txs| && WaitsFor(s, j, k) {
        WaitRises(s, i, j, k);
        assert j in WantLater(s, i);
        assert j !in WantLater(s, j) by { RisesOrder(s, j, j, j); }
        forall m | m in WantLater(s, j) ensures m in WantLater(s, i) {
          RisesOrder(s, i, j, m);
        }
        free := FollowWaits(s, j);
      }
    }
  }

  // ---------- whole runs ----------

  function Remaining(): Tx -> int { (tx: Tx) => if tx.over then 0 else 1 + |tx.wants| - tx.taken }

  function WorkLeft(s: Table): int { Sum(s.txs, Remaining()) }

  lemma StepWorks(s: Table, i: nat)
    requires Disciplined(s) && CanStep(s, i)
    ensures Disciplined(TxStep(s, i)) && WorkLeft(TxStep(s, i)) < WorkLeft(s)
    ensures |TxStep(s, i).txs| == |s.txs|
  {
    SumUpdate(s.txs, i, TxStep(s, i).txs[i], Remaining());
  }

  ghost predicate Schedule(s: Table, picks: seq<nat>, t: Table)
    decreases |picks|
  {
    if picks == [] then s == t else CanStep(s, picks[0]) && Schedule(TxStep(s, picks[0]), picks[1..], t)
  }

  /** However the transactions are scheduled: at any point either all of them are over or one can step, and there are
    at most WorkLeft steps, so all of them finish. */
  lemma {:induction false} NoDeadlock(s: Table, picks: seq<nat>, t: Table)
    requires Disciplined(s) && Schedule(s, picks, t)
    ensures |picks| + WorkLeft(t) <= WorkLeft(s) && WorkLeft(t) >= 0
    ensures (forall i :: 0 <= i < |t.txs| ==> t.txs[i].over) || exists i :: CanStep(t, i)
    decreases |picks|
  {
    if picks == [] {
      SumAtLeast(t.txs, Remaining(), 0);
      if i :| 0 <= i < |t.txs| && !t.txs[i].over {
        var free := FollowWaits(t, i);
      }
    } else {
      StepWorks(s, picks[0]);
      NoDeadlock(TxStep(s, picks[0]), picks[1..], t);
    }
  }

  // ---------- bookings keep the discipline ----------

  function SeatEntries(lines: seq<Line>): seq<Entry> {
    if lines == [] then []
    else (if lines[0].seat.Some? then [SeatEntry(lines[0].key, lines[0].seat.value)] else []) + SeatEntries(lines[1..])
  }

  /** INSERT order (its key), then the multi-row INSERT of the tickets; tickets without a seat take no entry. */
  function OrderEntries(key: Option<string>, lines: seq<Line>): seq<Entry> {
    (if key.Some? then [KeyEntry(key.value)] else []) + SeatEntries(lines)
  }

  lemma {:induction false} SeatEntriesFrom(lines: seq<Line>)
    requires InLockOrder(lines)
    ensures InOrder(SeatEntries(lines))
    ensures forall e :: e in SeatEntries(lines) ==>
      e.SeatEntry? && exists i :: 0 <= i < |lines| && lines[i].key == e.zone && lines[i].seat == Some(e.seat)
  {
    if lines != [] {
      var rest := lines[1..];
      assert forall i :: 0 <= i < |rest| ==> rest[i] == lines[i + 1];
      SeatEntriesFrom(rest);
      var tail := SeatEntries(rest);
      forall e | e in tail
        ensures exists i :: 0 <= i < |lines| && lines[i].key == e.zone && lines[i].seat == Some(e.seat)
        ensures lines[0].seat.Some? ==> !EntryBefore(e, SeatEntry(lines[0].key, lines[0].seat.value))
      {
        var i :| 0 <= i < |rest| && rest[i].key == e.zone && rest[i].seat == Some(e.seat);
        assert lines[i + 1].key == e.zone;
        assert !LockBefore(lines[i + 1], lines[0]);
      }
      var all := SeatEntries(lines);
      if lines[0].seat.Some? {
        assert forall j :: 1 <= j < |all| ==> all[j] == tail[j - 1] && all[j] in tail;
      } else {
        assert all == tail;
      }
    }
  }

  /** Whatever the payload: validated, sorted and keyed, a booking takes its entries in order. */
  lemma BookingsInOrder(key: Option<string>, validated: seq<Line>)
    ensures InOrder(OrderEntries(key, SortLines(validated)))
  {
    SortedInLockOrder(validated);
    SeatEntriesFrom(SortLines(validated));
    var seats, all := SeatEntries(SortLines(validated)), OrderEntries(key, SortLines(validated));
    if key.Some? {
      assert forall j :: 1 <= j < |all| ==> all[j] == seats[j - 1] && all[j] in seats;
    } else {
      assert all == seats;
    }
  }

  /** Without the common order two transactions can block each other for good. */
  lemma UnsortedDeadlocks(z: ZoneKey)
    ensures var a, b := SeatEntry(z, "A-1"), SeatEntry(z, "A-2");
            var s := Table({}, [Tx([a, b], 0, false), Tx([b, a], 0, false)]);
            exists t :: Schedule(s, [0, 1], t) && !CanStep(t, 0) && !CanStep(t, 1) && !t.txs[0].over && !t.txs[1].over
  {
    var a, b := SeatEntry(z, "A-1"), SeatEntry(z, "A-2");
    var s := Table({}, [Tx([a, b], 0, false), Tx([b, a], 0, false)]);
    assert "A-1"[2] != "A-2"[2];
    assert a != b;
    assert CanStep(s, 0);
    var m := TxStep(s, 0);
    assert m.txs == [Tx([a, b], 1, false), Tx([b, a], 0, false)];
    assert CanStep(m, 1);
    var t := TxStep(m, 1);
    assert t.txs == [Tx([a, b], 1, false), Tx([b, a], 1, false)];
    assert [0, 1][1..] == [1] && [1][1..] == [];
    assert Schedule(m, [1], t);
    assert Schedule(s, [0, 1], t);
    assert [b, a][..1] == [b] && [a, b][..1] == [a];
    assert WaitsFor(t, 0, 1) && WaitsFor(t, 1, 0);
  }
}
