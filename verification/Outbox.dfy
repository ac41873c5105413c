/** The outbox worker: batches that mark rows processed, retention purges, and several replicas doing so at once. */
module Outbox {
  import opened Sums
  import opened Store

  /** Rows are listed in (created_at, id) order. */
  datatype Row = Row(id: nat, createdAt: int, delivery: Delivery)

  predicate Markable(r: Row, locked: set<nat>) { r.delivery == Queued && r.id !in locked }

  predicate Purgeable(r: Row, locked: set<nat>, horizon: int) {
    r.delivery == Processed && r.createdAt < horizon && r.id !in locked
  }

  function MarkableCount(rows: seq<Row>, locked: set<nat>): int { Sum(rows, (r: Row) => Ind(Markable(r, locked))) }

  function PurgeableCount(rows: seq<Row>, locked: set<nat>, horizon: int): int {
    Sum(rows, (r: Row) => Ind(Purgeable(r, locked, horizon)))
  }

  /** UPDATE ... WHERE id IN (SELECT ... WHERE status = 'pending' ORDER BY created_at, id LIMIT n FOR UPDATE SKIP
    LOCKED) */
  function MarkFirst(rows: seq<Row>, locked: set<nat>, n: nat): seq<Row> {
    if rows == [] || n == 0 then rows
    else if Markable(rows[0], locked) then [rows[0].(delivery := Processed)] + MarkFirst(rows[1..], locked, n - 1)
    else [rows[0]] + MarkFirst(rows[1..], locked, n)
  }

  /** DELETE ... WHERE id IN (SELECT ... WHERE status = 'processed' AND created_at < horizon ... LIMIT n) */
  function PurgeFirst(rows: seq<Row>, locked: set<nat>, horizon: int, n: nat): seq<Row> {
    if rows == [] || n == 0 then rows
    else if Purgeable(rows[0], locked, horizon) then PurgeFirst(rows[1..], locked, horizon, n - 1)
    else [rows[0]] + PurgeFirst(rows[1..], locked, horizon, n)
  }

  lemma {:induction false} MarkInTwo(rows: seq<Row>, locked: set<nat>, a: nat, b: nat)
    ensures MarkFirst(MarkFirst(rows, locked, a), locked, b) == MarkFirst(rows, locked, a + b)
  {
    if rows != [] && a > 0 {
      var once := MarkFirst(rows, locked, a);
      if Markable(rows[0], locked) {
        assert once[1..] == MarkFirst(rows[1..], locked, a - 1);
        MarkInTwo(rows[1..], locked, a - 1, b);
      } else {
        assert once[1..] == MarkFirst(rows[1..], locked, a);
        MarkInTwo(rows[1..], locked, a, b);
      }
    }
  }

  /** Marking n of m markable rows leaves m - n, and changes nothing but `pending` to `processed`. */
  lemma {:induction false} MarkEffect(rows: seq<Row>, locked: set<nat>, n: nat)
    ensures var r := MarkFirst(rows, locked, n);
      && MarkableCount(rows, locked) >= 0
      && MarkableCount(r, locked) == MarkableCount(rows, locked) - Min(n, MarkableCount(rows, locked))
      && |r| == |rows|
      && forall i :: 0 <= i < |r| ==>
           r[i] == rows[i] || (Markable(rows[i], locked) && r[i] == rows[i].(delivery := Processed))
  {
    SumAtLeast(rows, (r: Row) => Ind(Markable(r, locked)), 0);
    if rows != [] && n > 0 {
      var k := if Markable(rows[0], locked) then n - 1 else n;
      MarkEffect(rows[1..], locked, k);
      assert MarkFirst(rows, locked, n)[1..] == MarkFirst(rows[1..], locked, k);
    }
  }

  lemma {:induction false} PurgeInTwo(rows: seq<Row>, locked: set<nat>, horizon: int, a: nat, b: nat)
    ensures PurgeFirst(PurgeFirst(rows, locked, horizon, a), locked, horizon, b)
            == PurgeFirst(rows, locked, horizon, a + b)
  {
    if rows != [] && a > 0 {
      if Purgeable(rows[0], locked, horizon) {
        PurgeInTwo(rows[1..], locked, horizon, a - 1, b);
      } else {
        assert PurgeFirst(rows, locked, horizon, a)[1..] == PurgeFirst(rows[1..], locked, horizon, a);
        PurgeInTwo(rows[1..], locked, horizon, a, b);
      }
    }
  }

  /** Purging deletes exactly as many rows as it reports, and never one that is not processed. */
  lemma {:induction false} PurgeEffect(rows: seq<Row>, locked: set<nat>, horizon: int, n: nat)
    ensures var r := PurgeFirst(rows, locked, horizon, n);
      && PurgeableCount(rows, locked, horizon) >= 0
      && |r| == |rows| - Min(n, PurgeableCount(rows, locked, horizon))
      && PurgeableCount(r, locked, horizon)
         == PurgeableCount(rows, locked, horizon) - Min(n, PurgeableCount(rows, locked, horizon))
      && Unfinished(r) == Unfinished(rows)
  {
    SumAtLeast(rows, (r: Row) => Ind(Purgeable(r, locked, horizon)), 0);
    if rows == [] || n == 0 {
    } else if Purgeable(rows[0], locked, horizon) {
      PurgeEffect(rows[1..], locked, horizon, n - 1);
    } else {
      PurgeEffect(rows[1..], locked, horizon, n);
      assert PurgeFirst(rows, locked, horizon, n)[1..] == PurgeFirst(rows[1..], locked, horizon, n);
    }
  }

  /** The rows not processed yet, in order. */
  function Unfinished(rows: seq<Row>): seq<Row> {
    if rows == [] then []
    else (if rows[0].delivery != Processed then [rows[0]] else []) + Unfinished(rows[1..])
  }

  lemma BatchCount(n: nat, batch: nat, i: nat, max: nat)
    requires i < max
    ensures Min(n, batch * (i + 1)) == Min(n, batch * i) + Min(batch, n - Min(n, batch * i))
    ensures Min(batch, n - Min(n, batch * i)) < batch ==> Min(n, batch * (i + 1)) == Min(n, batch * max)
  {
    assert batch * (i + 1) == batch * i + batch;
    assert batch * (i + 1) <= batch * max;
  }

  /** Asking for more rows than there are marks them all. */
  lemma {:induction false} MarkSaturates(rows: seq<Row>, locked: set<nat>, n: nat)
    ensures MarkableCount(rows, locked) >= 0
    ensures MarkFirst(rows, locked, n) == MarkFirst(rows, locked, Min(n, MarkableCount(rows, locked)))
  {
    SumAtLeast(rows, (r: Row) => Ind(Markable(r, locked)), 0);
    if rows != [] {
      SumAtLeast(rows[1..], (r: Row) => Ind(Markable(r, locked)), 0);
      MarkSaturates(rows[1..], locked, n);
      if n > 0 {
        MarkSaturates(rows[1..], locked, n - 1);
      }
      if MarkableCount(rows, locked) == 0 {
        MarkNone(rows, locked, n);
      }
    }
  }

  lemma {:induction false} MarkNone(rows: seq<Row>, locked: set<nat>, n: nat)
    requires MarkableCount(rows, locked) == 0
    ensures MarkFirst(rows, locked, n) == rows
  {
    if rows != [] {
      SumAtLeast(rows, (r: Row) => Ind(Markable(r, locked)), 0);
      SumAtLeast(rows[1..], (r: Row) => Ind(Markable(r, locked)), 0);
      MarkNone(rows[1..], locked, n);
    }
  }

  lemma {:induction false} PurgeSaturates(rows: seq<Row>, locked: set<nat>, horizon: int, n: nat)
    ensures PurgeableCount(rows, locked, horizon) >= 0
    ensures PurgeFirst(rows, locked, horizon, n)
         == PurgeFirst(rows, locked, horizon, Min(n, PurgeableCount(rows, locked, horizon)))
  {
    var f := (r: Row) => Ind(Purgeable(r, locked, horizon));
    SumAtLeast(rows, f, 0);
    if rows != [] {
      SumAtLeast(rows[1..], f, 0);
      PurgeSaturates(rows[1..], locked, horizon, n);
      if n > 0 {
        PurgeSaturates(rows[1..], locked, horizon, n - 1);
      }
    }
  }

  // ---------- which rows ----------

  /** Pending and not locked rows marked processed, all others as they are. */
  function AllMarked(rows: seq<Row>, locked: set<nat>): (r: seq<Row>)
    ensures |r| == |rows|
  {
    if rows == [] then []
    else
      [if rows[0].delivery == Queued && rows[0].id !in locked then Row(rows[0].id, rows[0].createdAt, Processed)
       else rows[0]] + AllMarked(rows[1..], locked)
  }

  function Waiting(rows: seq<Row>, locked: set<nat>): nat {
    if rows == [] then 0
    else (if rows[0].delivery == Queued && rows[0].id !in locked then 1 else 0) + Waiting(rows[1..], locked)
  }

  /** A batch marks the oldest rows: all that wait up to some place, none behind it, n of them or all there are. */
  lemma {:induction false} MarksOldest(rows: seq<Row>, locked: set<nat>, n: nat) returns (k: nat)
    ensures k <= |rows| && MarkFirst(rows, locked, n) == AllMarked(rows[..k], locked) + rows[k..]
    ensures Waiting(rows[..k], locked) <= n && (Waiting(rows[..k], locked) < n ==> k == |rows|)
  {
    if rows == [] || n == 0 {
      k := if n == 0 then 0 else |rows|;
    } else {
      var m := if Markable(rows[0], locked) then n - 1 else n;
      var j := MarksOldest(rows[1..], locked, m);
      k := j + 1;
      assert rows[..k][1..] == rows[1..][..j] && rows[k..] == rows[1..][j..];
      assert MarkFirst(rows, locked, n)[1..] == MarkFirst(rows[1..], locked, m);
    }
  }

  /** The rows without those that are processed, old and not locked. */
  function AllPurged(rows: seq<Row>, locked: set<nat>, horizon: int): seq<Row> {
    if rows == [] then []
    else
      var r := rows[0];
      (if r.delivery == Processed && r.createdAt < horizon && r.id !in locked then [] else [r])
      + AllPurged(rows[1..], locked, horizon)
  }

  /** A purge deletes the oldest rows: all that are processed and older than the horizon up to some place, none behind
    it, n of them or all there are. */
  lemma {:induction false} PurgesOldest(rows: seq<Row>, locked: set<nat>, horizon: int, n: nat) returns (k: nat)
    ensures k <= |rows| && PurgeFirst(rows, locked, horizon, n) == AllPurged(rows[..k], locked, horizon) + rows[k..]
    ensures k - |AllPurged(rows[..k], locked, horizon)| <= n
    ensures k - |AllPurged(rows[..k], locked, horizon)| < n ==> k == |rows|
  {
    if rows == [] || n == 0 {
      k := if n == 0 then 0 else |rows|;
    } else {
      var j := PurgesOldest(rows[1..], locked, horizon, if Purgeable(rows[0], locked, horizon) then n - 1 else n);
      k := j + 1;
      PurgedFront(rows, locked, horizon, j);
      assert rows[k..] == rows[1..][j..];
    }
  }

  lemma PurgedFront(rows: seq<Row>, locked: set<nat>, horizon: int, j: nat)
    requires j + 1 <= |rows|
    ensures AllPurged(rows[..j + 1], locked, horizon)
         == (if Purgeable(rows[0], locked, horizon) then [] else [rows[0]]) + AllPurged(rows[1..][..j], locked, horizon)
  {
    assert rows[..j + 1][0] == rows[0] && rows[..j + 1][1..] == rows[1..][..j];
  }

  class OutboxTable {
    var rows: seq<Row>

    constructor (rows: seq<Row>)
      ensures this.rows == rows
    {
      this.rows := rows;
    }

    /** Batches of `batch`, at most `maxBatches`, until a short one: as one statement over min(n, batch * maxBatches)
      rows. */
    method ProcessPending(locked: set<nat>, batch: nat, maxBatches: nat) returns (total: nat)
      requires batch > 0
      modifies this
      ensures MarkableCount(old(rows), locked) >= 0
      ensures total == Min(MarkableCount(old(rows), locked), batch * maxBatches)
      ensures rows == MarkFirst(old(rows), locked, total)
    {
      total := 0;
      MarkEffect(rows, locked, 0);
      for i := 0 to maxBatches
        invariant total == Min(MarkableCount(old(rows), locked), batch * i)
        invariant rows == MarkFirst(old(rows), locked, total)
      {
        MarkEffect(old(rows), locked, total);
        MarkSaturates(rows, locked, batch);
        var done := Min(batch, MarkableCount(rows, locked));
        MarkInTwo(old(rows), locked, total, done);
        BatchCount(MarkableCount(old(rows), locked), batch, i, maxBatches);
        rows := MarkFirst(rows, locked, batch);
        total := total + done;
        if done < batch {
          break;
        }
      }
    }

    /** Retention: nothing for `days <= 0`, else batches of old processed rows. */
    method PurgeProcessed(locked: set<nat>, now: int, days: int, batch: nat, maxBatches: nat) returns (total: nat)
      requires batch > 0
      modifies this
      ensures days <= 0 ==> total == 0 && rows == old(rows)
      ensures days > 0 ==> PurgeableCount(old(rows), locked, now - days * 86400) >= 0
      ensures days > 0 ==> total == Min(PurgeableCount(old(rows), locked, now - days * 86400), batch * maxBatches)
      ensures days > 0 ==> rows == PurgeFirst(old(rows), locked, now - days * 86400, total)
      ensures total == |old(rows)| - |rows| && Unfinished(rows) == Unfinished(old(rows))
    {
      total := 0;
      if days <= 0 {
        return;
      }
      var horizon := now - days * 86400;
      PurgeEffect(rows, locked, horizon, 0);
      for i := 0 to maxBatches
        invariant total == Min(PurgeableCount(old(rows), locked, horizon), batch * i)
        invariant rows == PurgeFirst(old(rows), locked, horizon, total)
      {
        PurgeEffect(old(rows), locked, horizon, total);
        PurgeSaturates(rows, locked, horizon, batch);
        BatchCount(PurgeableCount(old(rows), locked, horizon), batch, i, maxBatches);
        var done := Min(batch, PurgeableCount(rows, locked, horizon));
        PurgeInTwo(old(rows), locked, horizon, total, done);
        rows := PurgeFirst(rows, locked, horizon, batch);
        total := total + done;
        if done < batch {
          break;
        }
      }
      PurgeEffect(old(rows), locked, horizon, total);
    }
  }

  // ---------- several replicas ----------

  /** A replica's open claim and the sum it will return. */
  datatype Replica = Replica(claim: set<nat>, total: nat)

  /** `moved`: ids in the order they were marked processed; `purged`: ids deleted. */
  datatype Shared = Shared(pending: set<nat>, processed: set<nat>, purged: set<nat>, replicas: seq<Replica>,
                           moved: seq<nat>)

  datatype Event =
    | Append(id: nat)
    | Claim(r: nat, ids: set<nat>)
    | Commit(r: nat)
    | Rollback(r: nat)
    | Purge(ids: set<nat>)

  predicate Allowed(s: Shared, e: Event) {
    match e
    case Append(id) => id !in s.pending + s.processed + s.purged
    case Claim(r, ids) =>
      r < |s.replicas| && s.replicas[r].claim == {} && ids <= s.pending
      && forall i :: 0 <= i < |s.replicas| ==> s.replicas[i].claim !! ids
    case Commit(r) => r < |s.replicas|
    case Rollback(r) => r < |s.replicas|
    case Purge(ids) => ids <= s.processed
  }

  ghost function SeqOf(ids: set<nat>): (q: seq<nat>)
    ensures |q| == |ids| && (forall x :: x in q <==> x in ids) && forall i, j :: 0 <= i < j < |q| ==> q[i] != q[j]
  {
    if ids == {} then [] else var x :| x in ids; [x] + SeqOf(ids - {x})
  }

  /** The claimed rows, marked in some order q, are processed. */
  function Committed(s: Shared, r: nat, q: seq<nat>): Shared
    requires r < |s.replicas|
  {
    var ids := s.replicas[r].claim;
    s.(pending := s.pending - ids, processed := s.processed + ids,
       replicas := s.replicas[r := Replica({}, s.replicas[r].total + |ids|)], moved := s.moved + q)
  }

  ghost function Next(s: Shared, e: Event): Shared
    requires Allowed(s, e)
  {
    match e
    case Append(id) => s.(pending := s.pending + {id})
    case Claim(r, ids) => s.(replicas := s.replicas[r := s.replicas[r].(claim := ids)])
    case Commit(r) => Committed(s, r, SeqOf(s.replicas[r].claim))
    case Rollback(r) => s.(replicas := s.replicas[r := s.replicas[r].(claim := {})])
    case Purge(ids) => s.(processed := s.processed - ids, purged := s.purged + ids)
  }

  function Totals(): Replica -> int { (r: Replica) => r.total }

  /** `already`: ids that were processed or purged before the history of `moved` starts. */
  ghost predicate SetsFit(s: Shared, already: set<nat>) {
    && s.pending !! s.processed !! s.purged
    && (forall i, j :: 0 <= i < j < |s.moved| ==> s.moved[i] != s.moved[j])
    && (forall x :: x in s.moved <==> x in (s.processed + s.purged) - already)
    && already <= s.processed + s.purged
  }

  ghost predicate SharedInv(s: Shared, already: set<nat>) {
    SetsFit(s, already) && ClaimsFit(s.replicas, s.pending) && Sum(s.replicas, Totals()) == |s.moved|
  }

  /** Appending ids that were not moved before. */
  lemma AppendDistinct(moved: seq<nat>, q: seq<nat>)
    requires forall i, j :: 0 <= i < j < |moved| ==> moved[i] != moved[j]
    requires forall i, j :: 0 <= i < j < |q| ==> q[i] != q[j]
    requires forall x :: x in q ==> x !in moved
    ensures forall i, j :: 0 <= i < j < |moved + q| ==> (moved + q)[i] != (moved + q)[j]
    ensures forall x :: x in moved + q <==> x in moved || x in q
  {
    forall i, j | 0 <= i < j < |moved + q| ensures (moved + q)[i] != (moved + q)[j] {
      if i < |moved| <= j {
        assert moved[i] in moved && q[j - |moved|] in q;
      }
    }
  }

  /** Claims lie in `pending` and do not overlap. */
  ghost predicate ClaimsFit(replicas: seq<Replica>, pending: set<nat>) {
    && (forall i :: 0 <= i < |replicas| ==> replicas[i].claim <= pending)
    && (forall i, j :: 0 <= i < j < |replicas| ==> replicas[i].claim !! replicas[j].claim)
  }

  lemma ClaimsAfterCommit(replicas: seq<Replica>, pending: set<nat>, r: nat, total: nat)
    requires ClaimsFit(replicas, pending) && r < |replicas|
    ensures ClaimsFit(replicas[r := Replica({}, total)], pending - replicas[r].claim)
  {
    var after := replicas[r := Replica({}, total)];
    forall i | 0 <= i < |after| ensures after[i].claim <= pending - replicas[r].claim {
      if i < r {
        assert replicas[i].claim !! replicas[r].claim;
      } else if i > r {
        assert replicas[r].claim !! replicas[i].claim;
      }
    }
  }

  /** Moving ids from pending to processed, on the sets alone. */
  lemma MoveSets(s: Shared, already: set<nat>, ids: set<nat>, q: seq<nat>)
    requires SetsFit(s, already) && ids <= s.pending
    requires |q| == |ids| && (forall x :: x in q <==> x in ids) && forall i, j :: 0 <= i < j < |q| ==> q[i] != q[j]
    ensures SetsFit(s.(pending := s.pending - ids, processed := s.processed + ids, moved := s.moved + q), already)
  {
    AppendDistinct(s.moved, q);
  }

  lemma CommittedCounts(s: Shared, r: nat, q: seq<nat>)
    requires r < |s.replicas| && |q| == |s.replicas[r].claim| && Sum(s.replicas, Totals()) == |s.moved|
    ensures Sum(Committed(s, r, q).replicas, Totals()) == |Committed(s, r, q).moved|
  {
    SumUpdate(s.replicas, r, Committed(s, r, q).replicas[r], Totals());
  }

  lemma CommittedSets(s: Shared, already: set<nat>, r: nat, q: seq<nat>)
    requires SetsFit(s, already) && r < |s.replicas| && s.replicas[r].claim <= s.pending
    requires |q| == |s.replicas[r].claim| && (forall x :: x in q <==> x in s.replicas[r].claim)
    requires forall i, j :: 0 <= i < j < |q| ==> q[i] != q[j]
    ensures SetsFit(Committed(s, r, q), already)
  {
    MoveSets(s, already, s.replicas[r].claim, q);
  }

  lemma CommittedKeeps(s: Shared, already: set<nat>, r: nat, q: seq<nat>)
    requires SharedInv(s, already) && r < |s.replicas|
    requires |q| == |s.replicas[r].claim| && (forall x :: x in q <==> x in s.replicas[r].claim)
    requires forall i, j :: 0 <= i < j < |q| ==> q[i] != q[j]
    ensures SharedInv(Committed(s, r, q), already)
  {
    CommittedSets(s, already, r, q);
    CommittedCounts(s, r, q);
    ClaimsAfterCommit(s.replicas, s.pending, r, s.replicas[r].total + |s.replicas[r].claim|);
  }

  lemma OtherKeeps(s: Shared, already: set<nat>, e: Event)
    requires SharedInv(s, already) && Allowed(s, e) && !e.Commit?
    ensures SharedInv(Next(s, e), already)
  {
    match e
    case Claim(r, ids) => SumUpdate(s.replicas, r, Next(s, e).replicas[r], Totals());
    case Rollback(r) => SumUpdate(s.replicas, r, Next(s, e).replicas[r], Totals());
    case _ =>
  }

  ghost predicate Trace(s: Shared, events: seq<Event>, t: Shared)
    decreases |events|
  {
    if events == [] then s == t else Allowed(s, events[0]) && Trace(Next(s, events[0]), events[1..], t)
  }

  lemma NextKeeps(s: Shared, already: set<nat>, e: Event)
    requires SharedInv(s, already) && Allowed(s, e)
    ensures SharedInv(Next(s, e), already) && s.moved <= Next(s, e).moved
  {
    if e.Commit? {
      CommittedKeeps(s, already, e.r, SeqOf(s.replicas[e.r].claim));
    } else {
      OtherKeeps(s, already, e);
    }
  }

  lemma {:induction false} TraceKeeps(s: Shared, already: set<nat>, events: seq<Event>, t: Shared)
    requires SharedInv(s, already) && Trace(s, events, t)
    ensures SharedInv(t, already) && s.moved <= t.moved
    decreases |events|
  {
    if events != [] {
      NextKeeps(s, already, events[0]);
      TraceKeeps(Next(s, events[0]), already, events[1..], t);
    }
  }

  /** An id once in the table stays pending, processed or purged. */
  lemma {:induction false} KnownStays(s: Shared, events: seq<Event>, t: Shared)
    requires Trace(s, events, t)
    ensures s.pending + s.processed + s.purged <= t.pending + t.processed + t.purged
    decreases |events|
  {
    if events != [] {
      KnownStays(Next(s, events[0]), events[1..], t);
    }
  }

  /** Whatever the replicas interleave: each row is moved to processed at most once, the returned counts sum to the rows
    moved, and a row that was pending is never deleted without having been moved. */
  lemma ReplicasShareTheWork(s: Shared, already: set<nat>, events: seq<Event>, t: Shared)
    requires SharedInv(s, already) && Trace(s, events, t)
    ensures Sum(t.replicas, Totals()) - Sum(s.replicas, Totals()) == |t.moved| - |s.moved|
    ensures s.moved <= t.moved
    ensures forall i, j :: 0 <= i < j < |t.moved| ==> t.moved[i] != t.moved[j]
    ensures forall x :: x in s.pending && x !in t.pending ==> x in t.moved && x !in s.moved
    ensures forall x :: x in t.purged && x !in s.processed + s.purged ==> x in t.moved
  {
    TraceKeeps(s, already, events, t);
    KnownStays(s, events, t);
  }
}
