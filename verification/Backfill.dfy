/** scripts/backfill.py: batches behind a cursor that skip locked rows, a checkpoint, and repeated sweeps. */
module Backfill {
  import opened Wrappers
  import opened Names
  import opened Migration

  datatype User = User(id: nat, row: Row)

  datatype Checkpoint = Checkpoint(lastId: nat, rowsDone: nat)

  const MAX_SWEEPS := 5

  /** The users table in primary-key order; ids start at 1. */
  predicate ByKey(users: seq<User>) {
    && (forall i :: 0 <= i < |users| ==> users[i].id >= 1)
    && (forall i, j :: 0 <= i < j < |users| ==> users[i].id < users[j].id)
  }

  predicate Due(u: User, last: nat, locked: set<nat>) { u.id > last && NeedsBackfill(u.row) && u.id !in locked }

  /** `WHERE id > :last AND ... ORDER BY id LIMIT :n FOR UPDATE SKIP LOCKED` */
  function Select(users: seq<User>, last: nat, n: nat, locked: set<nat>): seq<User> {
    if users == [] || n == 0 then []
    else if Due(users[0], last, locked) then [users[0]] + Select(users[1..], last, n - 1, locked)
    else Select(users[1..], last, n, locked)
  }

  function Filled(u: User): User { if NeedsBackfill(u.row) then User(u.id, Fill(u.row)) else u }

  function FillThose(users: seq<User>, ids: set<nat>): (r: seq<User>) {
    seq(|users|, i requires 0 <= i < |users| => if users[i].id in ids then Filled(users[i]) else users[i])
  }

  function FillAll(users: seq<User>): seq<User> { seq(|users|, i requires 0 <= i < |users| => Filled(users[i])) }

  function IdsOf(users: seq<User>): set<nat> { set u | u in users :: u.id }

  predicate AllNamed(users: seq<User>) { forall u | u in users :: !NeedsBackfill(u.row) }

  function Remaining(users: seq<User>): nat {
    if users == [] then 0 else (if NeedsBackfill(users[0].row) then 1 else 0) + Remaining(users[1..])
  }

  /** Some rows after the cursor filled, all others as they were. */
  ghost predicate PartlyFilled(before: seq<User>, now: seq<User>, from: nat) {
    |now| == |before|
    && forall i :: 0 <= i < |before| ==> now[i] == before[i] || (before[i].id > from && now[i] == Filled(before[i]))
  }

  // ---------- the traffic between batches ----------

  /** The row a request commits: inserted, or stored over the row with that id. */
  function Put(users: seq<User>, u: User): seq<User> {
    if users == [] || u.id < users[0].id then [u] + users
    else if u.id == users[0].id then [u] + users[1..]
    else [users[0]] + Put(users[1..], u)
  }

  function PutAll(users: seq<User>, writes: seq<User>): seq<User> {
    if writes == [] then users else Put(PutAll(users, writes[..|writes| - 1]), writes[|writes| - 1])
  }

  /** What requests do before a batch: the rows they commit, and the rows they still hold locked. In each sweep number 0
    is what they commit after the last batch. */
  datatype Requests = Requests(writes: seq<User>, locked: set<nat>)

  /** Dual write is on: no request commits a row without both parts. */
  ghost predicate DualWrites(meanwhile: (nat, nat) -> Requests) {
    forall sweep: nat, b: nat :: BothParts(meanwhile(sweep, b).writes)
  }

  predicate BothParts(writes: seq<User>) { forall u | u in writes :: u.id >= 1 && !NeedsBackfill(u.row) }

  lemma {:induction false} PutIs(users: seq<User>, u: User)
    requires ByKey(users) && u.id >= 1
    ensures ByKey(Put(users, u)) && forall x :: x in Put(users, u) <==> x == u || (x in users && x.id != u.id)
  {
    if users != [] {
      var tail := users[1..];
      assert users == [users[0]] + tail;
      forall x | x in tail ensures users[0].id < x.id {
        var i :| 0 <= i < |tail| && tail[i] == x;
        assert users[i + 1] == x;
      }
      if u.id < users[0].id {
        ByKeyPrepend(u, users);
      } else if u.id == users[0].id {
        ByKeyPrepend(u, tail);
      } else {
        PutIs(tail, u);
        ByKeyPrepend(users[0], Put(tail, u));
      }
    } else {
      assert Put(users, u) == [u];
    }
  }

  lemma {:induction false} PutRemaining(users: seq<User>, u: User)
    requires !NeedsBackfill(u.row)
    ensures Remaining(Put(users, u)) <= Remaining(users)
  {
    if users == [] || u.id < users[0].id {
      assert ([u] + users)[1..] == users;
    } else if u.id == users[0].id {
      assert ([u] + users[1..])[1..] == users[1..];
    } else {
      PutRemaining(users[1..], u);
      assert ([users[0]] + Put(users[1..], u))[1..] == Put(users[1..], u);
    }
  }

  lemma {:induction false} PutPartly(a: seq<User>, b: seq<User>, u: User, from: nat)
    requires PartlyFilled(a, b, from)
    ensures PartlyFilled(Put(a, u), Put(b, u), from)
  {
    if a != [] {
      FillKeepsStored(a[0]);
      assert b[0].id == a[0].id;
      assert forall i :: 0 <= i < |a[1..]| ==> a[1..][i] == a[i + 1] && b[1..][i] == b[i + 1];
      if u.id > a[0].id { PutPartly(a[1..], b[1..], u, from); }
    }
  }

  lemma {:induction false} PutAllPartly(a: seq<User>, b: seq<User>, writes: seq<User>, from: nat)
    requires PartlyFilled(a, b, from)
    ensures PartlyFilled(PutAll(a, writes), PutAll(b, writes), from)
    decreases |writes|
  {
    if writes != [] {
      var n := |writes| - 1;
      PutAllPartly(a, b, writes[..n], from);
      PutPartly(PutAll(a, writes[..n]), PutAll(b, writes[..n]), writes[n], from);
    }
  }

  lemma {:induction false} PutAllTwice(users: seq<User>, first: seq<User>, more: seq<User>)
    ensures PutAll(PutAll(users, first), more) == PutAll(users, first + more)
    decreases |more|
  {
    if more == [] {
      assert first + more == first;
    } else {
      var n := |more| - 1;
      PutAllTwice(users, first, more[..n]);
      assert (first + more)[..|first + more| - 1] == first + more[..n];
    }
  }

  /** Complete rows leave no new row to fill. */
  lemma {:induction false} PutAllIs(users: seq<User>, writes: seq<User>)
    requires ByKey(users) && BothParts(writes)
    ensures ByKey(PutAll(users, writes)) && NoneNewlyDue(users, PutAll(users, writes))
    ensures Remaining(PutAll(users, writes)) <= Remaining(users)
    decreases |writes|
  {
    if writes != [] {
      var n := |writes| - 1;
      PutAllIs(users, writes[..n]);
      PutIs(PutAll(users, writes[..n]), writes[n]);
      PutRemaining(PutAll(users, writes[..n]), writes[n]);
    }
  }

  /** A row without a name has been there, as it is. */
  ghost predicate NoneNewlyDue(before: seq<User>, now: seq<User>) {
    forall u :: u in now && NeedsBackfill(u.row) ==> u in before
  }

  // ---------- filling in parts ----------

  /** A stored part is never overwritten, and filling twice is filling once. */
  lemma FillKeepsStored(u: User)
    ensures u.row.first.Some? ==> Filled(u).row.first == u.row.first
    ensures u.row.last.Some? ==> Filled(u).row.last == u.row.last
    ensures Filled(u).id == u.id && Filled(u).row.full == u.row.full
    ensures !NeedsBackfill(Filled(u).row) && Filled(Filled(u)) == Filled(u)
  {}

  lemma PartlyFilledTrans(a: seq<User>, b: seq<User>, c: seq<User>, from: nat)
    requires PartlyFilled(a, b, from) && PartlyFilled(b, c, from)
    ensures PartlyFilled(a, c, from)
  {
    forall i | 0 <= i < |a| ensures c[i] == a[i] || (a[i].id > from && c[i] == Filled(a[i])) {
      FillKeepsStored(a[i]);
    }
  }

  lemma SameTable(original: seq<User>, finished: seq<User>)
    requires PartlyFilled(original, finished, 0) && AllNamed(finished)
    ensures finished == FillAll(original)
  {
    forall i | 0 <= i < |original| ensures finished[i] == FillAll(original)[i] {
      assert finished[i] in finished;
    }
  }

  lemma {:induction false} RemainingZero(users: seq<User>)
    ensures Remaining(users) == 0 <==> AllNamed(users)
    ensures AllNamed(users) <==> forall u :: u in users ==> u.row.first.Some? && u.row.last.Some?
  {
    if users != [] {
      RemainingZero(users[1..]);
      assert users == [users[0]] + users[1..];
    }
  }

  // ---------- what a batch selects ----------

  ghost predicate Selected(users: seq<User>, last: nat, n: nat, locked: set<nat>, batch: seq<User>) {
    && |batch| <= n && ByKey(batch)
    && (forall u | u in batch :: u in users && Due(u, last, locked))
    && (forall u | u in users && Due(u, last, locked) ::
          u in batch || (batch != [] && |batch| == n && u.id > batch[|batch| - 1].id))
  }

  lemma {:induction false} SelectIs(users: seq<User>, last: nat, n: nat, locked: set<nat>)
    requires ByKey(users) && n > 0
    ensures Selected(users, last, n, locked, Select(users, last, n, locked))
  {
    if users != [] {
      var tail := users[1..];
      assert users == [users[0]] + tail;
      if Due(users[0], last, locked) {
        if n == 1 {
          assert Select(users, last, n, locked) == [users[0]];
        } else {
          SelectIs(tail, last, n - 1, locked);
          SelectHead(users, last, n, locked);
        }
      } else {
        SelectIs(tail, last, n, locked);
      }
    }
  }

  lemma SelectHead(users: seq<User>, last: nat, n: nat, locked: set<nat>)
    requires users != [] && ByKey(users) && n > 1 && Due(users[0], last, locked)
    requires Selected(users[1..], last, n - 1, locked, Select(users[1..], last, n - 1, locked))
    ensures Selected(users, last, n, locked, Select(users, last, n, locked))
  {
    Prepend(users, Select(users[1..], last, n - 1, locked), last, n, locked);
  }

  lemma ByKeyPrepend(first: User, rest: seq<User>)
    requires first.id >= 1 && ByKey(rest) && forall u | u in rest :: first.id < u.id
    ensures ByKey([first] + rest)
  {
    var batch := [first] + rest;
    forall j | 0 < j < |batch| ensures batch[j] == rest[j - 1] && first.id < batch[j].id {
      assert rest[j - 1] in rest;
    }
  }

  lemma Prepend(users: seq<User>, rest: seq<User>, last: nat, n: nat, locked: set<nat>)
    requires users != [] && ByKey(users) && n > 1 && Due(users[0], last, locked)
    requires Selected(users[1..], last, n - 1, locked, rest)
    ensures Selected(users, last, n, locked, [users[0]] + rest)
  {
    var tail := users[1..];
    var batch := [users[0]] + rest;
    assert users == [users[0]] + tail;
    forall u | u in tail ensures u in users && users[0].id < u.id {
      var i :| 0 <= i < |tail| && tail[i] == u;
      assert users[i + 1] == u;
    }
    ByKeyPrepend(users[0], rest);
    forall u | u in users && Due(u, last, locked)
      ensures u in batch || (|batch| == n && u.id > batch[|batch| - 1].id)
    {
      if u != users[0] {
        assert u in tail;
      }
    }
  }

  // ---------- what a batch does ----------

  lemma {:induction false} RemainingUpdate(users: seq<User>, i: nat, u: User)
    requires i < |users| && NeedsBackfill(users[i].row) && !NeedsBackfill(u.row)
    ensures Remaining(users[i := u]) == Remaining(users) - 1
  {
    var after := users[i := u];
    if i == 0 {
      assert after[1..] == users[1..];
    } else {
      RemainingUpdate(users[1..], i - 1, u);
      assert after[1..] == users[1..][i - 1 := u];
    }
  }

  /** The rows before place i with this id are filled. */
  ghost predicate FilledBefore(before: seq<User>, now: seq<User>, i: nat, id: nat) {
    |now| == |before| && i <= |before|
    && (forall k :: 0 <= k < i ==> now[k] == if before[k].id == id then Filled(before[k]) else before[k])
    && forall k :: i <= k < |before| ==> now[k] == before[k]
  }

  lemma FillNext(before: seq<User>, now: seq<User>, i: nat, id: nat)
    requires i < |before| && FilledBefore(before, now, i, id)
    ensures var fill := before[i].id == id && NeedsBackfill(before[i].row);
      && now[i] == before[i]
      && FilledBefore(before, if fill then now[i := Filled(now[i])] else now, i + 1, id)
      && (fill ==> Remaining(now[i := Filled(now[i])]) == Remaining(now) - 1)
  {
    if NeedsBackfill(now[i].row) { RemainingUpdate(now, i, Filled(now[i])); }
  }

  lemma FillOneMore(users: seq<User>, ids: set<nat>, id: nat)
    ensures FillThose(FillThose(users, ids), {id}) == FillThose(users, ids + {id})
  {}

  lemma {:induction false} SelectAbove(users: seq<User>, last: nat, n: nat, locked: set<nat>)
    ensures forall u | u in Select(users, last, n, locked) :: u in users && Due(u, last, locked)
  {
    if users != [] && n > 0 {
      assert users == [users[0]] + users[1..];
      SelectAbove(users[1..], last, n - 1, locked);
      SelectAbove(users[1..], last, n, locked);
    }
  }

  /** A batch fills rows after the cursor only. */
  lemma BatchSparesCursor(users: seq<User>, last: nat, n: nat, locked: set<nat>, from: nat)
    requires from <= last
    ensures PartlyFilled(users, FillThose(users, IdsOf(Select(users, last, n, locked))), from)
  {
    SelectAbove(users, last, n, locked);
  }

  /** A batch fills only rows that lack a part, are behind the cursor, and are not locked by a request. */
  lemma BatchSkipsLocked(users: seq<User>, last: nat, n: nat, locked: set<nat>, i: nat)
    requires i < |users|
    ensures var after := FillThose(users, IdsOf(Select(users, last, n, locked)));
      after[i] != users[i] ==>
        users[i].id > last && users[i].id !in locked && (users[i].row.first.None? || users[i].row.last.None?)
  {
    SelectAbove(users, last, n, locked);
  }

  lemma FillKeepsKeys(users: seq<User>, ids: set<nat>)
    ensures ByKey(users) ==> ByKey(FillThose(users, ids))
    ensures NoneNewlyDue(users, FillThose(users, ids))
  {
    var after := FillThose(users, ids);
    assert forall i :: 0 <= i < |users| ==> after[i].id == users[i].id;
    forall u | u in after && NeedsBackfill(u.row) ensures u in users {
      var i :| 0 <= i < |after| && after[i] == u;
      FillKeepsStored(users[i]);
    }
  }

  /** The cursor moves forward, and between its old and its new place only locked rows are left without a name. */
  lemma BatchLeavesLocked(users: seq<User>, last: nat, n: nat, locked: set<nat>, batch: seq<User>)
    requires ByKey(users) && Selected(users, last, n, locked, batch) && batch != []
    ensures batch[|batch| - 1] in users && batch[|batch| - 1].id > last
    ensures forall u | u in FillThose(users, IdsOf(batch)) ::
              last < u.id <= batch[|batch| - 1].id && NeedsBackfill(u.row) ==> u.id in locked
  {
    assert batch[|batch| - 1] in batch;
    var after := FillThose(users, IdsOf(batch));
    forall u | u in after && last < u.id <= batch[|batch| - 1].id && NeedsBackfill(u.row) ensures u.id in locked {
      var i :| 0 <= i < |after| && after[i] == u;
      var was := users[i];
      assert was in users && (was in batch ==> was.id in IdsOf(batch));
    }
  }

  /** The row was locked by a request during some batch of the sweep. */
  ghost predicate LockedIn(meanwhile: (nat, nat) -> Requests, sweep: nat, id: nat) {
    exists b: nat :: id in meanwhile(sweep, b).locked
  }

  /** Rows between two places of the cursor that are still without a name were locked at some point of the sweep. */
  ghost predicate OnlyLockedLeft(users: seq<User>, from: nat, upTo: nat, meanwhile: (nat, nat) -> Requests, sweep: nat)
  {
    forall u :: u in users && from < u.id <= upTo && NeedsBackfill(u.row) ==> LockedIn(meanwhile, sweep, u.id)
  }

  /** The same for all rows after a place of the cursor. */
  ghost predicate OnlyLockedAfter(users: seq<User>, from: nat, meanwhile: (nat, nat) -> Requests, sweep: nat) {
    forall u :: u in users && from < u.id && NeedsBackfill(u.row) ==> LockedIn(meanwhile, sweep, u.id)
  }

  lemma LeftStaysExplained(before: seq<User>, now: seq<User>, from: nat, upTo: nat, meanwhile: (nat, nat) -> Requests,
                           sweep: nat)
    requires NoneNewlyDue(before, now)
    ensures OnlyLockedLeft(before, from, upTo, meanwhile, sweep) ==> OnlyLockedLeft(now, from, upTo, meanwhile, sweep)
    ensures OnlyLockedAfter(before, from, meanwhile, sweep) ==> OnlyLockedAfter(now, from, meanwhile, sweep)
  {}

  function MaxId(users: seq<User>): nat { if users == [] then 0 else users[|users| - 1].id }

  lemma UnderMaxId(users: seq<User>)
    requires ByKey(users)
    ensures forall u :: u in users ==> u.id <= MaxId(users)
  {}

  // ---------- stopping and resuming ----------

  /** A batch that commits, a new sweep from id 0, the end of the process and a new start, with or without the saved
    checkpoint, or a request that commits a row. */
  datatype Move = Batch(n: nat, locked: set<nat>) | NextSweep | Restarted(ignoreCheckpoint: bool) | Served(user: User)

  datatype Progress = Progress(users: seq<User>, cursor: nat, saved: Option<Checkpoint>)

  function After(p: Progress, m: Move): Progress {
    match m
    case NextSweep => p.(cursor := 0)
    case Served(u) => p.(users := Put(p.users, u))
    case Restarted(ignore) => p.(cursor := if ignore || p.saved.None? then 0 else p.saved.value.lastId)
    case Batch(n, locked) =>
      var batch := Select(p.users, p.cursor, n, locked);
      var users := FillThose(p.users, IdsOf(batch));
      FillingCounts(p.users, IdsOf(batch));
      if batch == [] then p
      else Progress(users, batch[|batch| - 1].id,
                    Some(Checkpoint(batch[|batch| - 1].id, RowsDone(p.saved) + Remaining(p.users) - Remaining(users))))
  }

  function AfterAll(p: Progress, moves: seq<Move>): Progress {
    if moves == [] then p else After(AfterAll(p, moves[..|moves| - 1]), moves[|moves| - 1])
  }

  lemma {:induction false} FillingCounts(users: seq<User>, ids: set<nat>)
    ensures Remaining(FillThose(users, ids)) <= Remaining(users)
  {
    if users != [] {
      FillingCounts(users[1..], ids);
      assert FillThose(users, ids)[1..] == FillThose(users[1..], ids);
    }
  }

  /** What the requests alone make of the table. */
  function Written(users: seq<User>, moves: seq<Move>): seq<User> {
    if moves == [] then users
    else
      var before, last := Written(users, moves[..|moves| - 1]), moves[|moves| - 1];
      if last.Served? then Put(before, last.user) else before
  }

  /** Whatever the batch sizes, locks, sweeps, stops, resumptions and writes in between: every row is as the requests
    left it, or that filled; and once nobody lacks a name the table is that of the requests alone, filled at the end. */
  lemma {:induction false} AnyRouteSameTable(start: Progress, moves: seq<Move>)
    ensures var end := AfterAll(start, moves);
      && PartlyFilled(Written(start.users, moves), end.users, 0)
      && (AllNamed(end.users) ==> end.users == FillAll(Written(start.users, moves)))
  {
    if moves != [] {
      var front := moves[..|moves| - 1];
      AnyRouteSameTable(start, front);
      MoveKeepsPartly(Written(start.users, front), AfterAll(start, front), moves[|moves| - 1]);
    }
    if AllNamed(AfterAll(start, moves).users) {
      SameTable(Written(start.users, moves), AfterAll(start, moves).users);
    }
  }

  lemma MoveKeepsPartly(written: seq<User>, p: Progress, m: Move)
    requires PartlyFilled(written, p.users, 0)
    ensures PartlyFilled(if m.Served? then Put(written, m.user) else written, After(p, m).users, 0)
  {
    match m
    case Served(u) => PutPartly(written, p.users, u, 0);
    case Batch(n, locked) =>
      BatchSparesCursor(p.users, p.cursor, n, locked, 0);
      PartlyFilledTrans(written, p.users, FillThose(p.users, IdsOf(Select(p.users, p.cursor, n, locked))), 0);
    case _ =>
  }

  class Job {
    var users: seq<User>
    var saved: Option<Checkpoint>

    constructor (initial: seq<User>, checkpoint: Option<Checkpoint>)
      ensures users == initial && saved == checkpoint
    {
      users, saved := initial, checkpoint;
    }

    method SelectBatch(last: nat, n: nat, locked: set<nat>) returns (rows: seq<User>)
      ensures rows == Select(users, last, n, locked)
    {
      rows := [];
      for i := 0 to |users|
        invariant |rows| <= n
        invariant rows + Select(users[i..], last, n - |rows|, locked) == Select(users, last, n, locked)
      {
        assert users[i..][1..] == users[i + 1..];
        if |rows| < n && Due(users[i], last, locked) {
          rows := rows + [users[i]];
        }
      }
    }

    /** The guarded update of one row; returns the row count. */
    method UpdateRow(id: nat) returns (rowCount: nat)
      modifies this`users
      ensures users == FillThose(old(users), {id})
      ensures rowCount == Remaining(old(users)) - Remaining(users)
    {
      rowCount := 0;
      for i := 0 to |users|
        invariant FilledBefore(old(users), users, i, id)
        invariant rowCount == Remaining(old(users)) - Remaining(users)
      {
        FillNext(old(users), users, i, id);
        if users[i].id == id && NeedsBackfill(users[i].row) {
          users := users[i := Filled(users[i])];
          rowCount := rowCount + 1;
        }
      }
    }

    method CountRemaining() returns (count: nat)
      ensures count == Remaining(users)
    {
      count := 0;
      for i := 0 to |users|
        invariant count + Remaining(users[i..]) == Remaining(users)
      {
        assert users[i..][1..] == users[i + 1..];
        if NeedsBackfill(users[i].row) {
          count := count + 1;
        }
      }
    }

    /** One transaction: fill up to n unlocked rows after the cursor and save the checkpoint. */
    method RunBatch(lastId: nat, n: nat, locked: set<nat>) returns (updated: nat, newLast: nat, seen: nat)
      requires n > 0
      modifies this
      ensures var batch := Select(old(users), lastId, n, locked);
        && users == FillThose(old(users), IdsOf(batch)) && seen == |batch|
        && newLast == (if batch == [] then lastId else batch[|batch| - 1].id)
        && saved == (if batch == [] then old(saved) else Some(Checkpoint(newLast, RowsDone(old(saved)) + updated)))
      ensures updated == Remaining(old(users)) - Remaining(users)
    {
      var rows := SelectBatch(lastId, n, locked);
      if rows == [] {
        assert users == FillThose(users, {});
        return 0, lastId, 0;
      }
      updated := 0;
      assert users == FillThose(users, IdsOf(rows[..0]));
      for k := 0 to |rows|
        invariant saved == old(saved)
        invariant users == FillThose(old(users), IdsOf(rows[..k]))
        invariant updated == Remaining(old(users)) - Remaining(users)
      {
        var rowCount := UpdateRow(rows[k].id);
        updated := updated + rowCount;
        FillOneMore(old(users), IdsOf(rows[..k]), rows[k].id);
        assert rows[..k + 1] == rows[..k] + [rows[k]];
        assert IdsOf(rows[..k + 1]) == IdsOf(rows[..k]) + {rows[k].id};
      }
      assert rows[..|rows|] == rows;
      newLast, seen := rows[|rows| - 1].id, |rows|;
      saved := Some(Checkpoint(newLast, RowsDone(saved) + updated));
    }

    /** Requests commit their rows between two transactions of the job. */
    method Serve(writes: seq<User>)
      modifies this`users
      ensures users == PutAll(old(users), writes)
    {
      for i := 0 to |writes|
        invariant users == PutAll(old(users), writes[..i])
      {
        assert writes[..i + 1][..i] == writes[..i];
        users := Put(users, writes[i]);
      }
      assert writes[..|writes|] == writes;
    }

    /** One sweep: batches until none is left after the cursor, and what requests still write before the count. */
    method Sweep(sweep: nat, start: nat, n: nat, meanwhile: (nat, nat) -> Requests)
      returns (total: nat, ghost writes: seq<User>)
      requires ByKey(users) && n > 0 && DualWrites(meanwhile)
      modifies this
      ensures Kept(old(users), writes, users, start, total)
      ensures OnlyLockedAfter(users, start, meanwhile, sweep)
    {
      total, writes := SweepBatches(sweep, start, n, meanwhile);
      ghost var before := users;
      Serve(meanwhile(sweep, 0).writes);
      ServeKeeps(old(users), writes, before, meanwhile(sweep, 0).writes, start, total);
      LeftStaysExplained(before, users, start, start, meanwhile, sweep);
      writes := writes + meanwhile(sweep, 0).writes;
    }

    /** The batches end, because the cursor only moves forward and requests add no row to fill. */
    method SweepBatches(sweep: nat, start: nat, n: nat, meanwhile: (nat, nat) -> Requests)
      returns (total: nat, ghost writes: seq<User>)
      requires ByKey(users) && n > 0 && DualWrites(meanwhile)
      modifies this
      ensures Kept(old(users), writes, users, start, total)
      ensures OnlyLockedAfter(users, start, meanwhile, sweep)
    {
      ghost var original := users;
      total, writes := 0, [];
      var lastId := start;
      var batchNo := 1;
      KeptAtFirst(users, start);
      while true
        invariant Swept(original, writes, users, start, lastId, total, meanwhile, sweep)
        decreases MaxId(original) - lastId
      {
        BatchRound(original, writes, users, start, lastId, n, total, meanwhile, sweep, batchNo);
        writes := writes + meanwhile(sweep, batchNo).writes;
        Serve(meanwhile(sweep, batchNo).writes);
        var updated, newLast, seen := RunBatch(lastId, n, meanwhile(sweep, batchNo).locked);
        total := total + updated;
        if seen == 0 {
          break;
        }
        lastId := newLast;
        batchNo := batchNo + 1;
      }
    }
  }

  /** Where a sweep is when the cursor has reached `last`. */
  ghost predicate Swept(original: seq<User>, writes: seq<User>, users: seq<User>, start: nat, last: nat, total: nat,
                        meanwhile: (nat, nat) -> Requests, sweep: nat)
  {
    start <= last && Kept(original, writes, users, start, total) && OnlyLockedLeft(users, start, last, meanwhile, sweep)
  }

  /** What requests write before a batch, and the batch. */
  lemma BatchRound(original: seq<User>, writes: seq<User>, users: seq<User>, start: nat, last: nat, n: nat, total: nat,
                   meanwhile: (nat, nat) -> Requests, sweep: nat, batchNo: nat)
    requires ByKey(original) && n > 0 && DualWrites(meanwhile)
    requires Swept(original, writes, users, start, last, total, meanwhile, sweep)
    ensures var served := PutAll(users, meanwhile(sweep, batchNo).writes);
      var batch := Select(served, last, n, meanwhile(sweep, batchNo).locked);
      var now := FillThose(served, IdsOf(batch));
      var written := writes + meanwhile(sweep, batchNo).writes;
      var done := total + Remaining(served) - Remaining(now);
      && done >= total
      && if batch == [] then Kept(original, written, now, start, done) && OnlyLockedAfter(now, start, meanwhile, sweep)
         else last < batch[|batch| - 1].id <= MaxId(original)
              && Swept(original, written, now, start, batch[|batch| - 1].id, done, meanwhile, sweep)
  {
    var requests := meanwhile(sweep, batchNo);
    var served := PutAll(users, requests.writes);
    var written := writes + requests.writes;
    ServeKeeps(original, writes, users, requests.writes, start, total);
    LeftStaysExplained(users, served, start, last, meanwhile, sweep);
    BatchKeeps(original, written, served, start, last, n, requests.locked, total);
    AfterBatch(served, FillThose(served, IdsOf(Select(served, last, n, requests.locked))), start, last, n,
               meanwhile, sweep, batchNo);
    if Select(served, last, n, requests.locked) != [] {
      DueWasThere(original, served, last, n, requests.locked);
    }
  }

  /** The table after some writes of requests and some filling after a place of the cursor; `total` rows were filled. */
  ghost predicate Kept(original: seq<User>, writes: seq<User>, now: seq<User>, from: nat, total: nat) {
    && ByKey(now) && PartlyFilled(PutAll(original, writes), now, from) && NoneNewlyDue(original, now)
    && total <= Remaining(original) - Remaining(now) && (writes == [] ==> total == Remaining(original) - Remaining(now))
  }

  lemma KeptAtFirst(users: seq<User>, from: nat)
    requires ByKey(users)
    ensures Kept(users, [], users, from, 0)
  {}

  /** Sweeps, batches and writes one after the other. */
  lemma KeptTwice(original: seq<User>, writes: seq<User>, mid: seq<User>, total: nat,
                  more: seq<User>, now: seq<User>, updated: nat, from: nat)
    requires Kept(original, writes, mid, from, total) && Kept(mid, more, now, from, updated)
    ensures Kept(original, writes + more, now, from, total + updated)
  {
    PutAllPartly(PutAll(original, writes), mid, more, from);
    PutAllTwice(original, writes, more);
    PartlyFilledTrans(PutAll(original, writes + more), PutAll(mid, more), now, from);
  }

  lemma ServeKeeps(original: seq<User>, writes: seq<User>, users: seq<User>, served: seq<User>, from: nat, total: nat)
    requires Kept(original, writes, users, from, total) && BothParts(served)
    ensures Kept(original, writes + served, PutAll(users, served), from, total)
            && NoneNewlyDue(users, PutAll(users, served))
  {
    PutAllIs(users, served);
    assert Kept(users, served, PutAll(users, served), from, 0);
    KeptTwice(original, writes, users, total, served, PutAll(users, served), 0, from);
  }

  lemma BatchKeeps(original: seq<User>, writes: seq<User>, users: seq<User>, from: nat, last: nat, n: nat,
                   locked: set<nat>, total: nat)
    requires Kept(original, writes, users, from, total) && from <= last
    ensures var now := FillThose(users, IdsOf(Select(users, last, n, locked)));
      && Remaining(now) <= Remaining(users)
      && Kept(original, writes, now, from, total + (Remaining(users) - Remaining(now)))
  {
    var ids := IdsOf(Select(users, last, n, locked));
    var now := FillThose(users, ids);
    FillingCounts(users, ids);
    FillKeepsKeys(users, ids);
    BatchSparesCursor(users, last, n, locked, from);
    assert Kept(users, [], now, from, Remaining(users) - Remaining(now));
    KeptTwice(original, writes, users, total, [], now, Remaining(users) - Remaining(now), from);
    assert writes + [] == writes;
  }

  /** The cursor never passes the last row that lacked a name at the start. */
  lemma DueWasThere(original: seq<User>, users: seq<User>, last: nat, n: nat, locked: set<nat>)
    requires ByKey(original) && NoneNewlyDue(original, users)
    requires Select(users, last, n, locked) != []
    ensures var batch := Select(users, last, n, locked); last < batch[|batch| - 1].id <= MaxId(original)
  {
    var batch := Select(users, last, n, locked);
    SelectAbove(users, last, n, locked);
    assert batch[|batch| - 1] in batch;
    UnderMaxId(original);
  }

  /** The table as the migration sees it. */
  ghost predicate IsTable(users: seq<User>, table: map<nat, Row>) {
    table.Keys == IdsOf(users) && forall u | u in users :: table[u.id] == u.row
  }

  lemma FilledRow(users: seq<User>, ids: set<nat>, table: map<nat, Row>, i: nat)
    requires IsTable(users, table) && i < |users|
    ensures var after := FillThose(users, ids);
      after[i].id == users[i].id && users[i].id in table && BackfillThose(table, ids)[users[i].id] == after[i].row
  {
    assert users[i] in users;
  }

  lemma SameIds(users: seq<User>, after: seq<User>)
    requires |users| == |after| && forall i :: 0 <= i < |users| ==> after[i].id == users[i].id
    ensures IdsOf(after) == IdsOf(users)
  {
    forall u | u in users ensures u.id in IdsOf(after) {
      var i :| 0 <= i < |users| && users[i] == u;
      assert after[i] in after;
    }
    forall u | u in after ensures u.id in IdsOf(users) {
      var i :| 0 <= i < |users| && after[i] == u;
      assert users[i] in users;
    }
  }

  /** A batch of the job is one backfill step of the migration. */
  lemma BatchIsMigrationStep(users: seq<User>, ids: set<nat>, table: map<nat, Row>)
    requires IsTable(users, table)
    ensures IsTable(FillThose(users, ids), BackfillThose(table, ids))
  {
    var after := FillThose(users, ids);
    forall i | 0 <= i < |users|
      ensures after[i].id == users[i].id && users[i].id in table
              && BackfillThose(table, ids)[users[i].id] == after[i].row
    {
      FilledRow(users, ids, table, i);
    }
    SameIds(users, after);
  }

  function RowsDone(saved: Option<Checkpoint>): nat { if saved.Some? then saved.value.rowsDone else 0 }

  lemma AfterBatch(was: seq<User>, now: seq<User>, start: nat, last: nat, n: nat, meanwhile: (nat, nat) -> Requests,
                   sweep: nat, batchNo: nat)
    requires ByKey(was) && n > 0 && start <= last && OnlyLockedLeft(was, start, last, meanwhile, sweep)
    requires now == FillThose(was, IdsOf(Select(was, last, n, meanwhile(sweep, batchNo).locked)))
    ensures var batch := Select(was, last, n, meanwhile(sweep, batchNo).locked);
      if batch == [] then OnlyLockedAfter(now, start, meanwhile, sweep)
      else last < batch[|batch| - 1].id && OnlyLockedLeft(now, start, batch[|batch| - 1].id, meanwhile, sweep)
  {
    var locked := meanwhile(sweep, batchNo).locked;
    var batch := Select(was, last, n, locked);
    FillKeepsKeys(was, IdsOf(batch));
    LeftStaysExplained(was, now, start, last, meanwhile, sweep);
    SelectIs(was, last, n, locked);
    if batch != [] {
      BatchLeavesLocked(was, last, n, locked, batch);
    }
  }

  /** The whole command. `meanwhile` says what requests write before each batch of each sweep, and which rows they hold
    during it. */
  class Command {
    const job: Job

    constructor (j: Job)
      ensures job == j
    {
      job := j;
    }

    /** Exit code 0 means nobody lacks a name, and then the table is what the requests alone would have left, filled. A
      row left over was locked at some point of every sweep from id 0. */
    method Run(batchSize: nat, dryRun: bool, restart: bool, meanwhile: (nat, nat) -> Requests)
      returns (exit: int, total: nat, ghost writes: seq<User>)
      requires ByKey(job.users) && 1 <= batchSize <= 500 && DualWrites(meanwhile)
      modifies job
      ensures dryRun ==> exit == 0 && total == 0 && job.users == old(job.users) && job.saved == old(job.saved)
      ensures Kept(old(job.users), writes, job.users, 0, total)
      ensures !dryRun ==> (exit == 0 <==> AllNamed(job.users)) && exit in {0, 1}
      ensures !dryRun && exit == 0 ==> job.users == FillAll(PutAll(old(job.users), writes))
      ensures !dryRun && exit == 1 ==> LockedEverySweep(job.users, meanwhile, 2, 5)
      ensures NeverLocked(meanwhile) ==> exit == 0
    {
      total, writes := 0, [];
      KeptAtFirst(job.users, 0);
      if dryRun {
        return 0, 0, [];
      }
      var remaining := job.CountRemaining();
      var lastId: nat := if restart || job.saved.None? then 0 else job.saved.value.lastId;
      for sweep := 1 to MAX_SWEEPS + 1
        invariant Kept(old(job.users), writes, job.users, 0, total)
        invariant sweep > 1 ==> lastId == 0 && remaining == Remaining(job.users) > 0
        invariant Explained(job.users, meanwhile, sweep)
      {
        ghost var was := job.users;
        var updated;
        ghost var more;
        updated, more := job.Sweep(sweep, lastId, batchSize, meanwhile);
        AfterSweep(old(job.users), writes, was, total, more, job.users, updated, meanwhile, sweep, lastId);
        total := total + updated;
        writes := writes + more;
        remaining := job.CountRemaining();
        if remaining == 0 {
          break;
        }
        lastId := 0;
      }
      exit := if remaining == 0 then 0 else 1;
      ExitMeans(old(job.users), writes, job.users, meanwhile);
    }
  }

  ghost predicate NeverLocked(meanwhile: (nat, nat) -> Requests) {
    forall sweep: nat, b: nat :: meanwhile(sweep, b).locked == {}
  }

  /** Every row without a name was locked at some point of each of these sweeps. */
  ghost predicate LockedEverySweep(users: seq<User>, meanwhile: (nat, nat) -> Requests, from: nat, to: nat) {
    forall sweep: nat, u | from <= sweep <= to && u in users && NeedsBackfill(u.row) :: LockedIn(meanwhile, sweep, u.id)
  }

  /** What is left was locked at some point of each sweep from id 0 so far. */
  ghost predicate Explained(users: seq<User>, meanwhile: (nat, nat) -> Requests, upTo: nat) {
    forall k: nat :: 2 <= k < upTo ==> OnlyLockedAfter(users, 0, meanwhile, k)
  }

  lemma AfterSweep(original: seq<User>, writes: seq<User>, was: seq<User>, total: nat, more: seq<User>, now: seq<User>,
                   updated: nat, meanwhile: (nat, nat) -> Requests, sweep: nat, start: nat)
    requires Kept(original, writes, was, 0, total) && Kept(was, more, now, start, updated)
    requires Explained(was, meanwhile, sweep) && OnlyLockedAfter(now, start, meanwhile, sweep)
    requires sweep > 1 ==> start == 0
    ensures Kept(original, writes + more, now, 0, total + updated) && Explained(now, meanwhile, sweep + 1)
  {
    KeptTwice(original, writes, was, total, more, now, updated, 0);
    ExplainedOn(was, now, meanwhile, sweep);
  }

  lemma ExplainedOn(was: seq<User>, now: seq<User>, meanwhile: (nat, nat) -> Requests, sweep: nat)
    requires NoneNewlyDue(was, now) && Explained(was, meanwhile, sweep)
    requires sweep > 1 ==> OnlyLockedAfter(now, 0, meanwhile, sweep)
    ensures Explained(now, meanwhile, sweep + 1)
  {
    forall k: nat | 2 <= k < sweep ensures OnlyLockedAfter(now, 0, meanwhile, k) {
      LeftStaysExplained(was, now, 0, 0, meanwhile, k);
    }
  }

  lemma NotLocked(meanwhile: (nat, nat) -> Requests, sweep: nat, id: nat)
    requires NeverLocked(meanwhile)
    ensures !LockedIn(meanwhile, sweep, id)
  {}

  lemma ExitMeans(original: seq<User>, writes: seq<User>, now: seq<User>, meanwhile: (nat, nat) -> Requests)
    requires ByKey(now) && PartlyFilled(PutAll(original, writes), now, 0)
    ensures Remaining(now) == 0 <==> AllNamed(now)
    ensures AllNamed(now) ==> now == FillAll(PutAll(original, writes))
    ensures Explained(now, meanwhile, MAX_SWEEPS + 1) ==> LockedEverySweep(now, meanwhile, 2, MAX_SWEEPS)
    ensures Explained(now, meanwhile, MAX_SWEEPS + 1) && NeverLocked(meanwhile) ==> AllNamed(now)
  {
    RemainingZero(now);
    if AllNamed(now) { SameTable(PutAll(original, writes), now); }
    if Explained(now, meanwhile, MAX_SWEEPS + 1) {
      forall sweep: nat, u | 2 <= sweep <= MAX_SWEEPS && u in now && NeedsBackfill(u.row)
        ensures LockedIn(meanwhile, sweep, u.id)
      {
        assert OnlyLockedAfter(now, 0, meanwhile, sweep);
      }
      if NeverLocked(meanwhile) {
        forall u | u in now && NeedsBackfill(u.row) ensures false {
          NotLocked(meanwhile, 2, u.id);
        }
      }
    }
  }
}
