/** The name logic of create_user and update_user, and the two directions of revision 0005, as the steps of the code. */
module Accounts {
  import opened Wrappers
  import opened Text
  import opened Names
  import opened Migration

  datatype Refusal = UserNotFound | NoSuchColumn

  /** One try of DROP COLUMN: done, refused because the table is locked, or failed otherwise. */
  datatype DropTry = Dropped | LockNotAvailable | Failed

  datatype Contraction = Contracted | NotReady | GaveUp

  const DROP_ATTEMPTS := 5
  const REFILL_BATCH := 1000

  /** Which rows a refill up to (not including) an id has reached. */
  ghost predicate RefilledBelow(before: map<nat, Row>, now: map<nat, Row>, start: nat) {
    now.Keys == before.Keys
    && forall id | id in before :: now[id] == if id < start then Refilled(before[id]) else before[id]
  }

  class UserTable {
    var users: map<nat, Row>
    var column: bool

    constructor (initial: map<nat, Row>)
      ensures users == initial && column
    {
      users, column := initial, true;
    }

    /** The insert names full_name only when the mode writes it. */
    method CreateUser(id: nat, p: Payload, writeMode: WriteMode, readSource: ReadSource)
      returns (r: Result<Row, Refusal>)
      requires id !in users
      modifies this`users
      ensures r.Err? <==> !column && writeMode != WriteNew
      ensures r.Err? ==> users == old(users)
      ensures r.Ok? ==> users == old(users)[id := Created(p, writeMode)]
      ensures r.Ok? ==> r.value == View(Created(p, writeMode), readSource)
    {
      var target: Row;
      match p {
        case Whole(full) => target := ResolveNames(Some(full), None, None, writeMode);
        case Parts(first, last) => target := ResolveNames(None, first, last, writeMode);
      }
      if writeMode != WriteNew && !column {
        return Err(NoSuchColumn);
      }
      var stored := Row(None, target.first, target.last);
      if writeMode != WriteNew {
        stored := Row(target.full, target.first, target.last);
      }
      users := users[id := stored];
      r := Ok(View(stored, readSource));
    }

    /** Read the row under its lock, overlay what was sent, write what the mode writes. */
    method UpdateUser(id: nat, p: Payload, writeMode: WriteMode, readSource: ReadSource)
      returns (r: Result<Row, Refusal>)
      modifies this`users
      ensures r.Err? ==> users == old(users)
      ensures r == Err(NoSuchColumn) <==> !column && (writeMode != WriteNew || readSource != ReadNew)
      ensures r == Err(UserNotFound) <==> r != Err(NoSuchColumn) && id !in old(users)
      ensures r.Ok? ==> id in old(users) && users == old(users)[id := Updated(old(users)[id], p, writeMode, readSource)]
      ensures r.Ok? ==> id in users && r.value == View(users[id], readSource)
      ensures r.Ok? && writeMode != WriteLegacy && p.Parts? && WordsOf(p.first) != [] ==>
        users[id].first == Some(Strip(p.first.value)) && (p.last.Some? ==> users[id].last == Some(Trimmed(p.last)))
    {
      var includeLegacy := writeMode != WriteNew || readSource != ReadNew;
      if includeLegacy && !column {
        return Err(NoSuchColumn);
      }
      if id !in users {
        return Err(UserNotFound);
      }
      var user := users[id];
      var target := Overlay(user, p, writeMode, readSource, includeLegacy);
      if writeMode != WriteNew {
        user := Row(target.full, user.first, user.last);
      }
      if writeMode != WriteLegacy {
        user := Row(user.full, target.first, target.last);
      }
      if p.Parts? && WordsOf(p.first) != [] && writeMode != WriteLegacy {
        SentPartsStored(users[id], p, writeMode, readSource);
      }
      users := users[id := user];
      r := Ok(View(user, readSource));
    }

    /** What an update asks for, the part that is not sent filled in from the row. */
    static method Overlay(user: Row, p: Payload, writeMode: WriteMode, readSource: ReadSource, includeLegacy: bool)
      returns (target: Row)
      requires includeLegacy == (writeMode != WriteNew || readSource != ReadNew)
      ensures target == Target(user, p, writeMode, readSource)
    {
      match p {
        case Whole(full) =>
          target := ResolveNames(Some(full), None, None, writeMode);
        case Parts(sentFirst, sentLast) =>
          var first, last := user.first, user.last;
          if first == None && includeLegacy && Truthy(user.full) {
            var (head, tail) := SplitFullName(user.full);
            first, last := Some(head), Some(tail);
          }
          if sentFirst.Some? { first := sentFirst; }
          if sentLast.Some? { last := sentLast; }
          target := ResolveNames(None, first, last, writeMode);
      }
    }

    /** Drops the column only when both flags say `new` and nobody lacks a name; retries while the table is locked. */
    method Upgrade(writeMode: WriteMode, readSource: ReadSource, tries: seq<DropTry>) returns (r: Contraction)
      requires column && |tries| == 5
      modifies this
      ensures r == NotReady <==>
        !(writeMode == WriteNew && readSource == ReadNew
          && forall id | id in old(users) :: old(users)[id].first.Some? && old(users)[id].last.Some?)
      ensures r == Contracted ==> !column && users == DropColumn(old(users))
      ensures r != Contracted ==> column && users == old(users)
      ensures r != NotReady ==>
        (r == Contracted <==> exists k :: 0 <= k < 5 && tries[k] == Dropped
                                          && forall j :: 0 <= j < k ==> tries[j] == LockNotAvailable)
    {
      if writeMode != WriteNew || readSource != ReadNew {
        return NotReady;
      }
      if !Complete(users) {
        return NotReady;
      }
      for attempt := 0 to DROP_ATTEMPTS
        invariant column && users == old(users)
        invariant forall j :: 0 <= j < attempt ==> tries[j] == LockNotAvailable
      {
        match tries[attempt] {
          case Dropped =>
            column, users := false, DropColumn(users);
            return Contracted;
          case LockNotAvailable =>
          case Failed =>
            return GaveUp;
        }
      }
      r := GaveUp;
    }

    /** `SELECT min(id), max(id)`. */
    method IdRange() returns (low: nat, high: nat)
      requires users != map[]
      ensures low in users && high in users && forall id | id in users :: low <= id <= high
    {
      var left := users.Keys;
      var first :| first in left;
      low, high := first, first;
      left := left - {first};
      while left != {}
        invariant left <= users.Keys && low in users && high in users && low <= high
        invariant forall id | id in users :: id in left || low <= id <= high
        decreases left
      {
        var id :| id in left;
        if id < low { low := id; }
        if high < id { high := id; }
        left := left - {id};
      }
    }

    /** Adds the column back and refills it, one id range at a time. */
    method Downgrade()
      requires !column
      modifies this
      ensures column && users == map id | id in old(users) :: Refilled(old(users)[id].(full := None))
    {
      column, users := true, DropColumn(users);
      if users == map[] {
        return;
      }
      var low, high := IdRange();
      ghost var before := users;
      var start := low;
      while start <= high
        invariant column && low <= start && RefilledBelow(before, users, start)
        decreases high + REFILL_BATCH - start
      {
        users := RefillRange(users, start, start + REFILL_BATCH);
        start := start + REFILL_BATCH;
      }
    }
  }
}
