/** Step 1, 2 and 3 of a booking before any write: validate, price, sort into the global seat order, group by zone. */
module Booking {
  import opened Wrappers
  import opened Sums
  import opened Text
  import opened Store

  /** A requested ticket, as the client spells it. */
  datatype Item = Item(event: string, zone: string, seat: Option<string>)

  /** Event id -> its zones in document order. */
  datatype Offer = Offer(name: string, capacity: nat, price: nat)
  type Catalog = map<string, seq<Offer>>

  datatype BadItem = InvalidEventId | EventNotFound | ZoneNotFound

  predicate IsHex(c: char) { '0' <= c <= '9' || 'a' <= c <= 'f' || 'A' <= c <= 'F' }

  /** ObjectId(raw): 24 hexadecimal digits, spelled in lower case. */
  function ObjectId(raw: string): Option<string> {
    if |raw| == 24 && forall i :: 0 <= i < 24 ==> IsHex(raw[i]) then Some(Lower(raw)) else None
  }

  function CanonicalEventId(raw: string): string {
    match ObjectId(raw)
    case Some(id) => id
    case None => raw
  }

  function ZoneName(zone: string): string { Lower(Strip(zone)) }

  function CleanSeat(seat: Option<string>): Option<string> {
    if seat.None? || Strip(seat.value) == "" then None else Some(Strip(seat.value))
  }

  /** The first zone of the document whose name matches, ignoring case and surrounding blanks. */
  function MatchZone(offers: seq<Offer>, wanted: string): (r: Option<Offer>)
    ensures r.Some? ==> r.value in offers && ZoneName(r.value.name) == ZoneName(wanted)
    ensures r.None? ==> forall o :: o in offers ==> ZoneName(o.name) != ZoneName(wanted)
  {
    if offers == [] then None
    else if ZoneName(offers[0].name) == ZoneName(wanted) then Some(offers[0])
    else MatchZone(offers[1..], wanted)
  }

  function Validate(catalog: Catalog, item: Item): Result<Line, BadItem> {
    match ObjectId(item.event)
    case None => Err(InvalidEventId)
    case Some(id) =>
      if id !in catalog then Err(EventNotFound)
      else
        match MatchZone(catalog[id], item.zone)
        case None => Err(ZoneNotFound)
        case Some(offer) => Ok(Line(ZoneKey(id, offer.name), CleanSeat(item.seat), offer.price))
  }

  /** Every item in order; the first bad one decides the error. */
  function ValidateAll(catalog: Catalog, items: seq<Item>): Result<seq<Line>, BadItem> {
    if items == [] then Ok([])
    else
      match ValidateAll(catalog, items[..|items| - 1])
      case Err(e) => Err(e)
      case Ok(lines) =>
        match Validate(catalog, items[|items| - 1])
        case Err(e) => Err(e)
        case Ok(line) => Ok(lines + [line])
  }

  lemma {:induction false} ValidateAllPrefixError(catalog: Catalog, items: seq<Item>, i: nat)
    requires i <= |items| && ValidateAll(catalog, items[..i]).Err?
    ensures ValidateAll(catalog, items) == ValidateAll(catalog, items[..i])
    decreases |items|
  {
    if i == |items| {
      assert items[..i] == items;
    } else {
      var front := items[..|items| - 1];
      assert front[..i] == items[..i];
      ValidateAllPrefixError(catalog, front, i);
    }
  }

  /** A zone is on sale at this price. */
  ghost predicate Offered(catalog: Catalog, line: Line) {
    line.key.event in catalog
    && exists o :: o in catalog[line.key.event] && o.name == line.key.zone && o.price == line.price
  }

  lemma {:induction false} ValidatedLinesOffered(catalog: Catalog, items: seq<Item>)
    requires ValidateAll(catalog, items).Ok?
    ensures var lines := ValidateAll(catalog, items).value;
            |lines| == |items| && forall l :: l in lines ==> Offered(catalog, l)
  {
    if items != [] {
      ValidatedLinesOffered(catalog, items[..|items| - 1]);
    }
  }

  // ---------- the global seat order ----------

  function SeatText(l: Line): string { if l.seat.Some? then l.seat.value else "" }

  /** `_lock_order_key(a) < _lock_order_key(b)`: event, then zone, then seat. */
  predicate LockBefore(a: Line, b: Line) {
    Before(a.key.event, b.key.event)
    || (a.key.event == b.key.event
        && (Before(a.key.zone, b.key.zone) || (a.key.zone == b.key.zone && Before(SeatText(a), SeatText(b)))))
  }

  lemma LockBeforeTransitive(a: Line, b: Line, c: Line)
    requires LockBefore(a, b) && LockBefore(b, c)
    ensures LockBefore(a, c)
  {
    if Before(a.key.event, b.key.event) && Before(b.key.event, c.key.event) {
      BeforeTransitive(a.key.event, b.key.event, c.key.event);
    } else if a.key.event == b.key.event == c.key.event {
      if Before(a.key.zone, b.key.zone) && Before(b.key.zone, c.key.zone) {
        BeforeTransitive(a.key.zone, b.key.zone, c.key.zone);
      } else if a.key.zone == b.key.zone == c.key.zone {
        BeforeTransitive(SeatText(a), SeatText(b), SeatText(c));
      }
    }
  }

  /** Not before either way: the same event, zone and seat text. */
  lemma LockBeforeTotal(a: Line, b: Line)
    ensures LockBefore(a, b) || LockBefore(b, a) || (a.key == b.key && SeatText(a) == SeatText(b))
    ensures !LockBefore(a, a)
  {
    BeforeTotal(a.key.event, b.key.event);
    BeforeTotal(a.key.zone, b.key.zone);
    BeforeTotal(SeatText(a), SeatText(b));
    BeforeIrreflexive(a.key.event);
    BeforeIrreflexive(a.key.zone);
    BeforeIrreflexive(SeatText(a));
  }

  ghost predicate InLockOrder(lines: seq<Line>) {
    forall i, j :: 0 <= i < j < |lines| ==> !LockBefore(lines[j], lines[i])
  }

  function Insert(l: Line, sorted: seq<Line>): seq<Line> {
    if sorted == [] || LockBefore(l, sorted[0]) then [l] + sorted else [sorted[0]] + Insert(l, sorted[1..])
  }

  /** A stable sort by lock order. */
  function SortLines(lines: seq<Line>): seq<Line> {
    if lines == [] then [] else Insert(lines[|lines| - 1], SortLines(lines[..|lines| - 1]))
  }

  lemma {:induction false} InsertKeepsOrder(l: Line, sorted: seq<Line>)
    requires InLockOrder(sorted)
    ensures InLockOrder(Insert(l, sorted))
    ensures multiset(Insert(l, sorted)) == multiset(sorted) + multiset{l}
  {
    var r := Insert(l, sorted);
    if sorted == [] || LockBefore(l, sorted[0]) {
      forall j | 1 <= j < |r| ensures !LockBefore(r[j], l) {
        LockBeforeTotal(sorted[0], sorted[0]);
        if LockBefore(r[j], l) { LockBeforeTransitive(r[j], l, sorted[0]); }
      }
    } else {
      var tail := sorted[1..];
      assert sorted == [sorted[0]] + tail;
      InsertKeepsOrder(l, tail);
      forall j | 1 <= j < |r| ensures !LockBefore(r[j], sorted[0]) {
        assert r[j] == Insert(l, tail)[j - 1];
        assert r[j] in multiset(Insert(l, tail));
        if r[j] != l {
          assert r[j] in tail;
        }
      }
    }
  }

  /** Every booking takes its seats in the one global order, whatever order the client sent. */
  lemma {:induction false} SortedInLockOrder(lines: seq<Line>)
    ensures InLockOrder(SortLines(lines))
    ensures multiset(SortLines(lines)) == multiset(lines)
  {
    if lines != [] {
      var n := |lines| - 1;
      SortedInLockOrder(lines[..n]);
      InsertKeepsOrder(lines[n], SortLines(lines[..n]));
      assert lines == lines[..n] + [lines[n]];
    }
  }

  /** The sorted order, said of its lines: by event, then by zone, then by seat. */
  lemma SortedByEventZoneSeat(lines: seq<Line>, i: nat, j: nat)
    requires i < j < |SortLines(lines)|
    ensures var a, b := SortLines(lines)[i], SortLines(lines)[j];
      var s, t := if a.seat.Some? then a.seat.value else "", if b.seat.Some? then b.seat.value else "";
      && (a.key.event == b.key.event || Before(a.key.event, b.key.event))
      && (a.key.event == b.key.event ==> a.key.zone == b.key.zone || Before(a.key.zone, b.key.zone))
      && (a.key == b.key ==> s == t || Before(s, t))
  {
    SortedInLockOrder(lines);
    var a, b := SortLines(lines)[i], SortLines(lines)[j];
    assert !LockBefore(b, a);
    BeforeTotal(a.key.event, b.key.event);
    BeforeTotal(a.key.zone, b.key.zone);
    BeforeTotal(SeatText(a), SeatText(b));
  }

  /** Sorting neither adds nor loses a line. */
  lemma {:induction false} SortKeepsLines(lines: seq<Line>)
    ensures |SortLines(lines)| == |lines|
    ensures forall l :: l in SortLines(lines) <==> l in lines
  {
    if lines != [] {
      var n := |lines| - 1;
      SortKeepsLines(lines[..n]);
      InsertAdds(lines[n], SortLines(lines[..n]));
      assert lines == lines[..n] + [lines[n]];
    }
  }

  lemma {:induction false} InsertAdds(l: Line, sorted: seq<Line>)
    ensures |Insert(l, sorted)| == |sorted| + 1
    ensures forall x :: x in Insert(l, sorted) <==> x in sorted || x == l
  {
    if sorted != [] && !LockBefore(l, sorted[0]) {
      InsertAdds(l, sorted[1..]);
      assert sorted == [sorted[0]] + sorted[1..];
    }
  }

  lemma {:induction false} InsertTotal(l: Line, sorted: seq<Line>)
    ensures LineTotal(Insert(l, sorted)) == l.price + LineTotal(sorted)
  {
    if sorted == [] || LockBefore(l, sorted[0]) {
      assert ([l] + sorted)[1..] == sorted;
    } else {
      InsertTotal(l, sorted[1..]);
      assert Insert(l, sorted)[1..] == Insert(l, sorted[1..]);
    }
  }

  /** The total accumulated before sorting is the total of the sorted order. */
  lemma {:induction false} SortKeepsTotal(lines: seq<Line>)
    ensures LineTotal(SortLines(lines)) == LineTotal(lines)
  {
    if lines != [] {
      var n := |lines| - 1;
      SortKeepsTotal(lines[..n]);
      InsertTotal(lines[n], SortLines(lines[..n]));
      assert lines == lines[..n] + [lines[n]];
      SumAppend(lines[..n], [lines[n]], LinePrice());
      assert [lines[n]][1..] == [];
    }
  }

  // ---------- the loops ----------

  /** The catalog lists zone `k` with this capacity. */
  ghost predicate Listed(catalog: Catalog, k: ZoneKey, capacity: nat) {
    k.event in catalog
    && exists i :: 0 <= i < |catalog[k.event]|
                   && catalog[k.event][i].name == k.zone && catalog[k.event][i].capacity == capacity
  }

  /** The capacities read with the prices: for each zone of the order that of its last ticket. */
  function CapacitiesRead(catalog: Catalog, items: seq<Item>): map<ZoneKey, nat> {
    if items == [] then map[]
    else
      var before := CapacitiesRead(catalog, items[..|items| - 1]);
      var id := ObjectId(items[|items| - 1].event);
      if id.None? || id.value !in catalog then before
      else
        match MatchZone(catalog[id.value], items[|items| - 1].zone)
        case None => before
        case Some(offer) => before[ZoneKey(id.value, offer.name) := offer.capacity]
  }

  /** They are capacities of the catalog, and every validated line has one. */
  lemma {:induction false} CapacitiesListed(catalog: Catalog, items: seq<Item>)
    ensures forall k :: k in CapacitiesRead(catalog, items) ==> Listed(catalog, k, CapacitiesRead(catalog, items)[k])
    ensures ValidateAll(catalog, items).Ok? ==>
              forall l :: l in ValidateAll(catalog, items).value ==> l.key in CapacitiesRead(catalog, items)
  {
    if items != [] {
      var item := items[|items| - 1];
      CapacitiesListed(catalog, items[..|items| - 1]);
      var id := ObjectId(item.event);
      if id.Some? && id.value in catalog {
        var offer := MatchZone(catalog[id.value], item.zone);
        if offer.Some? {
          var i :| 0 <= i < |catalog[id.value]| && catalog[id.value][i] == offer.value;
          assert Listed(catalog, ZoneKey(id.value, offer.value.name), offer.value.capacity);
        }
      }
    }
  }

  /** Step 2: validate and price every ticket; the total is accumulated on the way. */
  method ValidateItems(catalog: Catalog, items: seq<Item>)
    returns (lines: Result<seq<Line>, BadItem>, total: int, capacities: map<ZoneKey, nat>)
    ensures lines == ValidateAll(catalog, items)
    ensures lines.Ok? ==> total == LineTotal(lines.value) && capacities == CapacitiesRead(catalog, items)
    ensures lines.Ok? ==> |lines.value| == |items|
    ensures lines.Ok? ==> forall i :: 0 <= i < |items| ==> KeepsSeat(items[i], lines.value[i])
  {
    var validated: seq<Line> := [];
    total, capacities := 0, map[];
    for i := 0 to |items|
      invariant ValidateAll(catalog, items[..i]) == Ok(validated)
      invariant total == LineTotal(validated) && capacities == CapacitiesRead(catalog, items[..i])
    {
      NextItem(catalog, items, i, validated);
      var id := ObjectId(items[i].event);
      if id.None? || id.value !in catalog {
        return Err(if id.None? then InvalidEventId else EventNotFound), total, capacities;
      }
      var offer := MatchZone(catalog[id.value], items[i].zone);
      if offer.None? {
        return Err(ZoneNotFound), total, capacities;
      }
      var line := Line(ZoneKey(id.value, offer.value.name), CleanSeat(items[i].seat), offer.value.price);
      total := total + line.price;
      validated := validated + [line];
      capacities := capacities[line.key := offer.value.capacity];
    }
    assert items[..|items|] == items;
    lines := Ok(validated);
    SeatsOfLines(catalog, items);
  }

  /** Every line keeps the seat of its item, stripped; a missing or blank one is none. */
  lemma {:induction false} SeatsOfLines(catalog: Catalog, items: seq<Item>)
    requires ValidateAll(catalog, items).Ok?
    ensures var lines := ValidateAll(catalog, items).value;
      |lines| == |items| && forall i :: 0 <= i < |items| ==> KeepsSeat(items[i], lines[i])
  {
    if items != [] {
      SeatsOfLines(catalog, items[..|items| - 1]);
    }
  }

  predicate KeepsSeat(item: Item, line: Line) {
    if item.seat.Some? && Strip(item.seat.value) != "" then line.seat == Some(Strip(item.seat.value))
    else line.seat.None?
  }

  /** What item i adds to the lines, the total and the capacities, or the error it decides. */
  lemma NextItem(catalog: Catalog, items: seq<Item>, i: nat, before: seq<Line>)
    requires i < |items| && ValidateAll(catalog, items[..i]) == Ok(before)
    ensures match Validate(catalog, items[i])
      case Err(e) => ValidateAll(catalog, items) == Err(e)
      case Ok(line) =>
        && ValidateAll(catalog, items[..i + 1]) == Ok(before + [line])
        && LineTotal(before + [line]) == LineTotal(before) + line.price
    ensures var id := ObjectId(items[i].event);
      id.Some? && id.value in catalog && MatchZone(catalog[id.value], items[i].zone).Some? ==>
        var offer := MatchZone(catalog[id.value], items[i].zone).value;
        CapacitiesRead(catalog, items[..i + 1])
        == CapacitiesRead(catalog, items[..i])[ZoneKey(id.value, offer.name) := offer.capacity]
  {
    assert items[..i + 1][..i] == items[..i];
    match Validate(catalog, items[i])
    case Err(_) => ValidateAllPrefixError(catalog, items, i + 1);
    case Ok(line) =>
      SumAppend(before, [line], LinePrice());
      assert [] + [line] == [line];
      SumAppend([], [line], LinePrice());
      assert [line][1..] == [];
  }

  /** Step 3's `zone_requests`: how many seats the order takes in each zone. */
  method GroupRequests(lines: seq<Line>) returns (groups: seq<Group>)
    ensures groups == GroupKeys(LineKeys(lines))
    ensures DistinctKeys(groups) && Positive(groups)
    ensures forall z :: Seats(groups, z) == Occurrences(LineKeys(lines), z)
  {
    groups := [];
    for i := 0 to |lines|
      invariant groups == GroupKeys(LineKeys(lines[..i]))
    {
      assert LineKeys(lines[..i + 1])[..i] == LineKeys(lines[..i]);
      groups := AddSeat(groups, lines[i].key);
    }
    assert lines[..|lines|] == lines;
    GroupingShape(LineKeys(lines));
    forall z ensures Seats(groups, z) == Occurrences(LineKeys(lines), z) {
      GroupingCounts(LineKeys(lines), z);
    }
  }
}
