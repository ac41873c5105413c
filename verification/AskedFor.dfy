/** What a request asks for, read off its items and the catalog: zones, seats, prices, or the first mistake. */
module AskedFor {
  import opened Wrappers
  import opened Sums
  import opened Text
  import opened Store
  import opened Booking

  // ---------- one item ----------

  /** 24 hexadecimal digits. */
  predicate HexId(raw: string) {
    |raw| == 24 && forall i :: 0 <= i < 24 ==> '0' <= raw[i] <= '9' || 'a' <= raw[i] <= 'f' || 'A' <= raw[i] <= 'F'
  }

  /** The same name, up to case and blanks around it. */
  predicate SameName(a: string, b: string) { Lower(Strip(a)) == Lower(Strip(b)) }

  /** Offer k is the first of that name. */
  predicate FirstOffer(offers: seq<Offer>, wanted: string, k: nat) {
    k < |offers| && SameName(offers[k].name, wanted) && forall j :: 0 <= j < k ==> !SameName(offers[j].name, wanted)
  }

  /** The seat an item names; blank is none. */
  function AskedSeat(item: Item): Option<string> {
    match item.seat
    case None => None
    case Some(s) => if Blank(s) then None else Some(Strip(s))
  }

  /** The item is for the zone of this offer. */
  predicate IsFor(catalog: Catalog, item: Item, key: ZoneKey, price: nat) {
    && HexId(item.event) && key.event == Lower(item.event) && key.event in catalog
    && exists k :: 0 <= k < |catalog[key.event]| && FirstOffer(catalog[key.event], item.zone, k)
                   && catalog[key.event][k].name == key.zone && catalog[key.event][k].price == price
  }

  /** What is wrong with an item. */
  function Mistake(catalog: Catalog, item: Item): Option<BadItem> {
    if !HexId(item.event) then Some(InvalidEventId)
    else if Lower(item.event) !in catalog then Some(EventNotFound)
    else if forall o | o in catalog[Lower(item.event)] :: !SameName(o.name, item.zone) then Some(ZoneNotFound)
    else None
  }

  /** The line of an item: its zone, its seat, the price of the catalog. */
  predicate IsLineOf(catalog: Catalog, item: Item, line: Line) {
    IsFor(catalog, item, line.key, line.price) && line.seat == AskedSeat(item)
  }

  lemma {:induction false} MatchIsFirst(offers: seq<Offer>, wanted: string)
    ensures match MatchZone(offers, wanted)
      case Some(offer) => exists k :: 0 <= k < |offers| && FirstOffer(offers, wanted, k) && offers[k] == offer
      case None => forall o :: o in offers ==> !SameName(o.name, wanted)
  {
    if offers != [] && ZoneName(offers[0].name) != ZoneName(wanted) {
      var rest := offers[1..];
      MatchIsFirst(rest, wanted);
      if MatchZone(rest, wanted).Some? {
        var k :| 0 <= k < |rest| && FirstOffer(rest, wanted, k) && rest[k] == MatchZone(rest, wanted).value;
        assert FirstOffer(offers, wanted, k + 1) && offers[k + 1] == rest[k];
      }
    } else if offers != [] {
      assert FirstOffer(offers, wanted, 0);
    }
  }

  lemma SeatIsAsked(item: Item)
    ensures CleanSeat(item.seat) == AskedSeat(item)
  {
    if item.seat.Some? { BlankStrips(item.seat.value); }
  }

  lemma HexIdIs(raw: string)
    ensures ObjectId(raw) == if HexId(raw) then Some(Lower(raw)) else None
  {
    if |raw| == 24 {
      assert forall i :: 0 <= i < 24 ==>
        (IsHex(raw[i]) <==> '0' <= raw[i] <= '9' || 'a' <= raw[i] <= 'f' || 'A' <= raw[i] <= 'F');
    }
  }

  /** Validating an item finds its mistake, or its line. */
  lemma ItemMeans(catalog: Catalog, item: Item)
    ensures match Validate(catalog, item)
      case Err(e) => Mistake(catalog, item) == Some(e)
      case Ok(line) => Mistake(catalog, item).None? && IsLineOf(catalog, item, line)
  {
    HexIdIs(item.event);
    SeatIsAsked(item);
    if HexId(item.event) && Lower(item.event) in catalog {
      MatchIsFirst(catalog[Lower(item.event)], item.zone);
    }
  }

  /** An item is for one zone only. */
  lemma OneZone(catalog: Catalog, item: Item, a: ZoneKey, p: nat, b: ZoneKey, q: nat)
    requires IsFor(catalog, item, a, p) && IsFor(catalog, item, b, q)
    ensures a == b && p == q
  {
    var offers := catalog[a.event];
    var i :| 0 <= i < |offers| && FirstOffer(offers, item.zone, i) && offers[i].name == a.zone && offers[i].price == p;
    var j :| 0 <= j < |offers| && FirstOffer(offers, item.zone, j) && offers[j].name == b.zone && offers[j].price == q;
    assert i == j;
  }

  // ---------- all items ----------

  /** The mistake of the first item that has one. */
  function FirstMistake(catalog: Catalog, items: seq<Item>): Option<BadItem> {
    if items == [] then None
    else if Mistake(catalog, items[0]).Some? then Mistake(catalog, items[0])
    else FirstMistake(catalog, items[1..])
  }

  lemma {:induction false} FirstMistakeSnoc(catalog: Catalog, items: seq<Item>, item: Item)
    ensures FirstMistake(catalog, items + [item])
         == if FirstMistake(catalog, items).Some? then FirstMistake(catalog, items) else Mistake(catalog, item)
  {
    if items == [] {
      assert [item][1..] == [];
    } else {
      assert (items + [item])[0] == items[0] && (items + [item])[1..] == items[1..] + [item];
      FirstMistakeSnoc(catalog, items[1..], item);
    }
  }

  /** One line an item, in the order of the items. */
  predicate AreLinesOf(catalog: Catalog, items: seq<Item>, lines: seq<Line>) {
    |lines| == |items| && forall i :: 0 <= i < |items| ==> IsLineOf(catalog, items[i], lines[i])
  }

  /** Validation answers the first mistake, or the line of every item. */
  lemma {:induction false} ItemsMean(catalog: Catalog, items: seq<Item>)
    ensures match ValidateAll(catalog, items)
      case Err(e) => FirstMistake(catalog, items) == Some(e)
      case Ok(lines) => FirstMistake(catalog, items).None? && AreLinesOf(catalog, items, lines)
  {
    if items != [] {
      var front, last := items[..|items| - 1], items[|items| - 1];
      assert items == front + [last];
      ItemsMean(catalog, front);
      ItemMeans(catalog, last);
      FirstMistakeSnoc(catalog, front, last);
    }
  }

  // ---------- seats ----------

  /** The item asks for this numbered seat. */
  ghost predicate Wants(catalog: Catalog, item: Item, key: ZoneKey, seat: string) {
    AskedSeat(item) == Some(seat) && exists p: nat :: IsFor(catalog, item, key, p)
  }

  lemma WantsItsLine(catalog: Catalog, item: Item, line: Line, key: ZoneKey, seat: string)
    requires IsLineOf(catalog, item, line)
    ensures Wants(catalog, item, key, seat) <==> line.key == key && line.seat == Some(seat)
  {
    forall p: nat | IsFor(catalog, item, key, p) ensures line.key == key {
      OneZone(catalog, item, line.key, line.price, key, p);
    }
  }

  /** A ticket that holds its seat: status held or valid. */
  predicate HoldsSeat(t: Ticket, key: ZoneKey, seat: string) {
    (t.status == Held || t.status == Valid) && t.key == key && t.seat == Some(seat)
  }

  /** A ticket has a seat that the request asks for. */
  ghost predicate AlreadyHeld(tickets: seq<Ticket>, catalog: Catalog, items: seq<Item>) {
    exists i, t, key, seat :: 0 <= i < |items| && 0 <= t < |tickets|
      && Wants(catalog, items[i], key, seat) && HoldsSeat(tickets[t], key, seat)
  }

  /** The request asks for a seat twice. */
  ghost predicate AskedTwice(catalog: Catalog, items: seq<Item>) {
    exists i, j, key, seat :: 0 <= i < j < |items|
      && Wants(catalog, items[i], key, seat) && Wants(catalog, items[j], key, seat)
  }

  ghost predicate SeatGone(tickets: seq<Ticket>, catalog: Catalog, items: seq<Item>) {
    AlreadyHeld(tickets, catalog, items) || AskedTwice(catalog, items)
  }

  // ---------- room ----------

  /** How many items are for a zone. */
  ghost function WantedIn(catalog: Catalog, items: seq<Item>, z: ZoneKey): int {
    Sum(items, (item: Item) => Ind(exists p: nat :: IsFor(catalog, item, z, p)))
  }

  lemma {:induction false} WantedCount(catalog: Catalog, items: seq<Item>, lines: seq<Line>, z: ZoneKey)
    requires AreLinesOf(catalog, items, lines)
    ensures WantedIn(catalog, items, z) == Occurrences(LineKeys(lines), z)
  {
    var f := (item: Item) => Ind(exists p: nat :: IsFor(catalog, item, z, p));
    forall i | 0 <= i < |items| ensures f(items[i]) == KeyIs(z)(LineKeys(lines)[i]) {
      assert IsFor(catalog, items[i], lines[i].key, lines[i].price);
      forall p: nat | IsFor(catalog, items[i], z, p) ensures z == lines[i].key {
        OneZone(catalog, items[i], z, p, lines[i].key, lines[i].price);
      }
    }
    SumEqual(items, f, LineKeys(lines), KeyIs(z));
  }
}
