/** Seat labels: the seeder's `_seat_label`, the seat map's `rowName` and the grid it draws, page by page. */
module SeatLabels {
  import opened Sums

  const SEATS_PER_ROW := 18
  const ROWS_PER_PAGE := 6

  // ---------- letters: bijective base 26 ----------

  function Letter(d: nat): char
    requires d < 26
  {
    (65 + d) as char
  }

  /** 1 -> A, 26 -> Z, 27 -> AA; 0 is the empty text. */
  function Letters(n: nat): string {
    if n == 0 then "" else Letters((n - 1) / 26) + [Letter((n - 1) % 26)]
  }

  predicate Capitals(s: string) { forall i | 0 <= i < |s| :: 'A' <= s[i] <= 'Z' }

  function LettersValue(s: string): nat
    requires Capitals(s)
  {
    if s == "" then 0 else 26 * LettersValue(s[..|s| - 1]) + (s[|s| - 1] as int - 64)
  }

  lemma LastLetter(head: string, c: char)
    requires Capitals(head) && 'A' <= c <= 'Z'
    ensures Capitals(head + [c]) && LettersValue(head + [c]) == 26 * LettersValue(head) + (c as int - 64)
  {
    assert (head + [c])[..|head|] == head;
  }

  lemma {:induction false} LettersInverse(n: nat)
    ensures Capitals(Letters(n)) && LettersValue(Letters(n)) == n && (n > 0 ==> Letters(n) != "")
  {
    if n > 0 {
      var head, c := Letters((n - 1) / 26), Letter((n - 1) % 26);
      LettersInverse((n - 1) / 26);
      LastLetter(head, c);
    }
  }

  lemma {:induction false} ValueInverse(s: string)
    requires Capitals(s)
    ensures Letters(LettersValue(s)) == s && (s != "" ==> LettersValue(s) > 0)
  {
    if s != "" {
      var head, c := s[..|s| - 1], s[|s| - 1];
      ValueInverse(head);
      var n := LettersValue(s);
      assert n - 1 == 26 * LettersValue(head) + (c as int - 65);
      assert (n - 1) / 26 == LettersValue(head) && (n - 1) % 26 == c as int - 65;
      assert s == head + [c];
    }
  }

  // ---------- decimal numbers ----------

  function Digit(d: nat): char
    requires d < 10
  {
    (48 + d) as char
  }

  function Decimal(n: nat): string { if n < 10 then [Digit(n)] else Decimal(n / 10) + [Digit(n % 10)] }

  predicate Digits(s: string) { forall i | 0 <= i < |s| :: '0' <= s[i] <= '9' }

  function DecimalValue(s: string): nat
    requires Digits(s)
  {
    if s == "" then 0 else 10 * DecimalValue(s[..|s| - 1]) + (s[|s| - 1] as int - 48)
  }

  lemma {:induction false} DecimalInverse(n: nat)
    ensures Digits(Decimal(n)) && DecimalValue(Decimal(n)) == n
  {
    if n < 10 {
      assert Decimal(n)[..0] == "";
    } else {
      var head := Decimal(n / 10);
      DecimalInverse(n / 10);
      assert Decimal(n)[..|head|] == head;
    }
  }

  // ---------- labels ----------

  /** Row and seat number are both counted from 0. */
  function LabelAt(row: nat, seat: nat): string { Letters(row + 1) + "-" + Decimal(seat + 1) }

  function Label(index: nat): string
    requires index >= 1
  {
    LabelAt((index - 1) / SEATS_PER_ROW, (index - 1) % SEATS_PER_ROW)
  }

  /** The text up to the first dash. */
  function RowPart(text: string): (r: string)
    ensures r <= text
  {
    if text == "" || text[0] == '-' then "" else [text[0]] + RowPart(text[1..])
  }

  /** The index a label stands for. */
  function IndexOf(text: string): int {
    var row := RowPart(text);
    if |row| < |text| && Capitals(row) && Digits(text[|row| + 1..])
    then SEATS_PER_ROW * (LettersValue(row) - 1) + DecimalValue(text[|row| + 1..])
    else 0
  }

  lemma {:induction false} RowPartOf(row: string, rest: string)
    requires '-' !in row
    ensures RowPart(row + "-" + rest) == row
  {
    if row == "" {
      assert (row + "-" + rest)[0] == '-';
    } else {
      RowPartOf(row[1..], rest);
      assert (row + "-" + rest)[1..] == row[1..] + "-" + rest;
    }
  }

  lemma IndexOfParts(row: string, digits: string)
    requires Capitals(row) && Digits(digits)
    ensures IndexOf(row + "-" + digits) == SEATS_PER_ROW * (LettersValue(row) - 1) + DecimalValue(digits)
  {
    RowPartOf(row, digits);
    assert (row + "-" + digits)[|row| + 1..] == digits;
  }

  /** The index can be read back from the label. */
  lemma IndexOfLabel(index: nat)
    requires index >= 1
    ensures IndexOf(Label(index)) == index
  {
    var row, seat := (index - 1) / SEATS_PER_ROW, (index - 1) % SEATS_PER_ROW;
    var l, d := Letters(row + 1), Decimal(seat + 1);
    LettersInverse(row + 1);
    DecimalInverse(seat + 1);
    IndexOfParts(l, d);
  }

  /** Different seats have different labels. */
  lemma LabelsDiffer(i: nat, j: nat)
    requires i >= 1 && j >= 1
    ensures Label(i) == Label(j) <==> i == j
  {
    IndexOfLabel(i);
    IndexOfLabel(j);
  }

  lemma LabelFrom(row: nat, seat: nat)
    requires seat < SEATS_PER_ROW
    ensures Label(SEATS_PER_ROW * row + seat + 1) == LabelAt(row, seat)
  {
    RowAndSeat(row, seat);
  }

  /** Every row name with a seat number from 1 to 18 is the label of its index. */
  lemma {:induction false} LabelOfIndex(row: string, seat: nat)
    requires row != "" && Capitals(row) && 1 <= seat <= 18
    ensures var text := row + "-" + Decimal(seat);
      IndexOf(text) == 18 * (LettersValue(row) - 1) + seat >= 1 && Label(IndexOf(text)) == text
  {
    ValueInverse(row);
    DecimalInverse(seat);
    IndexOfParts(row, Decimal(seat));
    LabelFrom(LettersValue(row) - 1, seat - 1);
  }

  lemma RowAndSeat(row: int, seat: int)
    requires 0 <= seat < SEATS_PER_ROW
    ensures (SEATS_PER_ROW * row + seat) / SEATS_PER_ROW == row && (SEATS_PER_ROW * row + seat) % SEATS_PER_ROW == seat
  {}

  // ---------- the two loops ----------

  /** seed.py: peel off base-26 digits from the right. */
  method SeatLabel(index: nat) returns (text: string)
    requires index >= 1
    ensures text == Label(index)
  {
    var row: nat, seat := (index - 1) / SEATS_PER_ROW, (index - 1) % SEATS_PER_ROW;
    var letters := "";
    row := row + 1;
    ghost var whole := Letters(row);
    while row > 0
      invariant whole == Letters(row) + letters
    {
      var rem := (row - 1) % 26;
      row := (row - 1) / 26;
      letters := [Letter(rem)] + letters;
    }
    text := letters + "-" + Decimal(seat + 1);
  }

  /** seats.js: the same digits, written as a for loop. */
  method RowName(i: nat) returns (s: string)
    ensures s == Letters(i + 1)
  {
    s := "";
    var k: nat := i + 1;
    while k > 0
      invariant Letters(i + 1) == Letters(k) + s
    {
      s := [Letter((k - 1) % 26)] + s;
      k := (k - 1) / 26;
    }
  }

  // ---------- the grid ----------

  /** The labels of the seats after `from` up to `to`. */
  function LabelRange(from: nat, to: nat): seq<string>
    requires from <= to
  {
    seq(to - from, k requires 0 <= k < to - from => Label(from + k + 1))
  }

  lemma RangeAppend(from: nat, mid: nat, to: nat)
    requires from <= mid <= to
    ensures LabelRange(from, mid) + LabelRange(mid, to) == LabelRange(from, to)
  {}

  function TotalRows(capacity: nat): nat { (capacity + SEATS_PER_ROW - 1) / SEATS_PER_ROW }

  function Pages(capacity: nat): nat { (TotalRows(capacity) + ROWS_PER_PAGE - 1) / ROWS_PER_PAGE }

  function Flatten(rows: seq<seq<string>>): seq<string> {
    if rows == [] then [] else Flatten(rows[..|rows| - 1]) + rows[|rows| - 1]
  }

  /** The labels of one row, none behind the last row. */
  function RowLabels(capacity: nat, r: nat): seq<string> {
    LabelRange(Min(capacity, r * SEATS_PER_ROW), Min(capacity, (r + 1) * SEATS_PER_ROW))
  }

  /** The seats drawn for one row. */
  method RenderRow(capacity: nat, r: nat) returns (cells: seq<string>)
    requires r < TotalRows(capacity)
    ensures cells == RowLabels(capacity, r)
  {
    var name := RowName(r);
    var inRow := Min(SEATS_PER_ROW, capacity - r * SEATS_PER_ROW);
    cells := [];
    for n := 1 to inRow + 1
      invariant cells == LabelRange(r * SEATS_PER_ROW, r * SEATS_PER_ROW + n - 1)
    {
      var i := r * SEATS_PER_ROW + n;
      assert (i - 1) / SEATS_PER_ROW == r && (i - 1) % SEATS_PER_ROW == n - 1;
      assert Label(i) == LabelAt(r, n - 1) == name + "-" + Decimal(n);
      assert LabelRange(i - 1, i) == [Label(i)];
      cells := cells + [name + "-" + Decimal(n)];
      RangeAppend(r * SEATS_PER_ROW, i - 1, i);
    }
  }

  /** The rows from `first` up to (not including) r. */
  ghost predicate Drawn(capacity: nat, first: nat, r: nat, rows: seq<seq<string>>)
    requires first <= r && first * SEATS_PER_ROW <= capacity
  {
    && |rows| == r - first
    && (forall k :: 0 <= k < |rows| ==> rows[k] == RowLabels(capacity, first + k))
    && Flatten(rows) == LabelRange(first * SEATS_PER_ROW, Min(capacity, r * SEATS_PER_ROW))
  }

  lemma DrawNext(capacity: nat, first: nat, r: nat, rows: seq<seq<string>>)
    requires first <= r < TotalRows(capacity) && Drawn(capacity, first, r, rows)
    ensures Drawn(capacity, first, r + 1, rows + [RowLabels(capacity, r)])
  {
    var cells := RowLabels(capacity, r);
    assert (rows + [cells])[..|rows|] == rows;
    assert Flatten(rows + [cells]) == Flatten(rows) + cells;
    assert r * SEATS_PER_ROW <= capacity;
    RangeAppend(first * SEATS_PER_ROW, r * SEATS_PER_ROW, Min(capacity, (r + 1) * SEATS_PER_ROW));
  }

  lemma PageBounds(capacity: nat, page: nat)
    ensures page < Pages(capacity) <==> page * ROWS_PER_PAGE < TotalRows(capacity)
    ensures var last := Min(TotalRows(capacity), (page + 1) * ROWS_PER_PAGE);
      Min(capacity, last * SEATS_PER_ROW) == Min(capacity, (page + 1) * ROWS_PER_PAGE * SEATS_PER_ROW)
    ensures page < Pages(capacity) ==> page * ROWS_PER_PAGE * SEATS_PER_ROW <= capacity
  {}

  /** One page of the seat map, row by row. */
  method RenderGrid(capacity: nat, rowPage: nat) returns (rows: seq<seq<string>>)
    ensures rowPage < Pages(capacity) ==> Flatten(rows) == PageLabels(capacity, rowPage)
    ensures rowPage >= Pages(capacity) ==> rows == []
    ensures forall k :: 0 <= k < |rows| ==> rows[k] == RowLabels(capacity, rowPage * ROWS_PER_PAGE + k)
  {
    var totalRows := TotalRows(capacity);
    var first := rowPage * ROWS_PER_PAGE;
    var last := Min(totalRows, first + ROWS_PER_PAGE);
    rows := [];
    PageBounds(capacity, rowPage);
    if first >= last {
      return;
    }
    for r := first to last
      invariant Drawn(capacity, first, r, rows)
    {
      var cells := RenderRow(capacity, r);
      DrawNext(capacity, first, r, rows);
      rows := rows + [cells];
    }
  }

  function PageLabels(capacity: nat, page: nat): seq<string>
    requires page < Pages(capacity)
  {
    LabelRange(page * ROWS_PER_PAGE * SEATS_PER_ROW, Min(capacity, (page + 1) * ROWS_PER_PAGE * SEATS_PER_ROW))
  }

  /** A page has 108 seats: six rows of eighteen. */
  lemma PageMeans(capacity: nat, page: nat)
    ensures page < Pages(capacity) <==> page * 108 < capacity
    ensures page < Pages(capacity) ==>
              PageLabels(capacity, page) == LabelRange(page * 108, Min(capacity, (page + 1) * 108))
  {
    PageBounds(capacity, page);
  }

  /** A row has eighteen. */
  lemma RowMeans(capacity: nat, r: nat)
    ensures r < TotalRows(capacity) <==> r * 18 < capacity
    ensures RowLabels(capacity, r) == LabelRange(Min(capacity, r * 18), Min(capacity, (r + 1) * 18))
  {}

  /** All pages up to a number of pages, one after the other. */
  function FirstPages(capacity: nat, pages: nat): seq<string>
    requires pages <= Pages(capacity)
  {
    if pages == 0 then [] else FirstPages(capacity, pages - 1) + PageLabels(capacity, pages - 1)
  }

  lemma {:induction false} FirstPagesAre(capacity: nat, pages: nat)
    requires pages <= Pages(capacity)
    ensures FirstPages(capacity, pages) == LabelRange(0, Min(capacity, pages * ROWS_PER_PAGE * SEATS_PER_ROW))
  {
    if pages > 0 {
      FirstPagesAre(capacity, pages - 1);
      RangeAppend(0, (pages - 1) * ROWS_PER_PAGE * SEATS_PER_ROW, Min(capacity, pages * ROWS_PER_PAGE * SEATS_PER_ROW));
    }
  }

  lemma RangeHasNoRepeats(from: nat, to: nat)
    requires from <= to
    ensures forall i, j :: 0 <= i < j < to - from ==> LabelRange(from, to)[i] != LabelRange(from, to)[j]
  {
    forall i, j | 0 <= i < j < to - from ensures LabelRange(from, to)[i] != LabelRange(from, to)[j] {
      LabelsDiffer(from + i + 1, from + j + 1);
    }
  }

  /** The pages together list the labels of seats 1 to capacity, in order and each once. */
  lemma GridListsEverySeatOnce(capacity: nat)
    ensures var all := FirstPages(capacity, Pages(capacity));
      && |all| == capacity
      && (forall i :: 1 <= i <= capacity ==> all[i - 1] == Label(i))
      && (forall i, j :: 0 <= i < j < |all| ==> all[i] != all[j])
  {
    FirstPagesAre(capacity, Pages(capacity));
    assert Min(capacity, Pages(capacity) * ROWS_PER_PAGE * SEATS_PER_ROW) == capacity;
    RangeHasNoRepeats(0, capacity);
  }
}
