/** The name migration: dual write, backfill, switch of reads and writes, contract and refill, with traffic throughout.
  */
module Migration {
  import opened Wrappers
  import opened Text
  import opened Names

  // ---------- requests and responses ----------

  /** The name part of a request body, in one of its two shapes. */
  datatype Payload = Whole(full: string) | Parts(first: Option<string>, last: Option<string>)

  /** Schema rule of POST /users: a full name or a first name. */
  predicate ValidCreate(p: Payload) {
    match p
    case Whole(full) => Words(full) != []
    case Parts(first, last) => WordsOf(first) != []
  }

  /** Schema rule of PUT /users/{id}: something is sent, and neither full_name nor first_name is blank. */
  predicate ValidUpdate(p: Payload) {
    match p
    case Whole(full) => Words(full) != []
    case Parts(first, last) => (first.Some? || last.Some?) && (first.Some? ==> WordsOf(first) != [])
  }

  predicate Truthy(s: Option<string>) { s.Some? && s.value != "" }

  function NonEmpty(s: string): Option<string> { if s == "" then None else Some(s) }

  /** `build_user_response`. */
  function View(row: Row, read_: ReadSource): Row {
    if read_ == ReadNew then Row(NonEmpty(JoinNames(row.first, row.last)), row.first, row.last)
    else
      var full := if Truthy(row.full) then row.full else NonEmpty(JoinNames(row.first, row.last));
      if row.first.None? && full.Some? then
        var (head, tail) := SplitFullName(full);
        Row(full, Some(head), Some(tail))
      else Row(full, row.first, row.last)
  }

  function Created(p: Payload, mode: WriteMode): Row {
    match p
    case Whole(full) => ResolveNames(Some(full), None, None, mode)
    case Parts(first, last) => ResolveNames(None, first, last, mode)
  }

  /** Store what the mode writes, leave the other columns alone. */
  function Store(row: Row, r: Row, mode: WriteMode): Row {
    Row(if mode != WriteNew then r.full else row.full,
        if mode != WriteLegacy then r.first else row.first,
        if mode != WriteLegacy then r.last else row.last)
  }

  /** The stored first and last name a partial update starts from. */
  function CurrentParts(row: Row, mode: WriteMode, read_: ReadSource): (Option<string>, Option<string>) {
    if row.first.None? && (mode != WriteNew || read_ != ReadNew) && Truthy(row.full) then
      var (head, tail) := SplitFullName(row.full);
      (Some(head), Some(tail))
    else (row.first, row.last)
  }

  /** The names to store: a part that is not sent is taken from what is stored. */
  function Target(row: Row, p: Payload, mode: WriteMode, read_: ReadSource): Row {
    match p
    case Whole(full) => ResolveNames(Some(full), None, None, mode)
    case Parts(first, last) =>
      var (curFirst, curLast) := CurrentParts(row, mode, read_);
      ResolveNames(None, if first.Some? then first else curFirst, if last.Some? then last else curLast, mode)
  }

  function Updated(row: Row, p: Payload, mode: WriteMode, read_: ReadSource): Row {
    Store(row, Target(row, p, mode, read_), mode)
  }

  /** `names_for` with the COALESCE of the update: only NULL parts are filled. */
  function Fill(row: Row): Row {
    var (head, tail) := SplitFullName(row.full);
    var first := if row.first.Some? then row.first.value else head;
    Row(row.full, Some(first), Some(if row.last.Some? then row.last.value else if head == first then tail else ""))
  }

  predicate NeedsBackfill(row: Row) { row.first.None? || row.last.None? }

  // ---------- the machine ----------

  /** The words of a first and of a last name. */
  datatype Said = Said(first: seq<string>, last: seq<string>) {
    function Whole(): seq<string> { first + last }
  }

  /** `said`: for every user the name they last gave, part by part, as the API shows it. */
  datatype State = State(write: WriteMode, read_: ReadSource, column: bool, users: map<nat, Row>, said: map<nat, Said>)

  datatype Action =
    | Create(id: nat, payload: Payload)
    | Update(id: nat, payload: Payload)
    | BackfillBatch(ids: set<nat>)
    | SetWriteDual
    | SetReadNew
    | SetReadLegacy
    | SetWriteNew
    | Contract
    | Restore
    | Refill(lo: nat, hi: nat)

  /** `count(*) ... WHERE first_name IS NULL OR last_name IS NULL` is 0. */
  predicate Complete(users: map<nat, Row>) { forall id | id in users :: !NeedsBackfill(users[id]) }

  /** The documented order of the phases; the read flag may go back while both shapes are written. */
  predicate Enabled(s: State, a: Action) {
    match a
    case Create(id, p) => id !in s.users && ValidCreate(p)
    case Update(id, p) => id in s.users && ValidUpdate(p)
    case BackfillBatch(ids) => s.write == WriteDual
    case SetWriteDual => s.write == WriteLegacy
    case SetReadNew => s.write == WriteDual && Complete(s.users)
    case SetReadLegacy => s.write == WriteDual
    case SetWriteNew => s.write == WriteDual && s.read_ == ReadNew
    case Contract => s.column
    case Restore => !s.column
    case Refill(lo, hi) => s.column && s.write == WriteNew
  }

  /** The words a request asks to be shown, given what is shown now: a part that is not sent stays. */
  function Asked(p: Payload, shown: Row): seq<string> {
    match p
    case Whole(full) => Words(full)
    case Parts(first, last) =>
      WordsOf(if first.Some? then first else shown.first) + WordsOf(if last.Some? then last else shown.last)
  }

  /** A full name ends its first name after the first word. */
  function Halves(words: seq<string>): Said { if words == [] then Said([], []) else Said(words[..1], words[1..]) }

  /** The parts a request asks to be shown: those sent, and those shown now for those not sent. Where only the full name
    is written, no more than its words is kept. */
  function AskedParts(p: Payload, shown: Row, mode: WriteMode): Said {
    if p.Whole? || mode == WriteLegacy then Halves(Asked(p, shown))
    else Said(WordsOf(if p.first.Some? then p.first else shown.first),
              WordsOf(if p.last.Some? then p.last else shown.last))
  }

  function DropColumn(users: map<nat, Row>): map<nat, Row> {
    map id | id in users :: Row(None, users[id].first, users[id].last)
  }

  function BackfillThose(users: map<nat, Row>, ids: set<nat>): map<nat, Row> {
    map id | id in users :: if id in ids && NeedsBackfill(users[id]) then Fill(users[id]) else users[id]
  }

  /** `_check_ready_to_contract`. */
  predicate ReadyToContract(s: State) { s.write == WriteNew && s.read_ == ReadNew && Complete(s.users) }

  // ---------- refill ----------

  function LTrim(s: string): string { if s != [] && s[0] == ' ' then LTrim(s[1..]) else s }

  function RTrim(s: string): string { if s != [] && s[|s| - 1] == ' ' then RTrim(s[..|s| - 1]) else s }

  /** `concat_ws(' ', first_name, last_name)`: NULLs are left out, empty strings are not. */
  function ConcatWs(first: Option<string>, last: Option<string>): string {
    if first.Some? && last.Some? then first.value + " " + last.value
    else if first.Some? then first.value
    else if last.Some? then last.value
    else ""
  }

  /** `btrim` removes spaces only. */
  function RefillName(row: Row): string { RTrim(LTrim(ConcatWs(row.first, row.last))) }

  function Refilled(row: Row): Row { if row.full.None? then row.(full := Some(RefillName(row))) else row }

  function RefillRange(users: map<nat, Row>, lo: nat, hi: nat): map<nat, Row> {
    map id | id in users :: if lo <= id < hi then Refilled(users[id]) else users[id]
  }

  lemma {:induction false} TrimKeepsWords(s: string)
    ensures Words(LTrim(s)) == Words(s) && Words(RTrim(s)) == Words(s)
  {
    if s != [] {
      TrimLeft(s);
      TrimRight(s);
    }
  }

  lemma {:induction false} TrimLeft(s: string)
    ensures Words(LTrim(s)) == Words(s)
  {
    if s != [] && s[0] == ' ' { TrimLeft(s[1..]); }
  }

  lemma {:induction false} TrimRight(s: string)
    ensures Words(RTrim(s)) == Words(s)
  {
    if s != [] && s[|s| - 1] == ' ' {
      var n := |s| - 1;
      TrimRight(s[..n]);
      assert s == s[..n] + " " && " "[1..] == [];
      WordsAppend(s[..n], " ");
    }
  }

  /** The refilled full name reads like the stored first and last name. */
  lemma RefillAgrees(row: Row)
    ensures Words(RefillName(row)) == WordsOf(row.first) + WordsOf(row.last)
  {
    var c := ConcatWs(row.first, row.last);
    TrimKeepsWords(c);
    TrimKeepsWords(LTrim(c));
    if row.first.Some? && row.last.Some? {
      assert c == row.first.value + (" " + row.last.value);
      WordsAppend(row.first.value, " " + row.last.value);
      assert (" " + row.last.value)[1..] == row.last.value;
    }
  }

  /** Only a full name that is NULL is refilled. */
  lemma RefillKeepsStored(row: Row)
    ensures Refilled(row).first == row.first && Refilled(row).last == row.last
    ensures row.full.Some? ==> Refilled(row).full == row.full
    ensures row.full.None? ==> Refilled(row).full == Some(RefillName(row))
  {}

  /** What the backfill stores, letter by letter: a stored part as it is, else the first word; a stored last name as it
    is, else the rest of the full name if the first name is its first word, else the empty text. */
  lemma FillLetters(row: Row)
    ensures var (head, tail) := SplitFullName(row.full);
      && Fill(row).full == row.full
      && Fill(row).first == (if row.first.Some? then row.first else Some(head))
      && (row.last.Some? ==> Fill(row).last == row.last)
      && (row.last.None? && Fill(row).first == Some(head) ==> Fill(row).last == Some(tail))
      && (row.last.None? && Fill(row).first != Some(head) ==> Fill(row).last == Some(""))
  {}

  lemma {:induction false} LTrimFixed(s: string)
    requires s == "" || !IsSpace(s[0])
    ensures LTrim(s) == s
  {}

  lemma RTrimOneBlank(s: string)
    requires s != "" && !IsSpace(s[|s| - 1])
    ensures RTrim(s) == s && RTrim(s + " ") == s
  {
    assert (s + " ")[..|s|] == s;
  }

  /** The refilled full name of trimmed parts is the two with one blank between them, letter by letter. */
  lemma RefillLetters(first: string, last: string)
    requires first != "" && !IsSpace(first[0]) && !IsSpace(first[|first| - 1])
    requires last != "" ==> !IsSpace(last[0]) && !IsSpace(last[|last| - 1])
    ensures RefillName(Row(None, Some(first), Some(last))) == if last == "" then first else first + " " + last
  {
    var c := first + " " + last;
    assert c[0] == first[0];
    LTrimFixed(c);
    if last == "" {
      assert c == first + " ";
      RTrimOneBlank(first);
    } else {
      assert c[|c| - 1] == last[|last| - 1];
      RTrimOneBlank(c);
    }
  }

  // ---------- one step ----------

  function Step(s: State, a: Action): State
    requires Enabled(s, a) && s.said.Keys == s.users.Keys
  {
    match a
    case Create(id, p) =>
      s.(users := s.users[id := Created(p, s.write)],
         said := s.said[id := AskedParts(p, Row(None, None, None), s.write)])
    case Update(id, p) =>
      s.(users := s.users[id := Updated(s.users[id], p, s.write, s.read_)],
         said := s.said[id := AskedParts(p, View(s.users[id], s.read_), s.write)])
    case BackfillBatch(ids) =>
      s.(users := BackfillThose(s.users, ids))
    case SetWriteDual => s.(write := WriteDual)
    case SetReadNew => s.(read_ := ReadNew)
    case SetReadLegacy => s.(read_ := ReadLegacy)
    case SetWriteNew => s.(write := WriteNew)
    case Contract => if ReadyToContract(s) then s.(column := false, users := DropColumn(s.users)) else s
    case Restore => s.(column := true)
    case Refill(lo, hi) => s.(users := RefillRange(s.users, lo, hi))
  }

  // ---------- invariant ----------

  predicate PartsSay(row: Row, words: seq<string>) {
    !NeedsBackfill(row) && WordsOf(row.first) != [] && WordsOf(row.first) + WordsOf(row.last) == words
  }

  predicate FullSays(row: Row, words: seq<string>) { row.full.Some? && Words(row.full.value) == words }

  /** What a row holds about the name that was given, in each write mode. */
  predicate RowFits(row: Row, words: seq<string>, write: WriteMode) {
    && words != []
    && match write
       case WriteLegacy => FullSays(row, words) && row.first.None? && row.last.None?
       case WriteDual => FullSays(row, words) && ((row.first.None? && row.last.None?) || PartsSay(row, words))
       case WriteNew => PartsSay(row, words)
  }

  /** The row holds the name that was given, and where it has parts, those that were given. */
  predicate RowSays(row: Row, said: Said, write: WriteMode) {
    && RowFits(row, said.Whole(), write)
    && if row.first.None? then said == Halves(said.Whole())
       else WordsOf(row.first) == said.first && WordsOf(row.last) == said.last
  }

  predicate Inv(s: State) {
    && s.said.Keys == s.users.Keys
    && (forall id | id in s.users :: RowSays(s.users[id], s.said[id], s.write))
    && (s.read_ == ReadNew ==> s.write != WriteLegacy && Complete(s.users))
    && (s.write == WriteNew ==> s.read_ == ReadNew)
    && (!s.column ==> s.write == WriteNew && forall id | id in s.users :: s.users[id].full.None?)
  }

  /** Before the migration: every user has a full name that is not blank, and nothing else. */
  predicate Initial(s: State) {
    && s.write == WriteLegacy && s.read_ == ReadLegacy && s.column && s.said.Keys == s.users.Keys
    && forall id | id in s.users :: RowSays(s.users[id], s.said[id], WriteLegacy)
  }

  // ---------- every write says what was asked ----------

  lemma CreateFits(p: Payload, mode: WriteMode)
    requires ValidCreate(p)
    ensures RowFits(Created(p, mode), Asked(p, Row(None, None, None)), mode)
    ensures mode != WriteLegacy ==> !NeedsBackfill(Created(p, mode))
  {
    match p
    case Whole(full) => ResolveWhole(full);
    case Parts(first, last) => ResolveParts(first, last);
  }

  /** A partial update starts from exactly the parts the API shows. */
  lemma CurrentIsShown(row: Row, words: seq<string>, mode: WriteMode, read_: ReadSource)
    requires RowFits(row, words, mode) && (read_ == ReadNew ==> !NeedsBackfill(row))
             && (mode == WriteNew ==> read_ == ReadNew)
    ensures var v := View(row, read_);
      && CurrentParts(row, mode, read_) == (v.first, v.last)
      && v.full.Some? && v.first.Some? && v.last.Some? && WordsOf(v.first) != []
      && WordsOf(v.full) == words && WordsOf(v.first) + WordsOf(v.last) == words
  {
    JoinKeepsWords(row.first, row.last);
    SplitKeepsWords(row.full);
  }

  lemma UpdateFits(row: Row, words: seq<string>, p: Payload, mode: WriteMode, read_: ReadSource)
    requires RowFits(row, words, mode) && (read_ == ReadNew ==> !NeedsBackfill(row))
             && (mode == WriteNew ==> read_ == ReadNew)
    requires ValidUpdate(p)
    ensures RowFits(Updated(row, p, mode, read_), Asked(p, View(row, read_)), mode)
    ensures mode != WriteLegacy ==> !NeedsBackfill(Updated(row, p, mode, read_))
  {
    CurrentIsShown(row, words, mode, read_);
    match p
    case Whole(full) => ResolveWhole(full);
    case Parts(first, last) => UpdatePartsFits(row, words, p, mode, read_);
  }

  lemma UpdatePartsFits(row: Row, words: seq<string>, p: Payload, mode: WriteMode, read_: ReadSource)
    requires RowFits(row, words, mode) && (read_ == ReadNew ==> !NeedsBackfill(row))
             && (mode == WriteNew ==> read_ == ReadNew)
    requires ValidUpdate(p) && p.Parts?
    ensures RowFits(Updated(row, p, mode, read_), Asked(p, View(row, read_)), mode)
    ensures mode != WriteLegacy ==> !NeedsBackfill(Updated(row, p, mode, read_))
  {
    CurrentIsShown(row, words, mode, read_);
    var v := View(row, read_);
    ResolveParts(if p.first.Some? then p.first else v.first, if p.last.Some? then p.last else v.last);
  }

  /** Filling keeps every stored part and makes the parts read like the full name. */
  lemma FillFits(row: Row, words: seq<string>)
    requires RowFits(row, words, WriteDual)
    ensures RowFits(Fill(row), words, WriteDual) && !NeedsBackfill(Fill(row))
    ensures row.first.Some? ==> Fill(row).first == row.first
    ensures row.last.Some? ==> Fill(row).last == row.last
  {
    SplitKeepsWords(row.full);
  }

  /** A signup in parts stores each part as sent, if the mode writes parts; in every mode what it stores shows them. */
  lemma CreateSays(p: Payload, mode: WriteMode)
    requires ValidCreate(p)
    ensures RowSays(Created(p, mode), AskedParts(p, Row(None, None, None), mode), mode)
  {
    CreateFits(p, mode);
    match p
    case Whole(full) => WholeHalves(full);
    case Parts(first, last) => ResolveParts(first, last);
  }

  lemma WholeHalves(full: string)
    requires Words(full) != []
    ensures var r := Derive(Some(full), None, None);
      WordsOf(r.first) == Words(full)[..1] && WordsOf(r.last) == Words(full)[1..]
  {
    CleanKeepsWords(Some(full));
    SplitKeepsWords(Clean(Some(full)));
    var words := Words(full);
    assert words[..1] == [words[0]] && words == words[..1] + words[1..];
    ResolveWhole(full);
  }

  lemma UpdateSays(row: Row, said: Said, p: Payload, mode: WriteMode, read_: ReadSource)
    requires RowSays(row, said, mode) && (read_ == ReadNew ==> !NeedsBackfill(row))
    requires (mode == WriteNew ==> read_ == ReadNew) && ValidUpdate(p)
    ensures RowSays(Updated(row, p, mode, read_), AskedParts(p, View(row, read_), mode), mode)
  {
    UpdateFits(row, said.Whole(), p, mode, read_);
    HalvesWhole(Asked(p, View(row, read_)));
    match p
    case Whole(full) => WholeHalves(full);
    case Parts(first, last) =>
      CurrentIsShown(row, said.Whole(), mode, read_);
      var v := View(row, read_);
      ResolveParts(if first.Some? then first else v.first, if last.Some? then last else v.last);
  }

  /** An update in parts: the full name shown is the two parts with one blank between them, and where parts are written,
    each part is stored and shown as it was sent, without the blanks around it; a part that was not sent stays as it was
    shown. */
  lemma PartsKept(row: Row, words: seq<string>, p: Payload, mode: WriteMode, read_: ReadSource)
    requires RowFits(row, words, mode) && (read_ == ReadNew ==> !NeedsBackfill(row))
    requires (mode == WriteNew ==> read_ == ReadNew) && ValidUpdate(p) && p.Parts?
    requires mode == WriteLegacy ==> read_ == ReadLegacy
    ensures var v, w := View(row, read_), View(Updated(row, p, mode, read_), read_);
      var f, l := Trimmed(if p.first.Some? then p.first else v.first), Trimmed(if p.last.Some? then p.last else v.last);
      && w.full == Some(if l == "" then f else f + " " + l)
      && (mode != WriteLegacy ==> w.first == Some(f) && w.last == Some(l))
  {
    CurrentIsShown(row, words, mode, read_);
    var v := View(row, read_);
    var first, last := if p.first.Some? then p.first else v.first, if p.last.Some? then p.last else v.last;
    PartsStored(first, last);
    BlankWhen(first.value);
    BlankStrips(first.value);
    TrimmedTwice(first);
    TrimmedTwice(last);
    JoinIsTrimmed(Some(Trimmed(first)), Some(Trimmed(last)));
  }

  /** Whatever the row was: a first name that is sent is stored as it is, without the blanks around it, and so is a last
    name sent with it. */
  lemma SentPartsStored(row: Row, p: Payload, mode: WriteMode, read_: ReadSource)
    requires p.Parts? && WordsOf(p.first) != [] && mode != WriteLegacy
    ensures var r := Updated(row, p, mode, read_);
      r.first == Some(Strip(p.first.value)) && (p.last.Some? ==> r.last == Some(Trimmed(p.last)))
  {
    var (_, curLast) := CurrentParts(row, mode, read_);
    PartsStored(p.first, if p.last.Some? then p.last else curLast);
    BlankWhen(p.first.value);
  }

  /** So does a signup in parts. */
  lemma SignupPartsKept(p: Payload, mode: WriteMode, read_: ReadSource)
    requires ValidCreate(p) && p.Parts? && mode != WriteLegacy
    ensures var w := View(Created(p, mode), read_);
      w.first == Some(Trimmed(p.first)) && w.last == Some(Trimmed(p.last))
  {
    PartsStored(p.first, p.last);
  }

  /** A full name, in a write of either kind: it is stored and shown without the blanks around it, its first word as
    first name and the rest as last name. Where only the parts are read, one blank stands for the gap between them. */
  lemma WholeKept(row: Row, full: string, mode: WriteMode, read_: ReadSource) returns (gap: string, rest: string)
    requires Words(full) != [] && (read_ == ReadLegacy <== mode == WriteLegacy)
             && (mode == WriteNew ==> read_ == ReadNew)
    requires mode == WriteLegacy ==> row.first.None?
    ensures Strip(full) == Words(full)[0] + gap + rest && Blank(gap) && (rest != "" ==> gap != "" && !IsSpace(rest[0]))
    ensures var v := View(Updated(row, Whole(full), mode, read_), read_);
      && v.first == Some(Words(full)[0]) && v.last == Some(rest)
      && v.full == Some(if read_ == ReadLegacy then Strip(full)
                        else if rest == "" then Words(full)[0] else Words(full)[0] + " " + rest)
  {
    gap, rest := WholeStored(full);
    WholeShown(full, gap, rest);
    BlankWhen(full);
    BlankStrips(full);
  }

  /** A signup stores a full name as an update of an empty row would. */
  lemma SignupIsUpdate(full: string, mode: WriteMode, read_: ReadSource)
    ensures Created(Whole(full), mode) == Updated(Row(None, None, None), Whole(full), mode, read_)
  {}

  /** The parts of a full name are trimmed already, and splitting the stored name gives them again. */
  lemma WholeShown(full: string, gap: string, rest: string)
    requires Words(full) != []
    requires Derive(Some(full), None, None) == Row(Some(Strip(full)), Some(Words(full)[0]), Some(rest))
    ensures SplitFullName(Some(Strip(full))) == (Words(full)[0], rest)
    ensures NonEmpty(JoinNames(Some(Words(full)[0]), Some(rest)))
         == Some(if rest == "" then Words(full)[0] else Words(full)[0] + " " + rest)
  {
    var head := Words(full)[0];
    TailTrimmed(full);
    HeadIsFirstWord(full);
    WordsOfStrip(full);
    assert Trimmed(Some(head)) == head && Trimmed(Some(rest)) == rest;
    JoinIsTrimmed(Some(head), Some(rest));
  }

  lemma HalvesWhole(words: seq<string>)
    ensures Halves(words).Whole() == words
  {}

  /** Filling stores the parts that the full name has. */
  lemma FillSays(row: Row, said: Said)
    requires RowSays(row, said, WriteDual)
    ensures RowSays(Fill(row), said, WriteDual)
  {
    FillFits(row, said.Whole());
    if row.first.None? { FillHalves(row); }
  }

  lemma FillHalves(row: Row)
    requires row.first.None? && row.last.None? && WordsOf(row.full) != []
    ensures WordsOf(Fill(row).first) == WordsOf(row.full)[..1] && WordsOf(Fill(row).last) == WordsOf(row.full)[1..]
  {
    SplitKeepsWords(row.full);
    var words := WordsOf(row.full);
    assert words[..1] == [words[0]] && words == words[..1] + words[1..];
  }

  lemma CreateKeeps(s: State, id: nat, p: Payload)
    requires Inv(s) && Enabled(s, Create(id, p))
    ensures Inv(Step(s, Create(id, p)))
  {
    CreateFits(p, s.write);
    CreateSays(p, s.write);
    RowKeeps(s, id, Created(p, s.write), AskedParts(p, Row(None, None, None), s.write));
  }

  /** One row is written. */
  lemma RowKeeps(s: State, id: nat, row: Row, said: Said)
    requires Inv(s) && RowSays(row, said, s.write) && (s.write != WriteLegacy ==> !NeedsBackfill(row))
    requires !s.column ==> row.full.None?
    ensures Inv(s.(users := s.users[id := row], said := s.said[id := said]))
  {}

  lemma UpdateKeeps(s: State, id: nat, p: Payload)
    requires Inv(s) && Enabled(s, Update(id, p))
    ensures Inv(Step(s, Update(id, p)))
  {
    UpdateFits(s.users[id], s.said[id].Whole(), p, s.write, s.read_);
    UpdateSays(s.users[id], s.said[id], p, s.write, s.read_);
    var shown := View(s.users[id], s.read_);
    RowKeeps(s, id, Updated(s.users[id], p, s.write, s.read_), AskedParts(p, shown, s.write));
  }

  lemma BackfillKeeps(s: State, ids: set<nat>)
    requires Inv(s) && Enabled(s, BackfillBatch(ids))
    ensures Inv(Step(s, BackfillBatch(ids)))
  {
    forall id | id in s.users
      ensures RowSays(Fill(s.users[id]), s.said[id], WriteDual) && !NeedsBackfill(Fill(s.users[id]))
    {
      FillFits(s.users[id], s.said[id].Whole());
      FillSays(s.users[id], s.said[id]);
    }
  }

  lemma StepKeeps(s: State, a: Action)
    requires Inv(s) && Enabled(s, a)
    ensures Inv(Step(s, a))
  {
    match a
    case Create(id, p) => CreateKeeps(s, id, p);
    case Update(id, p) => UpdateKeeps(s, id, p);
    case BackfillBatch(ids) => BackfillKeeps(s, ids);
    case _ =>
  }

  // ---------- runs ----------

  ghost predicate Allowed(s: State, run: seq<Action>)
    requires s.said.Keys == s.users.Keys
    decreases |run|
  {
    run == [] || (Enabled(s, run[0]) && Allowed(Step(s, run[0]), run[1..]))
  }

  ghost function After(s: State, run: seq<Action>): (r: State)
    requires s.said.Keys == s.users.Keys && Allowed(s, run)
    ensures r.said.Keys == r.users.Keys
    decreases |run|
  {
    if run == [] then s else After(Step(s, run[0]), run[1..])
  }

  lemma {:induction false} RunKeeps(s: State, run: seq<Action>)
    requires Inv(s) && Allowed(s, run)
    ensures Inv(After(s, run))
    decreases |run|
  {
    if run != [] {
      StepKeeps(s, run[0]);
      RunKeeps(Step(s, run[0]), run[1..]);
    }
  }

  /** `check_user_body`: the three name fields are there and agree up to whitespace. */
  predicate CheckUserBody(v: Row) {
    v.full.Some? && v.first.Some?
    && Normalise(v.full.value) == Normalise(v.first.value + " " + (if v.last.Some? then v.last.value else ""))
  }

  /** In every phase every user is shown by the words last given, in both shapes: as a full name, and part by part, a
    full name having its first word as first name. */
  lemma ShownAsGiven(start: State, run: seq<Action>, id: nat)
    requires Initial(start) && Allowed(start, run) && id in After(start, run).users
    ensures var s := After(start, run);
      var v := View(s.users[id], s.read_);
      && WordsOf(v.full) == s.said[id].Whole() && CheckUserBody(v)
      && WordsOf(v.first) == s.said[id].first && WordsOf(v.last) == s.said[id].last
  {
    RunKeeps(start, run);
    var s := After(start, run);
    CurrentIsShown(s.users[id], s.said[id].Whole(), s.write, s.read_);
    PartsShown(s.users[id], s.said[id], s.write, s.read_);
    var v := View(s.users[id], s.read_);
    assert v.first.value + " " + v.last.value == v.first.value + (" " + v.last.value);
    WordsAppend(v.first.value, " " + v.last.value);
    assert (" " + v.last.value)[1..] == v.last.value;
    SameWords(v.full.value, v.first.value + " " + v.last.value);
  }

  lemma PartsShown(row: Row, said: Said, mode: WriteMode, read_: ReadSource)
    requires RowSays(row, said, mode) && (read_ == ReadNew ==> !NeedsBackfill(row))
             && (mode == WriteNew ==> read_ == ReadNew)
    ensures WordsOf(View(row, read_).first) == said.first && WordsOf(View(row, read_).last) == said.last
  {
    if row.first.None? {
      SplitKeepsWords(row.full);
      var words := said.Whole();
      assert words[..1] == [words[0]] && words == words[..1] + words[1..];
    }
  }

  predicate Touches(a: Action, id: nat) { (a.Create? || a.Update?) && a.id == id }

  lemma {:induction false} SaidUntouched(s: State, run: seq<Action>, id: nat)
    requires s.said.Keys == s.users.Keys && Allowed(s, run) && id in s.users
    requires forall a | a in run :: !Touches(a, id)
    ensures id in After(s, run).users && After(s, run).said[id] == s.said[id]
    decreases |run|
  {
    if run != [] {
      assert !Touches(run[0], id);
      SaidUntouched(Step(s, run[0]), run[1..], id);
    }
  }

  /** A row that no request touches shows the same two parts, letter for letter. */
  lemma StepKeepsParts(s: State, a: Action, id: nat)
    requires Inv(s) && Enabled(s, a) && id in s.users && !Touches(a, id)
    ensures var t := Step(s, a);
      && id in t.users
      && View(t.users[id], t.read_).first == View(s.users[id], s.read_).first
      && View(t.users[id], t.read_).last == View(s.users[id], s.read_).last
  {
    var row := s.users[id];
    assert RowSays(row, s.said[id], s.write);
    match a
    case BackfillBatch(ids) => FillShowsSame(row, s.said[id].Whole(), s.read_);
    case Refill(lo, hi) => assert !NeedsBackfill(row);
    case Contract => assert s.read_ == ReadNew ==> !NeedsBackfill(row);
    case _ =>
  }

  /** The backfill stores exactly the parts that were shown. */
  lemma FillShowsSame(row: Row, words: seq<string>, read_: ReadSource)
    requires RowFits(row, words, WriteDual) && (read_ == ReadNew ==> !NeedsBackfill(row))
    ensures var f := if NeedsBackfill(row) then Fill(row) else row;
      View(f, read_).first == View(row, read_).first && View(f, read_).last == View(row, read_).last
  {}

  lemma {:induction false} PartsUntouched(s: State, run: seq<Action>, id: nat)
    requires Inv(s) && Allowed(s, run) && id in s.users && forall a | a in run :: !Touches(a, id)
    ensures var t := After(s, run);
      && id in t.users
      && View(t.users[id], t.read_).first == View(s.users[id], s.read_).first
      && View(t.users[id], t.read_).last == View(s.users[id], s.read_).last
    decreases |run|
  {
    if run != [] {
      assert !Touches(run[0], id);
      StepKeeps(s, run[0]);
      StepKeepsParts(s, run[0], id);
      PartsUntouched(Step(s, run[0]), run[1..], id);
    }
  }

  /** No flag change, backfill, contract, refill or write to another user changes the first and last name a user is
    shown by, letter for letter, or the words of the full name. */
  lemma MigrationPreservesNames(start: State, before: seq<Action>, during: seq<Action>, id: nat)
    requires Initial(start) && Allowed(start, before) && id in After(start, before).users
    requires Allowed(After(start, before), during) && forall a | a in during :: !Touches(a, id)
    ensures var s := After(start, before);
      var t := After(s, during);
      && id in t.users
      && WordsOf(View(t.users[id], t.read_).full) == WordsOf(View(s.users[id], s.read_).full)
      && View(t.users[id], t.read_).first == View(s.users[id], s.read_).first
      && View(t.users[id], t.read_).last == View(s.users[id], s.read_).last
  {
    var s := After(start, before);
    RunKeeps(start, before);
    PartsUntouched(s, during, id);
    SaidUntouched(s, during, id);
    RunKeeps(s, during);
    var t := After(s, during);
    CurrentIsShown(s.users[id], s.said[id].Whole(), s.write, s.read_);
    CurrentIsShown(t.users[id], t.said[id].Whole(), t.write, t.read_);
  }

  /** The column is selected by reads, and written or selected by writes. */
  predicate ReadMentionsColumn(s: State) { s.read_ != ReadNew }

  predicate WriteMentionsColumn(s: State) { s.write != WriteNew || s.read_ != ReadNew }

  /** Once the column is gone, no request mentions it, and nobody lacks a name. */
  lemma ContractIsSafe(start: State, run: seq<Action>)
    requires Initial(start) && Allowed(start, run) && !After(start, run).column
    ensures var s := After(start, run); !ReadMentionsColumn(s) && !WriteMentionsColumn(s) && Complete(s.users)
  {
    RunKeeps(start, run);
  }

  /** After the refill of a restored column, a legacy reader sees what the others see. */
  lemma RefillRestoresLegacyView(start: State, run: seq<Action>, id: nat)
    requires Initial(start) && Allowed(start, run) && id in After(start, run).users && !After(start, run).column
    ensures var row := After(start, run).users[id];
      WordsOf(View(Refilled(row), ReadLegacy).full) == WordsOf(View(row, ReadNew).full)
  {
    RunKeeps(start, run);
    var s := After(start, run);
    CurrentIsShown(s.users[id], s.said[id].Whole(), s.write, s.read_);
    RefillAgrees(s.users[id]);
  }

  // ---------- where the order of the phases matters ----------

  lemma LegacyWriteSays(row: Row, words: seq<string>, p: Payload)
    requires RowFits(row, words, WriteDual) && ValidUpdate(p)
    ensures var r := Updated(row, p, WriteLegacy, ReadLegacy);
      r.first == row.first && r.last == row.last && FullSays(r, Asked(p, View(row, ReadLegacy)))
      && Asked(p, View(row, ReadLegacy)) != []
  {
    CurrentIsShown(row, words, WriteDual, ReadLegacy);
    match p
    case Whole(full) => ResolveWhole(full);
    case Parts(first, last) =>
      var v := View(row, ReadLegacy);
      ResolveParts(if first.Some? then first else v.first, if last.Some? then last else v.last);
  }

  /** Going back from dual to legacy writes leaves first and last name behind: the next write agrees with them only when
    the user had none stored, or the name does not change. */
  lemma LegacyWritesAgainAgreeWhen(row: Row, words: seq<string>, p: Payload)
    requires RowFits(row, words, WriteDual) && ValidUpdate(p)
    ensures Agrees(View(Updated(row, p, WriteLegacy, ReadLegacy), ReadLegacy))
      <==> row.first.None? || Asked(p, View(row, ReadLegacy)) == words
  {
    LegacyWriteSays(row, words, p);
    var r := Updated(row, p, WriteLegacy, ReadLegacy);
    assert Truthy(r.full);
    SplitKeepsWords(r.full);
  }

  lemma NewWriteSays(row: Row, words: seq<string>, p: Payload)
    requires RowFits(row, words, WriteDual) && ValidUpdate(p)
    ensures var r := Updated(row, p, WriteNew, ReadLegacy);
      r.full == row.full && PartsSay(r, Asked(p, View(row, ReadLegacy)))
  {
    CurrentIsShown(row, words, WriteDual, ReadLegacy);
    match p
    case Whole(full) => ResolveWhole(full);
    case Parts(first, last) =>
      var v := View(row, ReadLegacy);
      ResolveParts(if first.Some? then first else v.first, if last.Some? then last else v.last);
  }

  /** Writing in the new shape before reads are switched leaves full_name behind: the next write is shown only when the
    name does not change. */
  lemma NewWritesUnderLegacyReadsAgreeWhen(row: Row, words: seq<string>, p: Payload)
    requires RowFits(row, words, WriteDual) && ValidUpdate(p)
    ensures Agrees(View(Updated(row, p, WriteNew, ReadLegacy), ReadLegacy))
            <==> Asked(p, View(row, ReadLegacy)) == words
  {
    NewWriteSays(row, words, p);
    assert Truthy(row.full);
  }

  lemma TwoWords(a: string, b: string)
    requires |a| == |b| == 3 && forall c | c in a + b :: !IsSpace(c)
    ensures Words(a + " " + b) == [a, b] && Words(a) == [a] && Words(b) == [b]
  {
    assert (forall c | c in a :: c in a + b) && (forall c | c in b :: c in a + b);
    WordOf3(a);
    WordOf3(b);
    assert a + " " + b == a + (" " + b) && (" " + b)[1..] == b;
    WordsAppend(a, " " + b);
  }

  lemma NameFits(a: string, b: string)
    requires |a| == |b| == 3 && forall c | c in a + b :: !IsSpace(c)
    ensures RowFits(Row(Some(a + " " + b), Some(a), Some(b)), [a, b], WriteDual)
  {
    TwoWords(a, b);
  }

  lemma AnnLeeFits()
    ensures RowFits(Row(Some("Ann Lee"), Some("Ann"), Some("Lee")), ["Ann", "Lee"], WriteDual)
  {
    NameFits("Ann", "Lee");
    assert "Ann" + " " + "Lee" == "Ann Lee";
  }

  lemma BoIsNotAnn()
    ensures Words("Bo") != [] && Words("Bo")[0] != "Ann"
  {
    assert Words("Bo")[0] == FirstWord("Bo") && |FirstWord("Bo")| <= 2;
  }

  /** Ann Lee renamed to Bo: her last name is still shown after a rollback to legacy writes. */
  lemma StaleNames()
    ensures var row := Row(Some("Ann Lee"), Some("Ann"), Some("Lee"));
      && RowFits(row, ["Ann", "Lee"], WriteDual)
      && !Agrees(View(Updated(row, Whole("Bo"), WriteLegacy, ReadLegacy), ReadLegacy))
      && !Agrees(View(Updated(row, Whole("Bo"), WriteNew, ReadLegacy), ReadLegacy))
  {
    AnnLeeFits();
    BoIsNotAnn();
    LegacyWritesAgainAgreeWhen(Row(Some("Ann Lee"), Some("Ann"), Some("Lee")), ["Ann", "Lee"], Whole("Bo"));
    NewWritesUnderLegacyReadsAgreeWhen(Row(Some("Ann Lee"), Some("Ann"), Some("Lee")), ["Ann", "Lee"], Whole("Bo"));
  }

  lemma WordOf3(s: string)
    requires |s| == 3 && forall c | c in s :: !IsSpace(c)
    ensures Words(s) == [s]
  {
    assert FirstWord(s[3..]) == [];
    assert FirstWord(s[2..]) == [s[2]] + FirstWord(s[2..][1..]);
    assert FirstWord(s[1..]) == [s[1]] + FirstWord(s[1..][1..]);
    assert s[2..][1..] == s[3..] && s[1..][1..] == s[2..];
    assert FirstWord(s) == s;
    assert s[3..] == [];
  }
}
