/** app/services/user_service.py: splitting, joining and resolving names; names are compared word by word. */
module Names {
  import opened Wrappers
  import opened Text

  // ---------- words ----------

  /** The longest prefix without whitespace. */
  function FirstWord(s: string): (w: string)
    ensures w <= s && (w == [] <==> s == [] || IsSpace(s[0]))
  {
    if s == [] || IsSpace(s[0]) then [] else [s[0]] + FirstWord(s[1..])
  }

  /** `s.split()`: the maximal runs of characters that are not whitespace. */
  function Words(s: string): seq<string> {
    if s == [] then []
    else if IsSpace(s[0]) then Words(s[1..])
    else [FirstWord(s)] + Words(s[|FirstWord(s)|..])
  }

  /** Text `a` ends, or text `b` starts, at a word boundary. */
  predicate Boundary(a: string, b: string) {
    a == [] || b == [] || IsSpace(a[|a| - 1]) || IsSpace(b[0])
  }

  lemma {:induction false} FirstWordAppend(a: string, b: string)
    requires a != [] && Boundary(a, b)
    ensures FirstWord(a + b) == FirstWord(a)
  {
    if !IsSpace(a[0]) {
      assert (a + b)[1..] == a[1..] + b;
      if |a| == 1 {
        assert a[1..] + b == b;
      } else {
        FirstWordAppend(a[1..], b);
      }
    }
  }

  lemma {:induction false} WordsAppend(a: string, b: string)
    requires Boundary(a, b)
    ensures Words(a + b) == Words(a) + Words(b)
    decreases |a|
  {
    if a == [] {
      assert a + b == b;
    } else if IsSpace(a[0]) {
      assert (a + b)[1..] == a[1..] + b;
      WordsAppend(a[1..], b);
    } else {
      RestAppend(a, b);
      WordsAppend(a[|FirstWord(a)|..], b);
    }
  }

  lemma RestAppend(a: string, b: string)
    requires a != [] && !IsSpace(a[0]) && Boundary(a, b)
    ensures var n := |FirstWord(a)|;
      FirstWord(a + b) == FirstWord(a) && 0 < n <= |a| && (a + b)[n..] == a[n..] + b && Boundary(a[n..], b)
  {
    FirstWordAppend(a, b);
  }

  lemma {:induction false} WordsOfLStrip(s: string)
    ensures Words(LStrip(s)) == Words(s)
    ensures LStrip(s) == [] || !IsSpace(LStrip(s)[0])
  {
    if s != [] && IsSpace(s[0]) { WordsOfLStrip(s[1..]); }
  }

  lemma {:induction false} WordsOfRStrip(s: string)
    ensures Words(RStrip(s)) == Words(s) && RStrip(s) <= s
    ensures s != [] && !IsSpace(s[0]) ==> RStrip(s) != []
  {
    if s != [] && IsSpace(s[|s| - 1]) {
      var n := |s| - 1;
      WordsOfRStrip(s[..n]);
      assert s == s[..n] + [s[n]];
      assert [s[n]][1..] == [];
      WordsAppend(s[..n], [s[n]]);
    }
  }

  /** Stripping keeps the words; only a text without words strips to nothing. */
  lemma WordsOfStrip(s: string)
    ensures Words(Strip(s)) == Words(s)
    ensures Strip(s) == [] <==> Words(s) == []
    ensures Strip(s) != [] ==> !IsSpace(Strip(s)[0])
  {
    WordsOfLStrip(s);
    WordsOfRStrip(LStrip(s));
  }

  lemma {:induction false} WordIsItsWord(s: string)
    ensures FirstWord(FirstWord(s)) == FirstWord(s)
    ensures FirstWord(s) != [] ==> Words(FirstWord(s)) == [FirstWord(s)]
  {
    if s != [] && !IsSpace(s[0]) {
      WordIsItsWord(s[1..]);
      var w := FirstWord(s);
      assert w[1..] == FirstWord(s[1..]);
      assert w[|w|..] == [];
    }
  }

  function WordsOf(s: Option<string>): seq<string> { if s.Some? then Words(s.value) else [] }

  // ---------- normalised text ----------

  function JoinWords(words: seq<string>): string {
    if words == [] then "" else if |words| == 1 then words[0] else words[0] + " " + JoinWords(words[1..])
  }

  /** `" ".join(text.split())`, as the traffic check compares names. */
  function Normalise(s: string): string { JoinWords(Words(s)) }

  lemma {:induction false} WordsOfNormalised(s: string)
    ensures Words(Normalise(s)) == Words(s)
    decreases |s|
  {
    if s == [] {
    } else if IsSpace(s[0]) {
      WordsOfNormalised(s[1..]);
    } else {
      WordsOfNormalised(s[|FirstWord(s)|..]);
      NormaliseNext(FirstWord(s), Words(s[|FirstWord(s)|..]));
      WordIsItsWord(s);
    }
  }

  /** One more word in front, a blank between. */
  lemma NormaliseNext(w: string, rest: seq<string>)
    requires Words(JoinWords(rest)) == rest
    ensures Words(JoinWords([w] + rest)) == Words(w) + rest
  {
    if rest == [] {
      assert JoinWords([w]) == w;
    } else {
      var tail := JoinWords(rest);
      assert ([w] + rest)[1..] == rest && JoinWords([w] + rest) == w + (" " + tail);
      WordsAppend(w, " " + tail);
      assert (" " + tail)[1..] == tail;
    }
  }

  /** Two texts normalise to the same one exactly when they have the same words. */
  lemma SameWords(a: string, b: string)
    ensures Normalise(a) == Normalise(b) <==> Words(a) == Words(b)
  {
    WordsOfNormalised(a);
    WordsOfNormalised(b);
  }

  // ---------- split and join ----------

  /** `full_name.strip().split(maxsplit=1)`: the first word and the stripped rest. */
  function SplitFullName(full: Option<string>): (string, string) {
    if full.None? then ("", "")
    else
      var s := Strip(full.value);
      (FirstWord(s), LStrip(s[|FirstWord(s)|..]))
  }

  function JoinNames(first: Option<string>, last: Option<string>): string {
    var f := Clean(first);
    var l := Clean(last);
    if f.Some? && l.Some? then f.value + " " + l.value else if f.Some? then f.value else if l.Some? then l.value else ""
  }

  /** Strip; blank becomes None. */
  function Clean(value: Option<string>): Option<string> {
    if value.None? || Strip(value.value) == "" then None else Some(Strip(value.value))
  }

  lemma CleanKeepsWords(value: Option<string>)
    ensures WordsOf(Clean(value)) == WordsOf(value)
    ensures Clean(value).Some? <==> WordsOf(value) != []
    ensures Clean(value).Some? ==> Clean(value).value != ""
    ensures Clean(Clean(value)) == Clean(value)
  {
    if value.Some? {
      WordsOfStrip(value.value);
      StripTwice(value.value);
    }
  }

  lemma StripTwice(s: string)
    ensures Strip(Strip(s)) == Strip(s)
  {
    WordsOfStrip(s);
    RStripTwice(LStrip(s));
  }

  lemma {:induction false} RStripTwice(s: string)
    ensures RStrip(RStrip(s)) == RStrip(s)
  {
    if s != [] && IsSpace(s[|s| - 1]) { RStripTwice(s[..|s| - 1]); }
  }

  /** Splitting a name and reading the two parts gives its words back; the first part is exactly its first word. */
  lemma SplitKeepsWords(full: Option<string>)
    ensures var (head, tail) := SplitFullName(full);
      && Words(head) + Words(tail) == WordsOf(full)
      && Words(head) == (if WordsOf(full) == [] then [] else [WordsOf(full)[0]])
      && (head == "" <==> WordsOf(full) == [])
  {
    if full.Some? {
      var s := Strip(full.value);
      WordsOfStrip(full.value);
      WordIsItsWord(s);
      WordsOfLStrip(s[|FirstWord(s)|..]);
    }
  }

  /** Joining two parts gives the words of both, in order. */
  lemma JoinKeepsWords(first: Option<string>, last: Option<string>)
    ensures Words(JoinNames(first, last)) == WordsOf(first) + WordsOf(last)
    ensures JoinNames(first, last) == "" <==> WordsOf(first) + WordsOf(last) == []
  {
    CleanKeepsWords(first);
    CleanKeepsWords(last);
    var f := Clean(first);
    var l := Clean(last);
    if f.Some? && l.Some? {
      assert f.value + " " + l.value == f.value + (" " + l.value);
      WordsAppend(f.value, " " + l.value);
      assert (" " + l.value)[1..] == l.value;
    }
  }

  /** Split and join undo each other, word by word. */
  lemma SplitThenJoin(full: Option<string>)
    ensures var (head, tail) := SplitFullName(full); Words(JoinNames(Some(head), Some(tail))) == WordsOf(full)
  {
    SplitKeepsWords(full);
    var (head, tail) := SplitFullName(full);
    JoinKeepsWords(Some(head), Some(tail));
  }

  // ---------- what a write stores ----------

  /** The three name columns of a user; None is NULL. */
  datatype Row = Row(full: Option<string>, first: Option<string>, last: Option<string>)

  /** Values of the `user_name_write_mode` and `user_name_read_source` flags. */
  datatype WriteMode = WriteLegacy | WriteDual | WriteNew
  datatype ReadSource = ReadLegacy | ReadNew

  /** Both representations of a name, the missing one derived from the other. */
  function Derive(full: Option<string>, first: Option<string>, last: Option<string>): Row {
    var f0 := Clean(first);
    var l0 := Clean(last);
    var joined := JoinNames(f0, l0);
    var whole := if Clean(full).Some? then Clean(full) else if joined != "" then Some(joined) else None;
    var (head, tail) := SplitFullName(whole);
    var (f, l) := if whole.Some? && f0.None? then (Some(head), if l0.Some? then l0 else Some(tail)) else (f0, l0);
    if f.Some? && f.value != "" && l.None?
    then Row(whole, f, Some(if whole.Some? && head == f.value then tail else ""))
    else Row(whole, f, l)
  }

  /** What the columns written in a mode receive; the others come back None. */
  function ResolveNames(full: Option<string>, first: Option<string>, last: Option<string>, mode: WriteMode): Row {
    var r := Derive(full, first, last);
    match mode
    case WriteLegacy => Row(r.full, None, None)
    case WriteNew => Row(None, r.first, r.last)
    case WriteDual => r
  }

  /** full_name reads like first_name followed by last_name. */
  predicate Agrees(r: Row) { WordsOf(r.full) == WordsOf(r.first) + WordsOf(r.last) }

  /** All three columns are set, agree and say exactly the given words; the first name is not blank. */
  predicate Says(r: Row, words: seq<string>) {
    && r.full.Some? && r.first.Some? && r.last.Some?
    && Words(r.full.value) == words && Agrees(r) && WordsOf(r.first) != []
  }

  /** A write in the legacy shape keeps the words of full_name in both representations. */
  lemma ResolveWhole(full: string)
    requires Words(full) != []
    ensures Says(Derive(Some(full), None, None), Words(full))
  {
    CleanKeepsWords(Some(full));
    SplitKeepsWords(Clean(Some(full)));
  }

  /** A write in the split shape keeps the words of each part, when the first name is not blank. */
  lemma ResolveParts(first: Option<string>, last: Option<string>)
    requires WordsOf(first) != []
    ensures var r := Derive(None, first, last);
      && Says(r, WordsOf(first) + WordsOf(last))
      && WordsOf(r.first) == WordsOf(first) && WordsOf(r.last) == WordsOf(last)
  {
    CleanKeepsWords(first);
    CleanKeepsWords(last);
    JoinKeepsWords(Clean(first), Clean(last));
    var whole := Some(JoinNames(Clean(first), Clean(last)));
    SplitKeepsWords(whole);
    CleanKeepsWords(Clean(first));
  }

  /** A write of parts only agrees exactly when it has a first name, or no name at all. */
  lemma PartsAgreeWhen(first: Option<string>, last: Option<string>)
    ensures Agrees(Derive(None, first, last)) <==> WordsOf(first) != [] || WordsOf(last) == []
  {
    CleanKeepsWords(first);
    CleanKeepsWords(last);
    if WordsOf(first) != [] {
      ResolveParts(first, last);
    } else {
      JoinKeepsWords(Clean(first), Clean(last));
      CleanKeepsWords(Clean(last));
      SplitKeepsWords(Clean(last));
    }
  }

  /** A blank first name with a last name is stored with the last name twice. */
  lemma LastNameOnly()
    ensures Derive(None, Some(" "), Some("Lee")) == Row(Some("Lee"), Some("Lee"), Some("Lee"))
    ensures !Agrees(Derive(None, Some(" "), Some("Lee")))
  {
    assert Strip(" ") == "" by { assert LStrip(" ") == LStrip(""); }
    assert FirstWord("Lee") == "Lee" by {
      assert FirstWord("Lee") == "L" + FirstWord("ee") && FirstWord("ee") == "e" + FirstWord("e");
      assert FirstWord("e") == "e" + FirstWord("");
    }
    PartsAgreeWhen(Some(" "), Some("Lee"));
    WordsOfStrip("Lee");
    WordsOfStrip(" ");
  }

  /** A write that gives both shapes agrees exactly when the given parts read like the given full name, a part that is
    not given being taken from it. */
  lemma MixedShapesAgreeWhen(full: string, first: Option<string>, last: Option<string>)
    requires Words(full) != []
    ensures var words := Words(full);
      Agrees(Derive(Some(full), first, last)) <==>
        if WordsOf(first) == [] then (WordsOf(last) == [] || WordsOf(last) == words[1..])
        else if WordsOf(last) != [] then WordsOf(first) + WordsOf(last) == words
        else Clean(first) == Some(words[0]) || WordsOf(first) == words
  {
    var words := Words(full);
    MixedFields(full, first, last);
    SplitWords(full);
    CleanKeepsWords(first);
    if WordsOf(first) == [] {
      assert ([words[0]] + WordsOf(last))[1..] == WordsOf(last);
    } else {
      assert WordsOf(first) + [] == WordsOf(first);
    }
  }

  /** What the three columns then say. */
  lemma MixedFields(full: string, first: Option<string>, last: Option<string>)
    requires Words(full) != []
    ensures var r, words := Derive(Some(full), first, last), Words(full);
      && WordsOf(r.full) == words
      && WordsOf(r.first) == (if WordsOf(first) == [] then [words[0]] else WordsOf(first))
      && WordsOf(r.last) == if WordsOf(last) != [] then WordsOf(last)
                            else if WordsOf(first) == [] || Clean(first) == Some(words[0]) then words[1..]
                            else []
  {
    CleanKeepsWords(first);
    CleanKeepsWords(last);
    CleanKeepsWords(Some(full));
    SplitWords(full);
    assert Words("") == [];
  }

  /** The parts of a full name, word by word. */
  lemma SplitWords(full: string)
    requires Words(full) != []
    ensures var (head, tail) := SplitFullName(Clean(Some(full)));
      var words := Words(full);
      head == words[0] && Words(head) == [words[0]] && Words(tail) == words[1..] && words == [words[0]] + words[1..]
  {
    CleanKeepsWords(Some(full));
    SplitKeepsWords(Clean(Some(full)));
    HeadIsFirstWord(full);
  }

  /** The first part of a split name is its first word, letter by letter. */
  lemma HeadIsFirstWord(full: string)
    requires Words(full) != []
    ensures SplitFullName(Clean(Some(full))).0 == Words(full)[0]
  {
    WordsOfStrip(full);
    StripTwice(full);
  }

  // ---------- letter by letter ----------

  lemma BlankWhen(s: string)
    ensures Words(s) == [] <==> Blank(s)
  {
    WordsOfStrip(s);
    BlankStrips(s);
  }

  /** A full name is its first word, a gap of blanks, and the rest, once the blanks around it are gone. */
  lemma SplitLetters(full: string) returns (gap: string)
    ensures var (head, tail) := SplitFullName(Some(full));
      && Strip(full) == head + gap + tail && Blank(gap) && head == FirstWord(Strip(full))
      && (tail != "" ==> gap != "" && !IsSpace(tail[0]))
  {
    var s := Strip(full);
    var rest := s[|FirstWord(s)|..];
    gap := LStripParts(rest);
    RestStartsBlank(s);
    var (head, tail) := SplitFullName(Some(full));
    assert s == head + rest && rest == gap + tail;
    assert head + gap + tail == head + (gap + tail);
    assert gap == "" ==> rest == tail;
  }

  lemma {:induction false} RestStartsBlank(s: string)
    ensures var rest := s[|FirstWord(s)|..]; rest != "" ==> IsSpace(rest[0])
  {
    if s != "" && !IsSpace(s[0]) {
      RestStartsBlank(s[1..]);
      assert s[|FirstWord(s)|..] == s[1..][|FirstWord(s[1..])|..];
    }
  }

  /** A part without the blanks around it; nothing for a part that is missing or blank. */
  function Trimmed(part: Option<string>): string { if part.Some? && !Blank(part.value) then Strip(part.value) else "" }

  lemma CleanIsTrimmed(part: Option<string>)
    ensures Clean(part) == if Trimmed(part) == "" then None else Some(Trimmed(part))
  {
    if part.Some? { BlankStrips(part.value); }
  }

  lemma JoinIsTrimmed(first: Option<string>, last: Option<string>)
    ensures JoinNames(Clean(first), Clean(last)) == JoinNames(first, last)
    ensures var f, l := Trimmed(first), Trimmed(last);
      JoinNames(first, last) == if f == "" then l else if l == "" then f else f + " " + l
  {
    CleanKeepsWords(first);
    CleanKeepsWords(last);
    CleanIsTrimmed(first);
    CleanIsTrimmed(last);
  }

  /** A write of parts stores each part as it was sent, without the blanks around it, and the two with one blank between
    them as the full name. */
  lemma PartsStored(first: Option<string>, last: Option<string>)
    requires WordsOf(first) != []
    ensures var f, l := Trimmed(first), Trimmed(last);
      Derive(None, first, last) == Row(Some(if l == "" then f else f + " " + l), Some(f), Some(l))
  {
    BlankWhen(first.value);
    BlankStrips(first.value);
    CleanIsTrimmed(first);
    CleanIsTrimmed(last);
    JoinIsTrimmed(first, last);
    if Trimmed(last) == "" { OneWordRest(first.value); }
  }

  /** If the first word of a name is all of it, there is no rest. */
  lemma OneWordRest(first: string)
    ensures var (head, tail) := SplitFullName(Some(Strip(first))); head == Strip(first) ==> tail == ""
  {
    StripTwice(first);
    assert FirstWord(Strip(first)) == Strip(first) ==> Strip(first)[|FirstWord(Strip(first))|..] == "";
  }

  /** A write of a full name stores it without the blanks around it, its first word, and its rest. */
  lemma WholeStored(full: string) returns (gap: string, rest: string)
    requires Words(full) != []
    ensures Derive(Some(full), None, None) == Row(Some(Strip(full)), Some(Words(full)[0]), Some(rest))
    ensures Strip(full) == Words(full)[0] + gap + rest && Blank(gap)
    ensures rest != "" ==> gap != "" && !IsSpace(rest[0])
  {
    BlankWhen(full);
    BlankStrips(full);
    StripTwice(full);
    gap := SplitLetters(Strip(full));
    rest := SplitFullName(Some(Strip(full))).1;
    HeadIsFirstWord(full);
    WordsOfStrip(full);
  }

  /** Text without blanks at its ends is stripped already. */
  lemma StripFixed(s: string)
    requires s == "" || (!IsSpace(s[0]) && !IsSpace(s[|s| - 1]))
    ensures Strip(s) == s && Trimmed(Some(s)) == s
  {}

  lemma TrimmedTwice(part: Option<string>)
    ensures Trimmed(Some(Trimmed(part))) == Trimmed(part)
  {
    if part.Some? {
      StripTwice(part.value);
      BlankStrips(part.value);
    }
    if Trimmed(part) != "" { BlankStrips(Trimmed(part)); }
  }

  lemma {:induction false} FirstWordHasNoBlank(s: string)
    ensures forall i :: 0 <= i < |FirstWord(s)| ==> !IsSpace(FirstWord(s)[i])
  {
    if s != "" && !IsSpace(s[0]) { FirstWordHasNoBlank(s[1..]); }
  }

  /** Both parts of a split name are trimmed. */
  lemma TailTrimmed(full: string)
    requires Words(full) != []
    ensures var (head, tail) := SplitFullName(Some(Strip(full)));
      Trimmed(Some(head)) == head && Trimmed(Some(tail)) == tail && head == Words(full)[0]
  {
    StripTwice(full);
    WordsOfStrip(full);
    HeadIsFirstWord(full);
    var s := Strip(full);
    var (head, tail) := SplitFullName(Some(s));
    var gap := SplitLetters(s);
    var left, right := StripParts(full);
    FirstWordHasNoBlank(s);
    StripFixed(head);
    if tail != "" {
      assert (head + gap + tail)[|s| - 1] == tail[|tail| - 1];
    }
    StripFixed(tail);
  }
}
