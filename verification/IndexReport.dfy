/** scripts/index_report.py: which indexes are the leading part of another one, and why dropping all of them is safe. */
module IndexReport {
  import opened Wrappers
  import opened Text

  /** One row of the catalog query; `expression`, `constraint`: has an expression, backs a constraint. */
  datatype Index = Index(
    table: string, name: string, method_: string, unique: bool, primary: bool, valid: bool, expression: bool,
    constraint: bool, predicate_: Option<string>,
    keys: seq<string>, options: seq<int>, opclasses: seq<string>, collations: seq<string>)
  {
    predicate Droppable() {
      method_ == "btree" && valid && !unique && !primary && !constraint && !expression
    }

    function Signature(n: nat): (seq<string>, seq<int>, seq<string>, seq<string>, Option<string>) {
      (Upto(keys, n), Upto(options, n), Upto(opclasses, n), Upto(collations, n), predicate_)
    }
  }

  /** Python's `s[:n]`. */
  function Upto<T>(s: seq<T>, n: nat): seq<T> { if n <= |s| then s[..n] else s }

  /** (table, name) identifies an index. */
  ghost predicate NamesUnique(indexes: seq<Index>) {
    forall i, j :: 0 <= i < j < |indexes| && indexes[i].table == indexes[j].table ==> indexes[i].name != indexes[j].name
  }

  /** b answers every lookup a answers; of two exact droppable duplicates the alphabetically first is kept. */
  predicate Covers(a: Index, b: Index) {
    && a.table == b.table && a != b && a.Droppable()
    && b.method_ == "btree" && b.valid && !b.expression && |b.keys| >= |a.keys|
    && Signature(a) == b.Signature(|a.keys|)
    && !(|b.keys| == |a.keys| && b.Droppable() && Before(a.name, b.name))
  }

  function Signature(a: Index): (seq<string>, seq<int>, seq<string>, seq<string>, Option<string>) {
    a.Signature(|a.keys|)
  }

  predicate Redundant(indexes: seq<Index>, a: Index) { exists b | b in indexes :: Covers(a, b) }

  // ---------- why there is always a keeper ----------

  lemma UptoTwice<T>(s: seq<T>, t: seq<T>, u: seq<T>, n: nat, m: nat)
    requires n <= m && Upto(s, n) == Upto(t, n) && Upto(t, m) == Upto(u, m)
    ensures Upto(s, n) == Upto(u, n)
  {
    assert Upto(t, n) == Upto(Upto(t, m), n) && Upto(u, n) == Upto(Upto(u, m), n);
  }

  lemma SignatureTransitive(a: Index, b: Index, c: Index)
    requires Signature(a) == b.Signature(|a.keys|) && Signature(b) == c.Signature(|b.keys|) && |a.keys| <= |b.keys|
    ensures Signature(a) == c.Signature(|a.keys|)
  {
    UptoTwice(a.keys, b.keys, c.keys, |a.keys|, |b.keys|);
    UptoTwice(a.options, b.options, c.options, |a.keys|, |b.keys|);
    UptoTwice(a.opclasses, b.opclasses, c.opclasses, |a.keys|, |b.keys|);
    UptoTwice(a.collations, b.collations, c.collations, |a.keys|, |b.keys|);
  }

  /** Between indexes with distinct names, coverage is irreflexive and transitive. */
  lemma CoverageIsStrict(a: Index, b: Index, c: Index)
    requires Covers(a, b) && Covers(b, c)
    requires (a.name == b.name ==> a == b) && (b.name == c.name ==> b == c) && (a.name == c.name ==> a == c)
    ensures a != c && Covers(a, c)
  {
    SignatureTransitive(a, b, c);
    BeforeTotal(a.name, b.name);
    BeforeTotal(b.name, c.name);
    BeforeIrreflexive(a.name);
    if |a.keys| == |c.keys| && c.Droppable() {
      BeforeTransitive(c.name, b.name, a.name);
      if Before(a.name, c.name) { BeforeTransitive(a.name, c.name, a.name); }
    }
  }

  ghost function CoveringSet(indexes: seq<Index>, a: Index): set<Index> { set b | b in indexes && Covers(a, b) }

  lemma SameNameSameIndex(indexes: seq<Index>)
    requires NamesUnique(indexes)
    ensures forall a, b :: a in indexes && b in indexes && a.table == b.table && a.name == b.name ==> a == b
  {}

  /** Every redundant index has a covering index that is not redundant itself. */
  lemma {:induction false} KeeperExists(indexes: seq<Index>, a: Index) returns (keeper: Index)
    requires NamesUnique(indexes) && a in indexes && Redundant(indexes, a)
    ensures keeper in indexes && Covers(a, keeper) && !Redundant(indexes, keeper)
    decreases CoveringSet(indexes, a)
  {
    var b :| b in indexes && Covers(a, b);
    SameNameSameIndex(indexes);
    if Redundant(indexes, b) {
      forall c | c in CoveringSet(indexes, b) ensures c in CoveringSet(indexes, a) {
        CoverageIsStrict(a, b, c);
      }
      assert b in CoveringSet(indexes, a) && b !in CoveringSet(indexes, b);
      keeper := KeeperExists(indexes, b);
      CoverageIsStrict(a, b, keeper);
    } else {
      keeper := b;
    }
  }

  // ---------- the report ----------

  datatype Finding = Finding(table: string, index: string, coveredBy: string)

  function Coverers(a: Index, group: seq<Index>): (r: seq<Index>)
    ensures forall b :: b in r <==> b in group && Covers(a, b)
  {
    if group == [] then []
    else Coverers(a, group[..|group| - 1]) + (if Covers(a, group[|group| - 1]) then [group[|group| - 1]] else [])
  }

  /** key=(len(b.keys), b.is_unique, b.idx) */
  predicate Better(a: Index, b: Index) {
    |a.keys| < |b.keys|
    || (|a.keys| == |b.keys| && ((!a.unique && b.unique) || (a.unique == b.unique && Before(a.name, b.name))))
  }

  lemma BetterTransitive(a: Index, b: Index, c: Index)
    ensures Better(a, b) && Better(b, c) ==> Better(a, c)
    ensures !Better(a, b) ==> Better(b, a) || a.name == b.name
    ensures !Better(a, a)
  {
    if Before(a.name, b.name) && Before(b.name, c.name) { BeforeTransitive(a.name, b.name, c.name); }
    BeforeTotal(a.name, b.name);
    BeforeIrreflexive(a.name);
  }

  method Best(candidates: seq<Index>) returns (best: Index)
    requires candidates != []
    ensures best in candidates && forall b :: b in candidates ==> !Better(best, b)
  {
    best := candidates[0];
    BetterTransitive(best, best, best);
    for i := 1 to |candidates|
      invariant best in candidates && forall j :: 0 <= j < i ==> !Better(best, candidates[j])
    {
      BetterTransitive(candidates[i], candidates[i], candidates[i]);
      if Better(best, candidates[i]) {
        forall j | 0 <= j < i ensures !Better(candidates[i], candidates[j]) {
          BetterTransitive(best, candidates[i], candidates[j]);
        }
        best := candidates[i];
      }
    }
  }

  /** The covering index named in a finding: the widest one that is itself kept. */
  ghost predicate Keeps(indexes: seq<Index>, a: Index, keeper: Index) {
    && keeper in indexes && Covers(a, keeper) && !Redundant(indexes, keeper)
    && forall b :: b in indexes && Covers(a, b) && !Redundant(indexes, b) ==> !Better(keeper, b)
  }

  ghost predicate Reports(indexes: seq<Index>, a: Index, f: Finding) {
    f.table == a.table && f.index == a.name && exists k :: Keeps(indexes, a, k) && k.name == f.coveredBy
  }

  predicate Ordered(f: Finding, g: Finding) {
    Before(f.table, g.table) || (f.table == g.table && Before(f.index, g.index))
  }

  lemma OrderedTransitive(f: Finding, g: Finding, h: Finding)
    ensures Ordered(f, g) && Ordered(g, h) ==> Ordered(f, h)
    ensures Ordered(f, g) || Ordered(g, f) || (f.table == g.table && f.index == g.index)
  {
    BeforeTotal(f.table, g.table);
    BeforeTotal(f.index, g.index);
    if Before(f.table, g.table) && Before(g.table, h.table) { BeforeTransitive(f.table, g.table, h.table); }
    if Before(f.index, g.index) && Before(g.index, h.index) { BeforeTransitive(f.index, g.index, h.index); }
  }

  /** `sorted(findings, key=(table, index))`, one insertion. */
  method Place(f: Finding, sorted: seq<Finding>) returns (r: seq<Finding>)
    requires forall i, j :: 0 <= i < j < |sorted| ==> Ordered(sorted[i], sorted[j])
    requires forall g :: g in sorted ==> !(g.table == f.table && g.index == f.index)
    ensures forall i, j :: 0 <= i < j < |r| ==> Ordered(r[i], r[j])
    ensures forall g :: g in r <==> g in sorted || g == f
  {
    var n := 0;
    while n < |sorted| && Ordered(sorted[n], f)
      invariant n <= |sorted| && forall i :: 0 <= i < n ==> Ordered(sorted[i], f)
    {
      n := n + 1;
    }
    if n < |sorted| { OrderedTransitive(f, sorted[n], f); }
    forall j | n <= j < |sorted| ensures Ordered(f, sorted[j]) {
      assert sorted[n] in sorted;
      if n < j { OrderedTransitive(f, sorted[n], sorted[j]); }
    }
    r := sorted[..n] + [f] + sorted[n..];
    assert sorted == sorted[..n] + sorted[n..];
  }

  function OfTable(indexes: seq<Index>, t: string): (r: seq<Index>)
    ensures forall a :: a in r <==> a in indexes && a.table == t
  {
    if indexes == [] then []
    else OfTable(indexes[..|indexes| - 1], t)
         + (if indexes[|indexes| - 1].table == t then [indexes[|indexes| - 1]] else [])
  }

  lemma OfTableSnoc(indexes: seq<Index>, a: Index, t: string)
    ensures OfTable(indexes + [a], t) == OfTable(indexes, t) + (if a.table == t then [a] else [])
  {
    assert (indexes + [a])[..|indexes|] == indexes;
  }

  lemma OfTableEmpty(indexes: seq<Index>, t: string)
    ensures OfTable(indexes, t) != [] <==> exists a :: a in indexes && a.table == t
  {
    var group := OfTable(indexes, t);
    if group != [] {
      assert group[0] in group;
    }
    if a :| a in indexes && a.table == t {
      assert a in group;
    }
  }

  ghost predicate GroupedAt(indexes: seq<Index>, byTable: map<string, seq<Index>>, t: string) {
    if t in byTable then byTable[t] == OfTable(indexes, t) != [] else OfTable(indexes, t) == []
  }

  /** Each table with an index -> its indexes, for the first indexes of the catalog. */
  ghost predicate Grouped(indexes: seq<Index>, byTable: map<string, seq<Index>>) {
    forall t :: GroupedAt(indexes, byTable, t)
  }

  lemma GroupNext(indexes: seq<Index>, a: Index, byTable: map<string, seq<Index>>)
    requires Grouped(indexes, byTable)
    ensures Grouped(indexes + [a], byTable[a.table := (if a.table in byTable then byTable[a.table] else []) + [a]])
  {
    var after := byTable[a.table := (if a.table in byTable then byTable[a.table] else []) + [a]];
    forall t ensures GroupedAt(indexes + [a], after, t) {
      assert GroupedAt(indexes, byTable, t);
      OfTableSnoc(indexes, a, t);
    }
  }

  /** The indexes of each table, in catalog order. */
  method GroupByTable(indexes: seq<Index>) returns (byTable: map<string, seq<Index>>)
    ensures forall t :: t in byTable <==> exists a :: a in indexes && a.table == t
    ensures forall t :: t in byTable ==> byTable[t] == OfTable(indexes, t)
  {
    byTable := map[];
    for i := 0 to |indexes|
      invariant Grouped(indexes[..i], byTable)
    {
      var a := indexes[i];
      GroupNext(indexes[..i], a, byTable);
      assert indexes[..i + 1] == indexes[..i] + [a];
      byTable := byTable[a.table := (if a.table in byTable then byTable[a.table] else []) + [a]];
    }
    assert indexes[..|indexes|] == indexes;
    forall t
      ensures t in byTable <==> exists a :: a in indexes && a.table == t
      ensures t in byTable ==> byTable[t] == OfTable(indexes, t)
    {
      assert GroupedAt(indexes, byTable, t);
      OfTableEmpty(indexes, t);
    }
  }

  method CoverersOf(a: Index, group: seq<Index>) returns (found: seq<Index>)
    ensures found == Coverers(a, group)
  {
    found := [];
    for j := 0 to |group|
      invariant found == Coverers(a, group[..j])
    {
      assert group[..j + 1][..j] == group[..j];
      if Covers(a, group[j]) {
        found := found + [group[j]];
      }
    }
    assert group[..|group|] == group;
  }

  ghost predicate DistinctNames(group: seq<Index>) {
    forall i, j :: 0 <= i < j < |group| ==> group[i].name != group[j].name
  }

  lemma {:induction false} OfTableDistinct(indexes: seq<Index>, t: string)
    requires NamesUnique(indexes)
    ensures DistinctNames(OfTable(indexes, t))
  {
    if indexes != [] {
      var n := |indexes| - 1;
      OfTableDistinct(indexes[..n], t);
      var before := OfTable(indexes[..n], t);
      forall i | 0 <= i < |before| && indexes[n].table == t ensures before[i].name != indexes[n].name {
        assert before[i] in indexes[..n];
      }
    }
  }

  /** m holds exactly the non-empty ones of the first n lists, each under its name. */
  ghost predicate Tabulates(names: seq<string>, lists: seq<seq<Index>>, n: nat, m: map<string, seq<Index>>)
    requires n <= |names| == |lists|
  {
    && (forall k :: 0 <= k < n ==> (names[k] in m <==> lists[k] != []))
    && (forall k :: 0 <= k < n && names[k] in m ==> m[names[k]] == lists[k])
    && (forall name :: name in m ==> name in names[..n])
  }

  ghost function NamesOf(group: seq<Index>): seq<string> {
    seq(|group|, k requires 0 <= k < |group| => group[k].name)
  }

  ghost function ListsOf(group: seq<Index>): seq<seq<Index>> {
    seq(|group|, k requires 0 <= k < |group| => Coverers(group[k], group))
  }

  /** `candidates`: for every redundant index of the table, by name, all that cover it. */
  ghost predicate AreCandidates(group: seq<Index>, n: nat, candidates: map<string, seq<Index>>)
    requires n <= |group|
  {
    Tabulates(NamesOf(group), ListsOf(group), n, candidates)
  }

  lemma {:induction false} OnlyDroppableCovered(a: Index, group: seq<Index>)
    ensures !a.Droppable() ==> Coverers(a, group) == []
  {
    if group != [] { OnlyDroppableCovered(a, group[..|group| - 1]); }
  }

  lemma TabulateNext(names: seq<string>, lists: seq<seq<Index>>, n: nat, m: map<string, seq<Index>>)
    requires n < |names| == |lists| && Tabulates(names, lists, n, m)
    requires forall i, j :: 0 <= i < j < |names| ==> names[i] != names[j]
    ensures Tabulates(names, lists, n + 1, if lists[n] == [] then m else m[names[n] := lists[n]])
  {
    assert names[..n + 1] == names[..n] + [names[n]];
  }

  /** The covering candidates of every redundant index of one table. */
  method CandidatesOf(group: seq<Index>) returns (candidates: map<string, seq<Index>>)
    requires DistinctNames(group)
    ensures AreCandidates(group, |group|, candidates)
  {
    candidates := map[];
    for i := 0 to |group|
      invariant AreCandidates(group, i, candidates)
    {
      var found := [];
      if group[i].Droppable() {
        found := CoverersOf(group[i], group);
      }
      OnlyDroppableCovered(group[i], group);
      TabulateNext(NamesOf(group), ListsOf(group), i, candidates);
      if found != [] {
        candidates := candidates[group[i].name := found];
      }
    }
  }

  lemma TableSuffices(indexes: seq<Index>, a: Index)
    ensures Coverers(a, OfTable(indexes, a.table)) != [] <==> Redundant(indexes, a)
  {
    var c := Coverers(a, OfTable(indexes, a.table));
    if b :| b in indexes && Covers(a, b) {
      assert b in c;
    }
    if c != [] {
      assert c[0] in c;
    }
  }

  /** `keepers`: the candidates that are not redundant themselves. */
  method KeepersOf(mine: seq<Index>, candidates: map<string, seq<Index>>) returns (keepers: seq<Index>)
    ensures forall b :: b in keepers <==> b in mine && b.name !in candidates
  {
    keepers := [];
    for i := 0 to |mine|
      invariant forall b :: b in keepers <==> b in mine[..i] && b.name !in candidates
    {
      if mine[i].name !in candidates {
        keepers := keepers + [mine[i]];
      }
    }
    assert mine[..|mine|] == mine;
  }

  lemma CandidateIsRedundant(indexes: seq<Index>, t: string, candidates: map<string, seq<Index>>, b: Index)
    requires AreCandidates(OfTable(indexes, t), |OfTable(indexes, t)|, candidates)
    requires b in indexes && b.table == t
    ensures b.name in candidates <==> Redundant(indexes, b)
    ensures b.name in candidates ==> candidates[b.name] == Coverers(b, OfTable(indexes, t))
  {
    var group := OfTable(indexes, t);
    assert b in group;
    var k :| 0 <= k < |group| && group[k] == b;
    assert NamesOf(group)[k] == b.name && ListsOf(group)[k] == Coverers(b, group);
    TableSuffices(indexes, b);
  }

  /** One report line: the best of the candidates that are kept. There always is one, so the fallback to the candidates
    themselves is never taken. */
  method ReportOne(indexes: seq<Index>, a: Index, ghost group: seq<Index>, candidates: map<string, seq<Index>>)
    returns (f: Finding)
    requires NamesUnique(indexes) && a in indexes && group == OfTable(indexes, a.table)
    requires AreCandidates(group, |group|, candidates) && a.name in candidates
    requires candidates[a.name] == Coverers(a, group) && Redundant(indexes, a)
    ensures Reports(indexes, a, f)
  {
    var keepers := KeepersOf(candidates[a.name], candidates);
    forall b | b in indexes && Covers(a, b) ensures b in keepers <==> !Redundant(indexes, b) {
      CandidateIsRedundant(indexes, a.table, candidates, b);
    }
    ghost var k := KeeperExists(indexes, a);
    var keeper := Best(keepers);
    assert Keeps(indexes, a, keeper);
    f := Finding(a.table, a.name, keeper.name);
  }

  ghost predicate Sorted(findings: seq<Finding>) {
    forall i, j :: 0 <= i < j < |findings| ==> Ordered(findings[i], findings[j])
  }

  /** A finding about a redundant index. */
  ghost predicate Justified(indexes: seq<Index>, f: Finding) {
    exists a :: a in indexes && Redundant(indexes, a) && Reports(indexes, a, f)
  }

  ghost predicate Reported(indexes: seq<Index>, findings: seq<Finding>, a: Index) {
    exists f :: f in findings && Reports(indexes, a, f)
  }

  /** A finding about one of the first n indexes of a table. */
  ghost predicate FromGroup(indexes: seq<Index>, group: seq<Index>, n: nat, f: Finding)
    requires n <= |group|
  {
    Justified(indexes, f) && exists k :: 0 <= k < n && group[k].table == f.table && group[k].name == f.index
  }

  lemma StillReported(indexes: seq<Index>, before: seq<Finding>, after: seq<Finding>)
    requires forall f :: f in before ==> f in after
    ensures forall a :: Reported(indexes, before, a) ==> Reported(indexes, after, a)
  {}

  lemma NewToTable(indexes: seq<Index>, group: seq<Index>, i: nat, f: Finding, g: Finding)
    requires DistinctNames(group) && i < |group| && f.table == group[i].table && f.index == group[i].name
    requires g.table != f.table || FromGroup(indexes, group, i, g)
    ensures !(g.table == f.table && g.index == f.index)
  {}

  ghost predicate AllReported(indexes: seq<Index>, some: seq<Index>, findings: seq<Finding>) {
    forall a :: a in some && Redundant(indexes, a) ==> Reported(indexes, findings, a)
  }

  method ReportTable(indexes: seq<Index>, t: string, group: seq<Index>, earlier: seq<Finding>)
    returns (findings: seq<Finding>)
    requires NamesUnique(indexes) && group == OfTable(indexes, t)
    requires Sorted(earlier) && forall f :: f in earlier ==> f.table != t
    ensures Sorted(findings)
    ensures forall f :: f in earlier ==> f in findings
    ensures forall f :: f in findings ==> f in earlier || (f.table == t && Justified(indexes, f))
    ensures AllReported(indexes, group, findings)
  {
    OfTableDistinct(indexes, t);
    var candidates := CandidatesOf(group);
    findings := earlier;
    for i := 0 to |group|
      invariant Sorted(findings)
      invariant forall f :: f in earlier ==> f in findings
      invariant forall f :: f in findings ==> f in earlier || (f.table == t && FromGroup(indexes, group, i, f))
      invariant AllReported(indexes, group[..i], findings)
    {
      assert group[i] in group && group[..i + 1] == group[..i] + [group[i]];
      CandidateIsRedundant(indexes, t, candidates, group[i]);
      if group[i].name in candidates {
        findings := ReportNext(indexes, t, group, i, candidates, findings);
      }
    }
    assert group[..|group|] == group;
  }

  /** The finding about one index, added to the sorted report. */
  method ReportNext(indexes: seq<Index>, t: string, group: seq<Index>, i: nat, candidates: map<string, seq<Index>>,
                    before: seq<Finding>)
    returns (after: seq<Finding>)
    requires NamesUnique(indexes) && group == OfTable(indexes, t) && DistinctNames(group) && i < |group|
    requires AreCandidates(group, |group|, candidates) && group[i].name in candidates && Redundant(indexes, group[i])
    requires Sorted(before)
    requires forall f :: f in before ==> f.table != t || FromGroup(indexes, group, i, f)
    ensures Sorted(after)
    ensures forall f :: f in after ==> f in before || (f.table == t && FromGroup(indexes, group, i + 1, f))
    ensures forall f :: f in before ==> f in after
    ensures AllReported(indexes, group[..i], before) ==> AllReported(indexes, group[..i] + [group[i]], after)
  {
    var a := group[i];
    assert a in group;
    var f := ReportOne(indexes, a, group, candidates);
    forall g | g in before ensures !(g.table == f.table && g.index == f.index) {
      NewToTable(indexes, group, i, f, g);
    }
    after := Place(f, before);
    StillReported(indexes, before, after);
    assert Justified(indexes, f);
  }

  /** One finding for each redundant index, naming its keeper, in (table, index) order. */
  method FindRedundant(indexes: seq<Index>) returns (findings: seq<Finding>)
    requires NamesUnique(indexes)
    ensures Sorted(findings)
    ensures forall f :: f in findings ==> Justified(indexes, f)
    ensures forall a :: a in indexes && Redundant(indexes, a) ==> Reported(indexes, findings, a)
    ensures OnlyPlain(indexes, findings)
  {
    var byTable := GroupByTable(indexes);
    var tables := byTable.Keys;
    findings := [];
    while tables != {}
      invariant tables <= byTable.Keys && Sorted(findings)
      invariant forall f :: f in findings ==> f.table !in tables && Justified(indexes, f)
      invariant forall a :: a in indexes && a.table !in tables && Redundant(indexes, a) ==>
                Reported(indexes, findings, a)
      decreases tables
    {
      var t :| t in tables;
      ghost var before := findings;
      findings := ReportTable(indexes, t, byTable[t], findings);
      forall a | a in indexes && a.table !in tables - {t} && Redundant(indexes, a)
        ensures Reported(indexes, findings, a)
      {
        if a.table != t {
          assert Reported(indexes, before, a);
        }
      }
      tables := tables - {t};
    }
    ReportIsPlain(indexes, findings);
  }

  /** An index that nothing but lookups depends on: a plain btree. */
  predicate PlainIndex(a: Index) {
    a.method_ == "btree" && a.valid && !a.unique && !a.primary && !a.constraint && !a.expression
  }

  /** Only plain indexes are reported. */
  ghost predicate OnlyPlain(indexes: seq<Index>, findings: seq<Finding>) {
    forall f, a :: f in findings && a in indexes && a.table == f.table && a.name == f.index ==> PlainIndex(a)
  }

  lemma ReportIsPlain(indexes: seq<Index>, findings: seq<Finding>)
    requires NamesUnique(indexes) && forall f :: f in findings ==> Justified(indexes, f)
    ensures OnlyPlain(indexes, findings)
  {
    forall f, a | f in findings && a in indexes && a.table == f.table && a.name == f.index ensures PlainIndex(a) {
      JustifiedIsPlain(indexes, f, a);
    }
  }

  lemma JustifiedIsPlain(indexes: seq<Index>, f: Finding, a: Index)
    requires NamesUnique(indexes) && Justified(indexes, f) && a in indexes && a.table == f.table && a.name == f.index
    ensures PlainIndex(a)
  {
    SameNameSameIndex(indexes);
  }

  // ---------- foreign keys ----------

  datatype ForeignKey = ForeignKey(table: string, name: string, columns: seq<string>)

  predicate Serves(i: Index, fk: ForeignKey) {
    i.table == fk.table && i.valid && !i.expression && i.predicate_ == None && Upto(i.keys, |fk.columns|) == fk.columns
  }

  predicate Served(indexes: seq<Index>, fk: ForeignKey) { exists i | i in indexes :: Serves(i, fk) }

  /** The foreign keys no index serves, in catalog order. */
  function Unserved(fks: seq<ForeignKey>, indexes: seq<Index>): (r: seq<ForeignKey>)
    ensures forall fk :: fk in r <==> fk in fks && !Served(indexes, fk)
  {
    if fks == [] then []
    else Unserved(fks[..|fks| - 1], indexes) + (if Served(indexes, fks[|fks| - 1]) then [] else [fks[|fks| - 1]])
  }

  method FindUnindexedForeignKeys(fks: seq<ForeignKey>, indexes: seq<Index>) returns (findings: seq<ForeignKey>)
    ensures findings == Unserved(fks, indexes)
  {
    findings := [];
    for i := 0 to |fks|
      invariant findings == Unserved(fks[..i], indexes)
    {
      assert fks[..i + 1][..i] == fks[..i];
      if !Served(indexes, fks[i]) {
        findings := findings + [fks[i]];
      }
    }
    assert fks[..|fks|] == fks;
  }

  // ---------- dropping everything that is reported ----------

  function Remaining(indexes: seq<Index>, all: seq<Index>): (r: seq<Index>)
    ensures forall a :: a in r <==> a in indexes && !Redundant(all, a)
  {
    if indexes == [] then []
    else (if Redundant(all, indexes[0]) then [] else [indexes[0]]) + Remaining(indexes[1..], all)
  }

  /** What remains is a fixpoint, covers everything dropped, serves the same foreign keys, and has every index that is
    unique or primary, backs a constraint, has an expression, is invalid or no btree. */
  lemma DropAllIsSafe(indexes: seq<Index>, fk: ForeignKey)
    requires NamesUnique(indexes)
    ensures var left := Remaining(indexes, indexes);
      && (forall a :: a in left ==> !Redundant(left, a))
      && (forall a :: a in indexes && a !in left ==> exists k :: k in left && Covers(a, k))
      && (Served(left, fk) <==> Served(indexes, fk))
      && (forall a :: a in indexes && !PlainIndex(a) ==> a in left)
      && (forall a :: a in indexes && (a.unique || a.primary || a.constraint) ==> a in left)
  {
    var left := Remaining(indexes, indexes);
    forall a | a in indexes && a !in left ensures exists k :: k in left && Covers(a, k) {
      var k := KeeperExists(indexes, a);
    }
    if Served(indexes, fk) {
      var i :| i in indexes && Serves(i, fk);
      if i !in left {
        var k := KeeperExists(indexes, i);
        ServedByPrefix(i, k, fk);
        assert k in left;
      }
    }
  }

  /** The unindexed foreign keys are the same before and after. */
  lemma {:induction false} DropKeepsUnserved(indexes: seq<Index>, fks: seq<ForeignKey>)
    requires NamesUnique(indexes)
    ensures Unserved(fks, Remaining(indexes, indexes)) == Unserved(fks, indexes)
  {
    if fks != [] {
      DropKeepsUnserved(indexes, fks[..|fks| - 1]);
      DropAllIsSafe(indexes, fks[|fks| - 1]);
    }
  }

  /** An index that starts with another one's columns serves whatever that one serves. */
  lemma ServedByPrefix(i: Index, k: Index, fk: ForeignKey)
    requires Covers(i, k) && Serves(i, fk)
    ensures Serves(k, fk)
  {
    assert i.keys == Upto(k.keys, |i.keys|);
    assert |fk.columns| <= |i.keys|;
    assert Upto(k.keys, |fk.columns|) == Upto(i.keys, |fk.columns|);
  }
}
