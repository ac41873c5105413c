/** What an index is for: the lookups it answers. Dropping everything reported loses none, and leaves nothing to drop.
  */
module IndexLookups {
  import opened Wrappers
  import opened Text
  import opened IndexReport

  /** A lookup or sort by some columns, each with its order, operator class and collation, among the rows that satisfy a
    condition. */
  datatype Lookup = Lookup(
    table: string, columns: seq<string>, options: seq<int>, opclasses: seq<string>, collations: seq<string>,
    where_: Option<string>)

  /** A valid btree on columns answers the lookups by its leading columns, among the rows it has. */
  predicate Answers(i: Index, l: Lookup) {
    var n := |l.columns|;
    && i.table == l.table && i.method_ == "btree" && i.valid && !i.expression && i.predicate_ == l.where_
    && n <= |i.keys| && i.keys[..n] == l.columns
    && Upto(i.options, n) == l.options && Upto(i.opclasses, n) == l.opclasses && Upto(i.collations, n) == l.collations
  }

  predicate Answered(indexes: seq<Index>, l: Lookup) { exists i | i in indexes :: Answers(i, l) }

  /** The lookup by all columns of an index. */
  function WholeLookup(i: Index): Lookup {
    var n := |i.keys|;
    Lookup(i.table, i.keys, Upto(i.options, n), Upto(i.opclasses, n), Upto(i.collations, n), i.predicate_)
  }

  /** An index covers another only if it answers everything the other answers. */
  lemma CoverAnswers(a: Index, b: Index, l: Lookup)
    requires Covers(a, b) && Answers(a, l)
    ensures Answers(b, l)
  {
    var n, m := |l.columns|, |a.keys|;
    assert Upto(a.keys, m) == a.keys;
    UptoTwice(l.columns, a.keys, b.keys, n, m);
    PrefixAgrees(a.options, b.options, n, m);
    PrefixAgrees(a.opclasses, b.opclasses, n, m);
    PrefixAgrees(a.collations, b.collations, n, m);
  }

  lemma PrefixAgrees<T>(s: seq<T>, t: seq<T>, n: nat, m: nat)
    requires n <= m && Upto(s, m) == Upto(t, m)
    ensures Upto(s, n) == Upto(t, n)
  {
    UptoTwice(s, s, t, n, m);
  }

  /** A lookup is answered after dropping every reported index exactly when it was before. */
  lemma DropKeepsLookups(indexes: seq<Index>, l: Lookup)
    requires NamesUnique(indexes)
    ensures Answered(Remaining(indexes, indexes), l) <==> Answered(indexes, l)
  {
    if Answered(indexes, l) {
      var i :| i in indexes && Answers(i, l);
      if Redundant(indexes, i) {
        var k := KeeperExists(indexes, i);
        CoverAnswers(i, k, l);
        assert k in Remaining(indexes, indexes);
      }
    }
  }

  /** Of two plain indexes that answer exactly the same, the one with the first name is kept. */
  lemma DuplicateGoes(indexes: seq<Index>, a: Index, b: Index)
    requires a in indexes && b in indexes && PlainIndex(a) && PlainIndex(b)
    requires WholeLookup(a) == WholeLookup(b) && Before(a.name, b.name)
    ensures Redundant(indexes, b)
  {
    BeforeIrreflexive(a.name);
    if Before(b.name, a.name) { BeforeTransitive(a.name, b.name, a.name); }
    assert Covers(b, a);
  }

  /** A plain index that another one can stand in for is reported, or the other one is. */
  lemma StandInReported(indexes: seq<Index>, a: Index, b: Index)
    requires a in indexes && b in indexes && a != b && PlainIndex(a) && Answers(b, WholeLookup(a))
    ensures Redundant(indexes, a) || Redundant(indexes, b)
  {
    assert Upto(a.keys, |a.keys|) == a.keys && Upto(b.keys, |a.keys|) == b.keys[..|a.keys|];
    if !Covers(a, b) {
      assert |b.keys| == |a.keys| && b.Droppable() && Before(a.name, b.name);
      assert b.keys == a.keys;
      DuplicateGoes(indexes, a, b);
    }
  }

  /** What is reported cannot be less: no plain index left could be replaced by another one left. */
  lemma NothingMoreToDrop(indexes: seq<Index>, a: Index, b: Index)
    requires a in Remaining(indexes, indexes) && b in Remaining(indexes, indexes) && a != b && PlainIndex(a)
    ensures !Answers(b, WholeLookup(a))
  {
    if Answers(b, WholeLookup(a)) { StandInReported(indexes, a, b); }
  }

  /** The keeper named in a finding: of the indexes that could stand in and are kept, the one with most columns, then a
    unique one, then the last name. */
  lemma KeeperIsWidest(indexes: seq<Index>, a: Index, keeper: Index, b: Index)
    requires Keeps(indexes, a, keeper) && b in indexes && Covers(a, b) && !Redundant(indexes, b)
    ensures Answers(keeper, WholeLookup(a))
    ensures |b.keys| <= |keeper.keys|
    ensures |b.keys| == |keeper.keys| && b.unique ==> keeper.unique
    ensures |b.keys| == |keeper.keys| && b.unique == keeper.unique ==> !Before(keeper.name, b.name)
  {
    assert Upto(a.keys, |a.keys|) == a.keys;
    CoverAnswers(a, keeper, WholeLookup(a));
    assert !Better(keeper, b);
  }

  /** The report is in order of tables, and within a table of index names. */
  lemma ReportInOrder(findings: seq<Finding>, i: nat, j: nat)
    requires Sorted(findings) && i < j < |findings|
    ensures findings[i].table == findings[j].table || Before(findings[i].table, findings[j].table)
    ensures findings[i].table == findings[j].table ==> Before(findings[i].index, findings[j].index)
  {
    assert Ordered(findings[i], findings[j]);
    BeforeIrreflexive(findings[i].table);
  }

  /** A foreign key is reported exactly when no index that is valid, without expression and without condition starts
    with its columns. */
  lemma UnservedWhen(fks: seq<ForeignKey>, indexes: seq<Index>, fk: ForeignKey)
    ensures fk in Unserved(fks, indexes) <==>
      fk in fks && forall i :: i in indexes && i.table == fk.table && i.valid && !i.expression && i.predicate_.None? ==>
                     |i.keys| < |fk.columns| || i.keys[..|fk.columns|] != fk.columns
  {}
}
