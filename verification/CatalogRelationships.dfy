/** Grouping foreign-key rows into relationships loses nothing and adds nothing. */
module CatalogRelationships {
  import opened Ordering
  import opened SchemaCatalog
  import opened Seqs

  /** One column pair of a constraint. */
  datatype KeyPart = KeyPart(constraint: string, to: string, fromColumn: string, toColumn: string)

  function RowPart(): FkRow -> KeyPart {
    (row: FkRow) => KeyPart(row.constraint, TargetOf(row), row.column, row.toColumn)
  }

  function PartOf(constraint: string, to: string): ((string, string)) -> KeyPart {
    (pair: (string, string)) => KeyPart(constraint, to, pair.0, pair.1)
  }

  function PairPart(constraint: string, to: string): PairRow -> KeyPart {
    (pair: PairRow) => KeyPart(constraint, to, pair.from, pair.to)
  }

  function Parts(r: Relationship): seq<KeyPart> {
    Map(PartOf(r.constraint, r.to), r.pairs)
  }

  /** All column pairs of all relationships. */
  function Flat(rs: seq<Relationship>): seq<KeyPart> {
    if rs == [] then [] else Flat(rs[..|rs| - 1]) + Parts(rs[|rs| - 1])
  }

  /** Rows of one group name the same constraint and the same target. */
  ghost predicate Consistent(rows: seq<FkRow>) {
    forall a, b | a in rows && b in rows && GroupId(a) == GroupId(b) :: a.constraint == b.constraint && TargetOf(a) == TargetOf(b)
  }

  // ---------------------------------------------- flattening forgets the order

  ghost function FlatCount(rs: seq<Relationship>, p: KeyPart): nat {
    if rs == [] then 0 else FlatCount(rs[..|rs| - 1], p) + Count(Parts(rs[|rs| - 1]), p)
  }

  lemma {:induction false} FlatCounts(rs: seq<Relationship>, p: KeyPart)
    ensures Count(Flat(rs), p) == FlatCount(rs, p)
  {
    if rs != [] {
      FlatCounts(rs[..|rs| - 1], p);
      CountConcat(Flat(rs[..|rs| - 1]), Parts(rs[|rs| - 1]), p);
    }
  }

  lemma {:induction false} FlatRemove(rs: seq<Relationship>, i: nat, p: KeyPart)
    requires i < |rs|
    ensures FlatCount(rs, p) == FlatCount(Remove(rs, i), p) + Count(Parts(rs[i]), p)
  {
    RemoveFront(rs, i);
    if i < |rs| - 1 {
      FlatRemove(rs[..|rs| - 1], i, p);
    }
  }

  lemma {:induction false} FlatPermuted(s: seq<Relationship>, t: seq<Relationship>, p: KeyPart)
    requires multiset(s) == multiset(t)
    ensures FlatCount(s, p) == FlatCount(t, p)
    decreases |s|
  {
    SameLength(s, t);
    if s != [] {
      var n := |s| - 1;
      InBoth(s, t, s[n]);
      var i :| 0 <= i < |t| && t[i] == s[n];
      Without(t, i);
      Front(s);
      Cancel(multiset(s[..n]), multiset(Remove(t, i)), s[n]);
      FlatRemove(t, i, p);
      FlatPermuted(s[..n], Remove(t, i), p);
    }
  }

  lemma {:induction false} InFlat(rs: seq<Relationship>, p: KeyPart)
    requires p in Flat(rs)
    ensures exists i :: 0 <= i < |rs| && p.constraint == rs[i].constraint && p.to == rs[i].to
  {
    var n := |rs| - 1;
    if p in Flat(rs[..n]) {
      InFlat(rs[..n], p);
      var i :| 0 <= i < n && p.constraint == rs[..n][i].constraint && p.to == rs[..n][i].to;
      assert p.constraint == rs[i].constraint;
    } else {
      assert p in Parts(rs[n]);
    }
  }

  // -------------------------------------------------------- one group's parts

  function RowsOf(rows: seq<FkRow>, id: string): seq<FkRow> {
    if rows == [] then []
    else
      var n := |rows| - 1;
      if GroupId(rows[n]) == id then RowsOf(rows[..n], id) + [rows[n]] else RowsOf(rows[..n], id)
  }

  /** The pairs of a group are those of its rows. */
  lemma {:induction false} PairsAreRows(rows: seq<FkRow>, id: string, constraint: string, to: string)
    requires forall r | r in rows && GroupId(r) == id :: r.constraint == constraint && TargetOf(r) == to
    ensures Map(PairPart(constraint, to), PairsOf(rows, id)) == Map(RowPart(), RowsOf(rows, id))
  {
    if rows != [] {
      var n := |rows| - 1;
      PairsAreRows(rows[..n], id, constraint, to);
      if GroupId(rows[n]) == id {
        assert rows[n] in rows;
        MapConcat(PairPart(constraint, to), PairsOf(rows[..n], id), [PairOf(rows[n], n)]);
        MapConcat(RowPart(), RowsOf(rows[..n], id), [rows[n]]);
      }
    }
  }

  /** Sorting a group's pairs keeps them all. */
  lemma RelatedParts(leq: (string, string) -> bool, from: string, g: Group, p: KeyPart)
    requires Orders(leq)
    ensures Count(Parts(Related(leq, from, g)), p) == Count(Map(PairPart(g.constraint, g.to), g.pairs), p)
  {
    var order := ByOrdinal(PairOrdinal(), PairKey(), leq);
    var sorted := Sort(g.pairs, order);
    OrdinalRanks(PairOrdinal(), PairKey(), leq);
    SortSorts(g.pairs, order);
    MapPermuted(PairPart(g.constraint, g.to), g.pairs, sorted);
    CountPermuted(Map(PairPart(g.constraint, g.to), g.pairs), Map(PairPart(g.constraint, g.to), sorted), p);
    assert Map(PartOf(g.constraint, g.to), Map(Ends(), sorted)) == Map(PairPart(g.constraint, g.to), sorted);
  }

  lemma OrdinalRanks<T(!new)>(ordinal: T -> int, key: T -> string, leq: (string, string) -> bool)
    requires Orders(leq)
    ensures Ranks(ByOrdinal(ordinal, key, leq))
  {
  }

  lemma IdRanks<T(!new)>(key: T -> string, leq: (string, string) -> bool)
    requires Orders(leq)
    ensures Ranks(ById(key, leq))
  {
  }

  /** How many rows of a group give a part. */
  ghost function RowCount(rows: seq<FkRow>, id: string, p: KeyPart): nat {
    if rows == [] then 0
    else RowCount(rows[..|rows| - 1], id, p) + Own(rows[|rows| - 1], id, p)
  }

  ghost function Own(row: FkRow, id: string, p: KeyPart): nat {
    if GroupId(row) == id && RowPart()(row) == p then 1 else 0
  }

  lemma {:induction false} RowCounts(rows: seq<FkRow>, id: string, p: KeyPart)
    ensures Count(Map(RowPart(), RowsOf(rows, id)), p) == RowCount(rows, id, p)
  {
    if rows != [] {
      var n := |rows| - 1;
      RowCounts(rows[..n], id, p);
      if GroupId(rows[n]) == id {
        MapSnoc(RowPart(), RowsOf(rows[..n], id), rows[n]);
        CountSnoc(Map(RowPart(), RowsOf(rows[..n], id)), RowPart()(rows[n]), p);
      }
    }
  }

  lemma GroupParts(leq: (string, string) -> bool, from: string, rows: seq<FkRow>, id: string, p: KeyPart)
    requires Orders(leq) && Consistent(rows) && id in GroupIds(rows)
    ensures Count(Parts(Related(leq, from, GroupOf(rows, id))), p) == RowCount(rows, id, p)
  {
    var g := GroupOf(rows, id);
    RelatedParts(leq, from, g, p);
    PairsAreRows(rows, id, g.constraint, g.to);
    RowCounts(rows, id, p);
  }

  // ------------------------------------------------------------- all groups

  ghost function AllParts(rows: seq<FkRow>, ids: seq<string>, p: KeyPart): nat {
    if ids == [] then 0 else AllParts(rows, ids[..|ids| - 1], p) + RowCount(rows, ids[|ids| - 1], p)
  }

  /** One more row adds one part, to one group. */
  lemma {:induction false} AllPartsNext(rows: seq<FkRow>, row: FkRow, ids: seq<string>, p: KeyPart)
    requires AllDifferent(ids)
    ensures AllParts(rows + [row], ids, p) ==
            AllParts(rows, ids, p) + (if GroupId(row) in ids then Own(row, GroupId(row), p) else 0)
  {
    if ids != [] {
      var n := |ids| - 1;
      AllPartsNext(rows, row, ids[..n], p);
      assert (rows + [row])[..|rows|] == rows;
      InFront(ids, GroupId(row));
    }
  }

  lemma InFront(ids: seq<string>, id: string)
    requires AllDifferent(ids) && ids != []
    ensures id in ids[..|ids| - 1] <==> id in ids && id != ids[|ids| - 1]
  {
    assert ids == ids[..|ids| - 1] + [ids[|ids| - 1]];
  }

  lemma {:induction false} NoRows(rows: seq<FkRow>, id: string, p: KeyPart)
    requires id !in GroupIds(rows)
    ensures RowCount(rows, id, p) == 0
  {
    if rows != [] {
      NoRows(rows[..|rows| - 1], id, p);
    }
  }

  lemma AllPartsSnoc(rows: seq<FkRow>, ids: seq<string>, id: string, p: KeyPart)
    ensures AllParts(rows, ids + [id], p) == AllParts(rows, ids, p) + RowCount(rows, id, p)
  {
    assert (ids + [id])[..|ids|] == ids;
  }

  lemma {:induction false} AllPartsConserve(rows: seq<FkRow>, p: KeyPart)
    ensures AllParts(rows, GroupIds(rows), p) == Count(Map(RowPart(), rows), p)
  {
    if rows != [] {
      var n := |rows| - 1;
      var before, row := rows[..n], rows[n];
      assert rows == before + [row];
      AllPartsConserve(before, p);
      AllPartsNext(before, row, GroupIds(before), p);
      MapSnoc(RowPart(), before, row);
      CountSnoc(Map(RowPart(), before), RowPart()(row), p);
      if GroupId(row) !in GroupIds(before) {
        NoRows(before, GroupId(row), p);
        AllPartsSnoc(rows, GroupIds(before), GroupId(row), p);
      }
    }
  }

  /** Relationship by relationship, the parts are those of the rows of its group. */
  ghost predicate SameParts(rows: seq<FkRow>, ids: seq<string>, rs: seq<Relationship>, p: KeyPart) {
    |rs| == |ids| && forall i | 0 <= i < |ids| :: Count(Parts(rs[i]), p) == RowCount(rows, ids[i], p)
  }

  lemma {:induction false} SamePartsSum(rows: seq<FkRow>, ids: seq<string>, rs: seq<Relationship>, p: KeyPart)
    requires SameParts(rows, ids, rs, p)
    ensures FlatCount(rs, p) == AllParts(rows, ids, p)
  {
    if ids != [] {
      SamePartsSum(rows, ids[..|ids| - 1], rs[..|ids| - 1], p);
    }
  }

  lemma GroupsHaveParts(leq: (string, string) -> bool, from: string, rows: seq<FkRow>, p: KeyPart)
    requires Orders(leq) && Consistent(rows)
    ensures SameParts(rows, GroupIds(rows), Map(RelatedBy(leq, from), GroupsOf(rows)), p)
  {
    forall i | 0 <= i < |GroupIds(rows)|
      ensures Count(Parts(Map(RelatedBy(leq, from), GroupsOf(rows))[i]), p) == RowCount(rows, GroupIds(rows)[i], p)
    {
      assert GroupIds(rows)[i] in GroupIds(rows);
      GroupParts(leq, from, rows, GroupIds(rows)[i], p);
    }
  }

  lemma FlatOfSorted(leq: (string, string) -> bool, from: string, rows: seq<FkRow>, p: KeyPart)
    requires Orders(leq)
    ensures Count(Flat(Relationships(leq, from, rows)), p) == FlatCount(Map(RelatedBy(leq, from), GroupsOf(rows)), p)
  {
    var list := Map(RelatedBy(leq, from), GroupsOf(rows));
    IdRanks(RelationshipKey(), leq);
    SortSorts(list, ById(RelationshipKey(), leq));
    FlatCounts(Relationships(leq, from, rows), p);
    FlatPermuted(Relationships(leq, from, rows), list, p);
  }

  /** Of consistent rows every part comes out as often as it went in. */
  lemma FlatIsAll(leq: (string, string) -> bool, from: string, rows: seq<FkRow>, p: KeyPart)
    requires Orders(leq) && Consistent(rows)
    ensures Count(Flat(Relationships(leq, from, rows)), p) == Count(Map(RowPart(), rows), p)
  {
    FlatOfSorted(leq, from, rows, p);
    GroupsHaveParts(leq, from, rows, p);
    SamePartsSum(rows, GroupIds(rows), Map(RelatedBy(leq, from), GroupsOf(rows)), p);
    AllPartsConserve(rows, p);
  }

  /** The relationships hold exactly the given column pairs, each as often as it was given,
      precisely when rows that fall into one group agree on constraint and target. */
  lemma GroupingConserves(leq: (string, string) -> bool, from: string, rows: seq<FkRow>)
    requires Orders(leq)
    ensures multiset(Flat(Relationships(leq, from, rows))) == multiset(Map(RowPart(), rows)) <==> Consistent(rows)
  {
    var out, given := Flat(Relationships(leq, from, rows)), Map(RowPart(), rows);
    if Consistent(rows) {
      forall p
        ensures Count(out, p) == Count(given, p)
      {
        FlatIsAll(leq, from, rows, p);
      }
      SameCounts(out, given);
    } else {
      var p := Misnamed(leq, from, rows);
      assert p in multiset(given) && p !in multiset(out);
    }
  }

  /** A row whose group is named after another row's constraint and target is lost. */
  lemma Misnamed(leq: (string, string) -> bool, from: string, rows: seq<FkRow>) returns (p: KeyPart)
    requires Orders(leq) && !Consistent(rows)
    ensures p in Map(RowPart(), rows) && p !in Flat(Relationships(leq, from, rows))
  {
    var a, b :| a in rows && b in rows && GroupId(a) == GroupId(b)
                && (a.constraint != b.constraint || TargetOf(a) != TargetOf(b));
    var first := FirstRow(rows, GroupId(a));
    var x := if a.constraint == first.constraint && TargetOf(a) == TargetOf(first) then b else a;
    p := RowPart()(x);
    var j :| 0 <= j < |rows| && rows[j] == x;
    assert Map(RowPart(), rows)[j] == p;
    if p in Flat(Relationships(leq, from, rows)) {
      NamedByFirst(leq, from, rows, p);
    }
  }

  /** What comes out bears the constraint and target of its group's first row. */
  lemma NamedByFirst(leq: (string, string) -> bool, from: string, rows: seq<FkRow>, p: KeyPart)
    requires Orders(leq) && p in Flat(Relationships(leq, from, rows))
    ensures var id := p.constraint + NUL + p.to;
            id in GroupIds(rows) && FirstRow(rows, id).constraint == p.constraint && TargetOf(FirstRow(rows, id)) == p.to
  {
    var rs := Relationships(leq, from, rows);
    InFlat(rs, p);
    var k :| 0 <= k < |rs| && p.constraint == rs[k].constraint && p.to == rs[k].to;
    var i := GroupAt(leq, from, rows, rs[k]);
    GroupName(leq, from, rows, i);
  }

  /** The group a relationship was made of. */
  lemma GroupAt(leq: (string, string) -> bool, from: string, rows: seq<FkRow>, r: Relationship) returns (i: nat)
    requires Orders(leq) && r in Relationships(leq, from, rows)
    ensures i < |GroupIds(rows)| && Map(RelatedBy(leq, from), GroupsOf(rows))[i] == r
  {
    var list := Map(RelatedBy(leq, from), GroupsOf(rows));
    IdRanks(RelationshipKey(), leq);
    SortSorts(list, ById(RelationshipKey(), leq));
    InBoth(Relationships(leq, from, rows), list, r);
    i :| 0 <= i < |list| && list[i] == r;
  }

  lemma GroupName(leq: (string, string) -> bool, from: string, rows: seq<FkRow>, i: nat)
    requires i < |GroupIds(rows)|
    ensures var r, id := Map(RelatedBy(leq, from), GroupsOf(rows))[i], GroupIds(rows)[i];
            && r.constraint + NUL + r.to == id && id in GroupIds(rows)
            && r.constraint == FirstRow(rows, id).constraint && r.to == TargetOf(FirstRow(rows, id))
  {
    assert GroupIds(rows)[i] in GroupIds(rows);
  }

  ghost predicate NulFree(text: string) {
    NUL[0] !in text
  }

  /** Constraint names without NUL, as every supported database demands, keep groups apart. */
  lemma NulFreeIsConsistent(rows: seq<FkRow>)
    requires forall r | r in rows :: NulFree(r.constraint)
    ensures Consistent(rows)
  {
    forall a, b | a in rows && b in rows && GroupId(a) == GroupId(b)
      ensures a.constraint == b.constraint && TargetOf(a) == TargetOf(b)
    {
      SplitAtNul(a.constraint, TargetOf(a), b.constraint, TargetOf(b));
    }
  }

  lemma SplitAtNul(a: string, x: string, b: string, y: string)
    requires NulFree(a) && NulFree(b) && a + NUL + x == b + NUL + y
    ensures a == b && x == y
  {
    if |a| < |b| {
      NulInside(a, x, b, y);
    } else if |b| < |a| {
      NulInside(b, y, a, x);
    } else {
      var s, t := a + NUL + x, b + NUL + y;
      assert a == s[..|a|] && b == t[..|b|] && x == s[|a| + 1..] && y == t[|b| + 1..];
    }
  }

  lemma NulInside(a: string, x: string, b: string, y: string)
    requires |a| < |b| && a + NUL + x == b + NUL + y
    ensures NUL[0] in b
  {
    assert (a + NUL + x)[|a|] == (b + NUL + y)[|a|] == b[|a|];
  }

  // ------------------------------------------------------ shape of the groups

  /** A relationship of the result: some of the rows' pairs, at least one, by ordinal. */
  ghost predicate Proper(leq: (string, string) -> bool, from: string, rows: seq<FkRow>, r: Relationship) {
    r.from == from && r.pairs != [] && exists ps :: Lists(rows, r, ps)
  }

  /** The relationship's pairs are those of `ps`, the pairs of its group by ordinal. */
  ghost predicate Lists(rows: seq<FkRow>, r: Relationship, ps: seq<PairRow>) {
    && r.pairs == Map(Ends(), ps) && multiset(ps) == multiset(PairsOf(rows, RelationshipKey()(r)))
    && forall i, j | 0 <= i < j < |ps| :: ps[i].ordinal <= ps[j].ordinal
  }

  lemma {:induction false} HasPairs(rows: seq<FkRow>, id: string)
    requires id in GroupIds(rows)
    ensures PairsOf(rows, id) != []
  {
    var n := |rows| - 1;
    if GroupId(rows[n]) != id {
      HasPairs(rows[..n], id);
    }
  }

  lemma RelatedKey(leq: (string, string) -> bool, from: string, rows: seq<FkRow>, id: string)
    requires id in GroupIds(rows)
    ensures RelationshipKey()(Related(leq, from, GroupOf(rows, id))) == id
  {
  }

  lemma PairsInOrder(leq: (string, string) -> bool, pairs: seq<PairRow>)
    requires Orders(leq)
    ensures var ps := Sort(pairs, ByOrdinal(PairOrdinal(), PairKey(), leq));
            multiset(ps) == multiset(pairs) && forall i, j | 0 <= i < j < |ps| :: ps[i].ordinal <= ps[j].ordinal
  {
    var order := ByOrdinal(PairOrdinal(), PairKey(), leq);
    var ps := Sort(pairs, order);
    OrdinalRanks(PairOrdinal(), PairKey(), leq);
    SortSorts(pairs, order);
    forall i, j | 0 <= i < j < |ps|
      ensures ps[i].ordinal <= ps[j].ordinal
    {
      assert order(ps[i], ps[j]);
    }
  }

  lemma RelatedIsProper(leq: (string, string) -> bool, from: string, rows: seq<FkRow>, id: string)
    requires Orders(leq) && id in GroupIds(rows)
    ensures Proper(leq, from, rows, Related(leq, from, GroupOf(rows, id)))
  {
    var g := GroupOf(rows, id);
    var r := Related(leq, from, g);
    var ps := Sort(g.pairs, ByOrdinal(PairOrdinal(), PairKey(), leq));
    PairsInOrder(leq, g.pairs);
    RelatedKey(leq, from, rows, id);
    HasPairs(rows, id);
    SameLength(ps, g.pairs);
    assert Lists(rows, r, ps);
  }

  lemma RelatedKeys(leq: (string, string) -> bool, from: string, rows: seq<FkRow>)
    ensures Map(RelationshipKey(), Map(RelatedBy(leq, from), GroupsOf(rows))) == GroupIds(rows)
  {
    forall i | 0 <= i < |GroupIds(rows)|
      ensures RelationshipKey()(Map(RelatedBy(leq, from), GroupsOf(rows))[i]) == GroupIds(rows)[i]
    {
      GroupName(leq, from, rows, i);
    }
  }

  /** No two relationships have the same constraint and target. */
  lemma GroupsDiffer(leq: (string, string) -> bool, from: string, rows: seq<FkRow>)
    requires Orders(leq)
    ensures AllDifferent(Map(RelationshipKey(), Relationships(leq, from, rows)))
  {
    var list := Map(RelatedBy(leq, from), GroupsOf(rows));
    IdRanks(RelationshipKey(), leq);
    SortSorts(list, ById(RelationshipKey(), leq));
    RelatedKeys(leq, from, rows);
    DifferentPermuted(RelationshipKey(), list, Relationships(leq, from, rows));
  }

  /** Every relationship holds pairs of its own rows, at least one, in order. */
  lemma GroupIsProper(leq: (string, string) -> bool, from: string, rows: seq<FkRow>, r: Relationship)
    requires Orders(leq) && r in Relationships(leq, from, rows)
    ensures Proper(leq, from, rows, r)
  {
    var i := GroupAt(leq, from, rows, r);
    assert GroupIds(rows)[i] in GroupIds(rows);
    RelatedIsProper(leq, from, rows, GroupIds(rows)[i]);
  }

  /** Rearranging a list of different keys leaves them different. */
  lemma DifferentPermuted<T>(key: T -> string, s: seq<T>, t: seq<T>)
    requires multiset(s) == multiset(t) && AllDifferent(Map(key, s))
    ensures AllDifferent(Map(key, t))
  {
    var a, b := Map(key, s), Map(key, t);
    MapPermuted(key, s, t);
    forall i, j | 0 <= i < j < |b|
      ensures b[i] != b[j]
    {
      if b[i] == b[j] {
        TwiceCounted(b, i, j);
        OnceCounted(a, b[i]);
      }
    }
  }

  lemma TwiceCounted<T>(s: seq<T>, i: nat, j: nat)
    requires i < j < |s| && s[i] == s[j]
    ensures multiset(s)[s[i]] >= 2
  {
    assert s == s[..i] + [s[i]] + s[i + 1..j] + [s[j]] + s[j + 1..];
  }

  lemma {:induction false} OnceCounted(s: seq<string>, x: string)
    requires AllDifferent(s)
    ensures multiset(s)[x] <= 1
  {
    if s != [] {
      Front(s);
      OnceCounted(s[..|s| - 1], x);
      if x == s[|s| - 1] {
        assert x !in s[..|s| - 1];
      }
    }
  }
}
