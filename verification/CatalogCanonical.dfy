/** The catalog before hashing does not depend on the order in which a database lists its rows. */
module CatalogCanonical {
  import opened Wrappers
  import opened Ordering
  import opened Seqs
  import opened SchemaCatalog
  import opened CatalogRelationships

  /** The same rows; in another order only when all of them carry ordinals. */
  ghost predicate Reordered<R>(s: seq<R>, t: seq<R>, ordinal: R -> Option<int>) {
    s == t || (multiset(s) == multiset(t) && forall r | r in s :: ordinal(r).Some?)
  }

  function ColumnRank(): ColumnRow -> Option<int> { (r: ColumnRow) => r.ordinal }

  function KeyRank(): KeyRow -> Option<int> { (r: KeyRow) => r.ordinal }

  function FkRank(): FkRow -> Option<int> { (r: FkRow) => r.ordinal }

  function LabelRank(): LabelRow -> Option<int> { (r: LabelRow) => r.ordinal }

  ghost predicate TableReordered(a: TableRow, b: TableRow) {
    && a.schema == b.schema && a.name == b.name && a.kind == b.kind
    && Reordered(a.columns, b.columns, ColumnRank())
    && Reordered(a.primaryKey, b.primaryKey, KeyRank())
    && Reordered(a.foreignKeys, b.foreignKeys, FkRank())
    && forall r | r in a.foreignKeys :: NulFree(r.constraint) && NulFree(r.column)
  }

  ghost predicate EnumReordered(a: EnumRow, b: EnumRow) {
    a.schema == b.schema && a.name == b.name && Reordered(a.labels, b.labels, LabelRank())
  }

  function ToOption<T>(r: Result<T, string>): Option<T> {
    if r.Ok? then Some(r.value) else None
  }

  // ------------------------------------------------------ rows that carry ordinals

  /** The row's place in the list does not matter. */
  ghost predicate Steady<R, T>(rows: seq<R>, make: (R, nat) -> T) {
    forall r, i: nat, j: nat | r in rows :: make(r, i) == make(r, j)
  }

  function First<R, T>(make: (R, nat) -> T): R -> T {
    (r: R) => make(r, 0)
  }

  lemma IndexedPermuted<R, T>(s: seq<R>, t: seq<R>, make: (R, nat) -> T)
    requires multiset(s) == multiset(t) && Steady(s, make)
    ensures multiset(Indexed(s, make)) == multiset(Indexed(t, make))
  {
    forall i | 0 <= i < |t|
      ensures t[i] in s
    {
      InBoth(s, t, t[i]);
    }
    assert Indexed(s, make) == Map(First(make), s);
    assert Indexed(t, make) == Map(First(make), t);
    MapPermuted(First(make), s, t);
  }

  /** Values of the same ordinal and key are the same. */
  ghost predicate Keyed<T>(s: seq<T>, ordinal: T -> int, key: T -> string) {
    forall a, b | a in s && b in s && ordinal(a) == ordinal(b) && key(a) == key(b) :: a == b
  }

  lemma OrdinalSortIsCanonical<T(!new)>(s: seq<T>, t: seq<T>, ordinal: T -> int, key: T -> string, leq: (string, string) -> bool)
    requires Orders(leq) && multiset(s) == multiset(t) && Keyed(s, ordinal, key)
    ensures Sort(s, ByOrdinal(ordinal, key, leq)) == Sort(t, ByOrdinal(ordinal, key, leq))
  {
    OrdinalRanks(ordinal, key, leq);
    SortIsCanonical(s, t, ByOrdinal(ordinal, key, leq));
  }

  lemma InOrderIsCanonical(leq: (string, string) -> bool, s: seq<Ordered>, t: seq<Ordered>)
    requires Orders(leq) && multiset(s) == multiset(t)
    ensures InOrder(leq, s) == InOrder(leq, t)
  {
    OrdinalSortIsCanonical(s, t, OrderedOrdinal(), OrderedText(), leq);
  }

  lemma LabelsAreCanonical(leq: (string, string) -> bool, s: seq<LabelRow>, t: seq<LabelRow>)
    requires Orders(leq) && Reordered(s, t, LabelRank())
    ensures InOrder(leq, Indexed(s, LabelFrom())) == InOrder(leq, Indexed(t, LabelFrom()))
  {
    if s != t {
      IndexedPermuted(s, t, LabelFrom());
      InOrderIsCanonical(leq, Indexed(s, LabelFrom()), Indexed(t, LabelFrom()));
    }
  }

  lemma SameConstraints(s: seq<KeyRow>, t: seq<KeyRow>)
    requires multiset(s) == multiset(t)
    ensures (set r | r in s :: r.constraint) == (set r | r in t :: r.constraint)
  {
    forall r
      ensures r in s <==> r in t
    {
      InBoth(s, t, r);
    }
  }

  lemma OneConstraint(rows: seq<KeyRow>, all: set<string>)
    requires rows != [] && all == (set r | r in rows :: r.constraint) && |all| == 1
    ensures all == {rows[0].constraint}
  {
    assert rows[0] in rows;
    var rest := all - {rows[0].constraint};
    assert |rest| == 0;
  }

  lemma PrimaryKeyIsCanonical(leq: (string, string) -> bool, s: seq<KeyRow>, t: seq<KeyRow>)
    requires Orders(leq) && Reordered(s, t, KeyRank())
    ensures ToOption(PrimaryKeyOf(leq, s)) == ToOption(PrimaryKeyOf(leq, t))
  {
    if s != t {
      SameLength(s, t);
      SameConstraints(s, t);
      var all := set r | r in s :: r.constraint;
      if s != [] && |all| == 1 {
        OneConstraint(s, all);
        OneConstraint(t, all);
        assert s[0].constraint in {t[0].constraint};
      }
      IndexedPermuted(s, t, KeyColumn());
      InOrderIsCanonical(leq, Indexed(s, KeyColumn()), Indexed(t, KeyColumn()));
    }
  }

  lemma ColumnsAreKeyed(setting: Setting, id: string, rows: seq<ColumnRow>)
    requires AllDifferent(Map(ColumnName(), rows))
    ensures Keyed(Indexed(rows, ColumnFrom(setting, id)), ColumnOrdinal(), ColumnKey())
  {
    var names := Map(ColumnName(), rows);
    var columns := Indexed(rows, ColumnFrom(setting, id));
    assert forall i | 0 <= i < |columns| :: columns[i].physicalName == names[i];
  }

  lemma ColumnsAreSteady(setting: Setting, id: string, rows: seq<ColumnRow>)
    requires forall r | r in rows :: r.ordinal.Some?
    ensures Steady(rows, ColumnFrom(setting, id))
  {
  }

  lemma ColumnsAreCanonical(setting: Setting, id: string, s: seq<ColumnRow>, t: seq<ColumnRow>)
    requires Orders(setting.locale) && Reordered(s, t, ColumnRank()) && AllDifferent(Map(ColumnName(), s))
    ensures ColumnsOf(setting, id, s) == ColumnsOf(setting, id, t)
  {
    if s != t {
      var make := ColumnFrom(setting, id);
      ColumnsAreKeyed(setting, id, s);
      ColumnsAreSteady(setting, id, s);
      IndexedPermuted(s, t, make);
      OrdinalSortIsCanonical(Indexed(s, make), Indexed(t, make), ColumnOrdinal(), ColumnKey(), setting.locale);
    }
  }

  // -------------------------------------------------------------- relationships

  lemma {:induction false} RowsCount(rows: seq<FkRow>, id: string, r: FkRow)
    ensures multiset(RowsOf(rows, id))[r] == if GroupId(r) == id then multiset(rows)[r] else 0
  {
    if rows != [] {
      var n := |rows| - 1;
      RowsCount(rows[..n], id, r);
      Front(rows);
    }
  }

  lemma RowsPermuted(s: seq<FkRow>, t: seq<FkRow>, id: string)
    requires multiset(s) == multiset(t)
    ensures multiset(RowsOf(s, id)) == multiset(RowsOf(t, id))
  {
    forall r
      ensures multiset(RowsOf(s, id))[r] == multiset(RowsOf(t, id))[r]
    {
      RowsCount(s, id, r);
      RowsCount(t, id, r);
    }
  }

  function PairAt(): FkRow -> PairRow { (r: FkRow) => PairOf(r, 0) }

  lemma {:induction false} PairsFromRows(rows: seq<FkRow>, id: string)
    requires forall r | r in rows :: r.ordinal.Some?
    ensures PairsOf(rows, id) == Map(PairAt(), RowsOf(rows, id))
  {
    if rows != [] {
      var n := |rows| - 1;
      PairsFromRows(rows[..n], id);
      assert rows[n] in rows;
      if GroupId(rows[n]) == id {
        MapConcat(PairAt(), RowsOf(rows[..n], id), [rows[n]]);
      }
    }
  }

  lemma {:induction false} PairFromRow(rows: seq<FkRow>, id: string, p: PairRow)
    requires p in PairsOf(rows, id)
    ensures exists r | r in rows :: p.from == r.column
  {
    var n := |rows| - 1;
    if p in PairsOf(rows[..n], id) {
      PairFromRow(rows[..n], id, p);
      var r :| r in rows[..n] && p.from == r.column;
      assert r in rows;
    } else {
      assert rows[n] in rows;
    }
  }

  lemma PairsAreKeyed(rows: seq<FkRow>, id: string)
    requires forall r | r in rows :: NulFree(r.column)
    ensures Keyed(PairsOf(rows, id), PairOrdinal(), PairKey())
  {
    var ps := PairsOf(rows, id);
    forall a, b | a in ps && b in ps && a.ordinal == b.ordinal && PairKey()(a) == PairKey()(b)
      ensures a == b
    {
      PairFromRow(rows, id, a);
      PairFromRow(rows, id, b);
      SplitAtNul(a.from, a.to, b.from, b.to);
    }
  }

  ghost predicate CleanRows(rows: seq<FkRow>) {
    forall r | r in rows :: r.ordinal.Some? && NulFree(r.constraint) && NulFree(r.column)
  }

  lemma GroupIsCanonical(leq: (string, string) -> bool, from: string, s: seq<FkRow>, t: seq<FkRow>, id: string)
    requires Orders(leq) && multiset(s) == multiset(t) && CleanRows(s) && CleanRows(t)
    requires id in GroupIds(s) && id in GroupIds(t)
    ensures Related(leq, from, GroupOf(s, id)) == Related(leq, from, GroupOf(t, id))
  {
    NulFreeIsConsistent(s);
    InBoth(s, t, FirstRow(t, id));
    RowsPermuted(s, t, id);
    PairsFromRows(s, id);
    PairsFromRows(t, id);
    MapPermuted(PairAt(), RowsOf(s, id), RowsOf(t, id));
    PairsAreKeyed(s, id);
    OrdinalSortIsCanonical(PairsOf(s, id), PairsOf(t, id), PairOrdinal(), PairKey(), leq);
  }

  lemma {:induction false} SameMembers(s: seq<string>, t: seq<string>)
    requires AllDifferent(s) && AllDifferent(t) && forall x :: x in s <==> x in t
    ensures multiset(s) == multiset(t)
  {
    forall x
      ensures multiset(s)[x] == multiset(t)[x]
    {
      OnceCounted(s, x);
      OnceCounted(t, x);
      assert x in s <==> x in multiset(s);
      assert x in t <==> x in multiset(t);
    }
  }

  lemma GroupIdsPermuted(s: seq<FkRow>, t: seq<FkRow>)
    requires multiset(s) == multiset(t)
    ensures multiset(GroupIds(s)) == multiset(GroupIds(t))
  {
    forall id
      ensures id in GroupIds(s) <==> id in GroupIds(t)
    {
      if id in GroupIds(s) {
        InBoth(s, t, FirstRow(s, id));
      }
      if id in GroupIds(t) {
        InBoth(s, t, FirstRow(t, id));
      }
    }
    SameMembers(GroupIds(s), GroupIds(t));
  }

  /** The relationship of a group of `rows`, by its id. */
  ghost function ByGroup(leq: (string, string) -> bool, from: string, rows: seq<FkRow>): string -> Relationship {
    (id: string) => if id in GroupIds(rows) then Related(leq, from, GroupOf(rows, id)) else Relationship("", "", "", [])
  }

  lemma RelationshipsAreCanonical(leq: (string, string) -> bool, from: string, s: seq<FkRow>, t: seq<FkRow>)
    requires Orders(leq) && multiset(s) == multiset(t) && CleanRows(s) && CleanRows(t)
    ensures Relationships(leq, from, s) == Relationships(leq, from, t)
  {
    var one, two := Map(RelatedBy(leq, from), GroupsOf(s)), Map(RelatedBy(leq, from), GroupsOf(t));
    var f := ByGroup(leq, from, s);
    GroupIdsPermuted(s, t);
    ByGroupList(leq, from, s, t);
    ByGroupList(leq, from, s, s);
    MapPermuted(f, GroupIds(s), GroupIds(t));
    IdRanks(RelationshipKey(), leq);
    KeysSeparate(leq, from, s);
    SortIsCanonical(one, two, ById(RelationshipKey(), leq));
  }

  lemma ByGroupList(leq: (string, string) -> bool, from: string, s: seq<FkRow>, t: seq<FkRow>)
    requires Orders(leq) && multiset(s) == multiset(t) && CleanRows(s) && CleanRows(t)
    ensures Map(RelatedBy(leq, from), GroupsOf(t)) == Map(ByGroup(leq, from, s), GroupIds(t))
  {
    GroupIdsPermuted(s, t);
    forall i | 0 <= i < |GroupIds(t)|
      ensures Map(RelatedBy(leq, from), GroupsOf(t))[i] == ByGroup(leq, from, s)(GroupIds(t)[i])
    {
      ByGroupAt(leq, from, s, t, i);
    }
  }

  lemma ByGroupAt(leq: (string, string) -> bool, from: string, s: seq<FkRow>, t: seq<FkRow>, i: nat)
    requires Orders(leq) && multiset(s) == multiset(t) && CleanRows(s) && CleanRows(t)
    requires multiset(GroupIds(s)) == multiset(GroupIds(t)) && i < |GroupIds(t)|
    ensures RelatedBy(leq, from)(GroupsOf(t)[i]) == ByGroup(leq, from, s)(GroupIds(t)[i])
  {
    var id := GroupIds(t)[i];
    assert id in GroupIds(t);
    InBoth(GroupIds(s), GroupIds(t), id);
    GroupIsCanonical(leq, from, s, t, id);
  }

  lemma KeysSeparate(leq: (string, string) -> bool, from: string, rows: seq<FkRow>)
    requires Orders(leq)
    ensures Separates(ById(RelationshipKey(), leq), Map(RelatedBy(leq, from), GroupsOf(rows)))
  {
    var list := Map(RelatedBy(leq, from), GroupsOf(rows));
    forall a, b | a in list && b in list && RelationshipKey()(a) == RelationshipKey()(b)
      ensures a == b
    {
      var i :| 0 <= i < |list| && list[i] == a;
      var j :| 0 <= j < |list| && list[j] == b;
      GroupName(leq, from, rows, i);
      GroupName(leq, from, rows, j);
    }
  }

  // -------------------------------------------------------- objects and enums

  lemma SameDuplicates<T>(key: T -> string, s: seq<T>, t: seq<T>)
    requires multiset(s) == multiset(t)
    ensures FirstDuplicate(Map(key, s)).None? <==> FirstDuplicate(Map(key, t)).None?
  {
    NoDuplicateMeans(Map(key, s));
    NoDuplicateMeans(Map(key, t));
    if AllDifferent(Map(key, s)) {
      DifferentPermuted(key, s, t);
    } else if AllDifferent(Map(key, t)) {
      DifferentPermuted(key, t, s);
    }
  }

  lemma ForeignKeysAreCanonical(leq: (string, string) -> bool, from: string, s: seq<FkRow>, t: seq<FkRow>)
    requires Orders(leq) && Reordered(s, t, FkRank())
    requires forall r | r in s :: NulFree(r.constraint) && NulFree(r.column)
    ensures Relationships(leq, from, s) == Relationships(leq, from, t)
  {
    if s != t {
      forall r | r in t
        ensures r in s
      {
        InBoth(s, t, r);
      }
      RelationshipsAreCanonical(leq, from, s, t);
    }
  }

  /** What an object depends on. */
  lemma ObjectOfParts(setting: Setting, t: TableRow)
    ensures ToOption(ObjectOf(setting, t)) ==
            if FirstDuplicate(Map(ColumnName(), t.columns)).Some? then None
            else match ToOption(PrimaryKeyOf(setting.locale, t.primaryKey))
                 case None => None
                 case Some(key) => Some(ObjectWith(setting, t.schema, t.name, t.kind, ColumnsOf(setting, TableId(t), t.columns),
                                                   key, Relationships(setting.locale, TableId(t), t.foreignKeys)))
  {
  }

  lemma TableColumns(setting: Setting, a: TableRow, b: TableRow)
    requires Orders(setting.locale) && TableReordered(a, b) && FirstDuplicate(Map(ColumnName(), a.columns)).None?
    ensures ColumnsOf(setting, TableId(a), a.columns) == ColumnsOf(setting, TableId(b), b.columns)
  {
    NoDuplicateMeans(Map(ColumnName(), a.columns));
    ColumnsAreCanonical(setting, TableId(a), a.columns, b.columns);
  }

  lemma ObjectIsCanonical(setting: Setting, a: TableRow, b: TableRow)
    requires Orders(setting.locale) && TableReordered(a, b)
    ensures ToOption(ObjectOf(setting, a)) == ToOption(ObjectOf(setting, b))
  {
    SameDuplicates(ColumnName(), a.columns, b.columns);
    if FirstDuplicate(Map(ColumnName(), a.columns)).None? {
      TableColumns(setting, a, b);
    }
    PrimaryKeyIsCanonical(setting.locale, a.primaryKey, b.primaryKey);
    ForeignKeysAreCanonical(setting.locale, TableId(a), a.foreignKeys, b.foreignKeys);
    ObjectOfParts(setting, a);
    ObjectOfParts(setting, b);
  }

  function Value<T>(default_: T): Result<T, string> -> T {
    (r: Result<T, string>) => if r.Ok? then r.value else default_
  }

  lemma {:induction false} CollectMeans<T>(rs: seq<Result<T, string>>, default_: T)
    ensures Collect(rs).Ok? <==> forall r | r in rs :: r.Ok?
    ensures Collect(rs).Ok? ==> Collect(rs).value == Map(Value(default_), rs)
  {
    if rs != [] {
      var n := |rs| - 1;
      CollectMeans(rs[..n], default_);
      assert rs == rs[..n] + [rs[n]];
    }
  }

  lemma CollectPermuted<T>(s: seq<Result<T, string>>, t: seq<Result<T, string>>, default_: T)
    requires multiset(s) == multiset(t)
    ensures Collect(s).Ok? <==> Collect(t).Ok?
    ensures Collect(s).Ok? ==> multiset(Collect(s).value) == multiset(Collect(t).value)
  {
    CollectMeans(s, default_);
    CollectMeans(t, default_);
    forall r
      ensures r in s <==> r in t
    {
      InBoth(s, t, r);
    }
    MapPermuted(Value(default_), s, t);
  }

  lemma {:induction false} CollectPointwise<T>(s: seq<Result<T, string>>, t: seq<Result<T, string>>)
    requires |s| == |t| && forall i | 0 <= i < |s| :: ToOption(s[i]) == ToOption(t[i])
    ensures ToOption(Collect(s)) == ToOption(Collect(t))
  {
    if s != [] {
      CollectPointwise(s[..|s| - 1], t[..|s| - 1]);
    }
  }

  // -------------------------------------------------------------- the catalog

  /** Tables in any order, each with its rows in any order. `middle` is the tables reordered inside. */
  ghost predicate TablesReordered(s: seq<TableRow>, middle: seq<TableRow>, t: seq<TableRow>) {
    |s| == |middle| && (forall i | 0 <= i < |s| :: TableReordered(s[i], middle[i])) && multiset(middle) == multiset(t)
  }

  ghost predicate EnumsReordered(s: seq<EnumRow>, middle: seq<EnumRow>, t: seq<EnumRow>) {
    |s| == |middle| && (forall i | 0 <= i < |s| :: EnumReordered(s[i], middle[i])) && multiset(middle) == multiset(t)
  }

  lemma {:induction false} ObjectIds(setting: Setting, tables: seq<TableRow>)
    requires Collect(Map(ObjectFrom(setting), tables)).Ok?
    ensures Map(ObjectKey(), Collect(Map(ObjectFrom(setting), tables)).value) == Map(TableIds(), tables)
  {
    if tables != [] {
      var front, last := tables[..|tables| - 1], tables[|tables| - 1];
      ObjectsAppend(setting, front, last);
      ObjectIds(setting, front);
      MapSnoc(ObjectKey(), Collect(Map(ObjectFrom(setting), front)).value, ObjectOf(setting, last).value);
      MapSnoc(TableIds(), front, last);
    }
  }

  /** Converting one more table. */
  lemma ObjectsAppend(setting: Setting, front: seq<TableRow>, last: TableRow)
    requires Collect(Map(ObjectFrom(setting), front + [last])).Ok?
    ensures Collect(Map(ObjectFrom(setting), front)).Ok? && ObjectOf(setting, last).Ok?
    ensures Collect(Map(ObjectFrom(setting), front + [last])).value ==
            Collect(Map(ObjectFrom(setting), front)).value + [ObjectOf(setting, last).value]
    ensures ObjectKey()(ObjectOf(setting, last).value) == TableIds()(last)
  {
    var before := Map(ObjectFrom(setting), front);
    MapSnoc(ObjectFrom(setting), front, last);
    assert (before + [ObjectOf(setting, last)])[..|before|] == before;
  }

  lemma DifferentSeparates<T>(key: T -> string, leq: (string, string) -> bool, s: seq<T>)
    requires Orders(leq) && AllDifferent(Map(key, s))
    ensures Separates(ById(key, leq), s)
  {
    assert forall i | 0 <= i < |s| :: Map(key, s)[i] == key(s[i]);
  }

  lemma ConvertedPointwise(setting: Setting, s: seq<TableRow>, middle: seq<TableRow>)
    requires Orders(setting.locale) && |s| == |middle| && forall i | 0 <= i < |s| :: TableReordered(s[i], middle[i])
    ensures ToOption(Collect(Map(ObjectFrom(setting), s))) == ToOption(Collect(Map(ObjectFrom(setting), middle)))
  {
    forall i | 0 <= i < |s|
      ensures ToOption(Map(ObjectFrom(setting), s)[i]) == ToOption(Map(ObjectFrom(setting), middle)[i])
    {
      ObjectIsCanonical(setting, s[i], middle[i]);
    }
    CollectPointwise(Map(ObjectFrom(setting), s), Map(ObjectFrom(setting), middle));
  }

  lemma ConvertedPermuted(setting: Setting, s: seq<TableRow>, t: seq<TableRow>)
    requires multiset(s) == multiset(t)
    ensures var one, two := Collect(Map(ObjectFrom(setting), s)), Collect(Map(ObjectFrom(setting), t));
            (one.Ok? <==> two.Ok?) && (one.Ok? ==> multiset(one.value) == multiset(two.value))
  {
    MapPermuted(ObjectFrom(setting), s, t);
    CollectPermuted(Map(ObjectFrom(setting), s), Map(ObjectFrom(setting), t),
                    Object("", "", "", "", "", [], None, [], false, false, false, []));
  }

  /** The objects sorted by id, the same for any order of the rows. */
  lemma ObjectsAreCanonical(setting: Setting, s: seq<TableRow>, middle: seq<TableRow>, t: seq<TableRow>)
    requires Orders(setting.locale) && TablesReordered(s, middle, t) && AllDifferent(Map(TableIds(), s))
    ensures ToOption(SortedObjects(setting, s)) == ToOption(SortedObjects(setting, t))
  {
    ConvertedPointwise(setting, s, middle);
    ConvertedPermuted(setting, middle, t);
    if Collect(Map(ObjectFrom(setting), s)).Ok? {
      var one, two := Collect(Map(ObjectFrom(setting), s)).value, Collect(Map(ObjectFrom(setting), t)).value;
      ObjectIds(setting, s);
      DifferentSeparates(ObjectKey(), setting.locale, one);
      IdRanks(ObjectKey(), setting.locale);
      SortIsCanonical(one, two, ById(ObjectKey(), setting.locale));
    }
  }

  lemma EnumIsCanonical(leq: (string, string) -> bool, a: EnumRow, b: EnumRow)
    requires Orders(leq) && EnumReordered(a, b)
    ensures EnumFrom(leq)(a) == EnumFrom(leq)(b)
  {
    LabelsAreCanonical(leq, a.labels, b.labels);
  }

  lemma EnumsPointwise(leq: (string, string) -> bool, s: seq<EnumRow>, middle: seq<EnumRow>)
    requires Orders(leq) && |s| == |middle| && forall i | 0 <= i < |s| :: EnumReordered(s[i], middle[i])
    ensures Map(EnumFrom(leq), s) == Map(EnumFrom(leq), middle)
  {
    forall i | 0 <= i < |s|
      ensures Map(EnumFrom(leq), s)[i] == Map(EnumFrom(leq), middle)[i]
    {
      EnumIsCanonical(leq, s[i], middle[i]);
    }
  }

  lemma EnumIdsKept(leq: (string, string) -> bool, s: seq<EnumRow>)
    ensures Map(EnumKey(), Map(EnumFrom(leq), s)) == Map(EnumIds(), s)
  {
  }

  lemma EnumsAreCanonical(setting: Setting, s: seq<EnumRow>, middle: seq<EnumRow>, t: seq<EnumRow>)
    requires Orders(setting.locale) && EnumsReordered(s, middle, t) && AllDifferent(Map(EnumIds(), s))
    ensures SortedEnums(setting, s) == SortedEnums(setting, t)
  {
    var leq := setting.locale;
    EnumsPointwise(leq, s, middle);
    MapPermuted(EnumFrom(leq), middle, t);
    EnumIdsKept(leq, s);
    DifferentSeparates(EnumKey(), leq, Map(EnumFrom(leq), s));
    IdRanks(EnumKey(), leq);
    SortIsCanonical(Map(EnumFrom(leq), s), Map(EnumFrom(leq), t), ById(EnumKey(), leq));
  }

  lemma IdsPointwise(s: seq<TableRow>, middle: seq<TableRow>)
    requires |s| == |middle| && forall i | 0 <= i < |s| :: TableReordered(s[i], middle[i])
    ensures Map(TableIds(), s) == Map(TableIds(), middle)
  {
  }

  lemma EnumIdsPointwise(s: seq<EnumRow>, middle: seq<EnumRow>)
    requires |s| == |middle| && forall i | 0 <= i < |s| :: EnumReordered(s[i], middle[i])
    ensures Map(EnumIds(), s) == Map(EnumIds(), middle)
  {
  }

  /** Listing tables and enums in another order, and columns, key rows and labels that carry
      ordinals in another order, changes nothing: either both listings are refused, or both give
      the very same catalog. */
  lemma CatalogIsCanonical(setting: Setting, tables: seq<TableRow>, tables': seq<TableRow>, tables'': seq<TableRow>,
                           enums: seq<EnumRow>, enums': seq<EnumRow>, enums'': seq<EnumRow>)
    requires Orders(setting.locale)
    requires TablesReordered(tables, tables', tables'') && EnumsReordered(enums, enums', enums'')
    ensures ToOption(CreateCatalog(setting, tables, enums)) == ToOption(CreateCatalog(setting, tables'', enums''))
  {
    IdsPointwise(tables, tables');
    EnumIdsPointwise(enums, enums');
    SameDuplicates(TableIds(), tables', tables'');
    SameDuplicates(EnumIds(), enums', enums'');
    NoDuplicateMeans(Map(TableIds(), tables));
    NoDuplicateMeans(Map(EnumIds(), enums));
    if AllDifferent(Map(TableIds(), tables)) && AllDifferent(Map(EnumIds(), enums)) {
      ObjectsAreCanonical(setting, tables, tables', tables'');
      EnumsAreCanonical(setting, enums, enums', enums'');
    }
    CatalogFrom(setting, tables, enums);
    CatalogFrom(setting, tables'', enums'');
  }

  /** What a catalog depends on. */
  lemma CatalogFrom(setting: Setting, tables: seq<TableRow>, enums: seq<EnumRow>)
    ensures ToOption(CreateCatalog(setting, tables, enums)) ==
            if FirstDuplicate(Map(TableIds(), tables)).Some? || FirstDuplicate(Map(EnumIds(), enums)).Some? then None
            else match ToOption(SortedObjects(setting, tables))
                 case None => None
                 case Some(objects) => Some(Assemble(setting, SortedEnums(setting, enums), objects))
  {
  }
}
