/** What a catalog holds of the rows it is made of, and in which order. */
module CatalogContents {
  import opened Wrappers
  import opened Ordering
  import opened Seqs
  import opened SchemaCatalog
  import opened CatalogRelationships
  import opened CatalogCanonical
  import opened CatalogJoins

  /** Each of the first `n` places once. */
  ghost predicate Permutes(order: seq<nat>, n: nat) {
    && |order| == n
    && (forall k | 0 <= k < n :: order[k] < n)
    && forall k, l | 0 <= k < l < n :: order[k] != order[l]
  }

  lemma {:induction false} InsertPlace<T>(s: seq<T>, x: T, leq: (T, T) -> bool) returns (p: nat)
    ensures p <= |s| && Insert(s, x, leq) == s[..p] + [x] + s[p..]
  {
    p := |s|;
    if s != [] && !leq(s[|s| - 1], x) {
      p := InsertPlace(s[..|s| - 1], x, leq);
      assert s[..|s| - 1][..p] == s[..p] && s[p..] == s[..|s| - 1][p..] + [s[|s| - 1]];
    }
  }

  /** Sorting moves every element to a place of its own. */
  lemma {:induction false} SortPlaces<T>(s: seq<T>, leq: (T, T) -> bool) returns (order: seq<nat>)
    ensures Permutes(order, |s|) && |Sort(s, leq)| == |s|
    ensures forall k | 0 <= k < |s| :: Sort(s, leq)[k] == s[order[k]]
  {
    order := [];
    if s != [] {
      var n := |s| - 1;
      var before := SortPlaces(s[..n], leq);
      var p := InsertPlace(Sort(s[..n], leq), s[n], leq);
      order := before[..p] + [n] + before[p..];
      PutIn(before, n, p);
      PutInMoves(s, Sort(s[..n], leq), before, p);
    }
  }

  /** A new place put in between. */
  lemma PutIn(before: seq<nat>, n: nat, p: nat)
    requires Permutes(before, n) && p <= n
    ensures Permutes(before[..p] + [n] + before[p..], n + 1)
  {
    var order := before[..p] + [n] + before[p..];
    assert forall k | 0 <= k < n + 1 :: order[k] == if k < p then before[k] else if k == p then n else before[k - 1];
  }

  lemma PutInMoves<T>(s: seq<T>, sorted: seq<T>, before: seq<nat>, p: nat)
    requires s != [] && |sorted| == |s| - 1 && Permutes(before, |s| - 1) && p <= |s| - 1
    requires forall k | 0 <= k < |s| - 1 :: sorted[k] == s[before[k]]
    ensures var n := |s| - 1;
            var order, all := before[..p] + [n] + before[p..], sorted[..p] + [s[n]] + sorted[p..];
            |all| == |s| && |order| == |s| && forall k | 0 <= k < |s| :: order[k] < |s| && all[k] == s[order[k]]
  {
    var n := |s| - 1;
    var order, all := before[..p] + [n] + before[p..], sorted[..p] + [s[n]] + sorted[p..];
    forall k | 0 <= k < |s|
      ensures order[k] < |s| && all[k] == s[order[k]]
    {
      var j := if k < p then k else k - 1;
      assert k != p ==> order[k] == before[j] && all[k] == sorted[j];
    }
  }

  // ------------------------------------------------------------------- columns

  /** Where a column stands: at its ordinal, or else at its place in the list, counted from one. */
  function Ordinal(row: ColumnRow, index: nat): int {
    match row.ordinal case Some(n) => n case None => index + 1
  }

  /** The column tells what its row and the plugin say. */
  ghost predicate Carries(c: Column, setting: Setting, objectId: string, row: ColumnRow, index: nat) {
    var t := setting.typeOf(row);
    && c.id == objectId + "." + row.name && c.physicalName == row.name
    && c.mappingName == setting.columnName(row.name)
    && (row.udtName.Some? ==> c.nativeType == row.udtName.value)
    && (row.udtName.None? && row.dataType.Some? ==> c.nativeType == row.dataType.value)
    && (row.udtName.None? && row.dataType.None? ==> c.nativeType == "unknown")
    && c.dataType == row.dataType && c.normalizedType == t.literal && c.ordinal == Ordinal(row, index)
    && (c.nullable <==> row.isNullable == "YES")
    && c.columnDefault == row.columnDefault
    && (c.generated <==> row.isGenerated.Some? && row.isGenerated.value !in {"NEVER", "NO"})
    && c.generationExpression == row.generationExpression
    && (c.identity <==> row.isIdentity == Some("YES")) && c.identityGeneration == row.identityGeneration
    && (c.updatable <==> row.isUpdatable == "YES")
    && c.domainName == row.domainName
    && (c.isArray <==> t.isArray == Some(true))
    && (c.typeTree.Some? <==> t.typeTree.Some?)
    && (t.typeTree.Some? ==> Relabel(PhysicalName(), c.typeTree.value) == t.typeTree.value)
    && (c.customType.Some? <==> exists text | text in [t.udt, t.tsSelect, t.tsInsert, t.tsImport] ::
                                  text.Some? && text.value != "")
    && (c.customType.Some? ==> c.customType.value == CustomType(t.udt, t.tsSelect, t.tsInsert, t.tsImport))
  }

  lemma RowCarries(setting: Setting, objectId: string, row: ColumnRow, index: nat)
    ensures Carries(ColumnFrom(setting, objectId)(row, index), setting, objectId, row, index)
  {
    var t := setting.typeOf(row);
    if t.typeTree.Some? {
      TypeTreeKept(setting.columnName, t.typeTree.value);
    }
    CustomTypeMeans(t);
  }

  lemma CustomTypeMeans(t: ColumnType)
    ensures CustomTypeOf(t).Some? <==>
            exists text | text in [t.udt, t.tsSelect, t.tsInsert, t.tsImport] :: text.Some? && text.value != ""
  {
    var texts := [t.udt, t.tsSelect, t.tsInsert, t.tsImport];
    assert texts[0] in texts && texts[1] in texts && texts[2] in texts && texts[3] in texts;
  }

  /** Every row gives one column that tells what the row says; columns come by ordinal, and by name
      where ordinals are equal. */
  lemma ColumnsCarry(setting: Setting, objectId: string, rows: seq<ColumnRow>) returns (order: seq<nat>)
    requires Orders(setting.locale)
    ensures Permutes(order, |rows|) && |ColumnsOf(setting, objectId, rows)| == |rows|
    ensures forall k | 0 <= k < |rows| ::
              Carries(ColumnsOf(setting, objectId, rows)[k], setting, objectId, rows[order[k]], order[k])
    ensures forall k, l | 0 <= k < l < |rows| ::
              var x, y := Ordinal(rows[order[k]], order[k]), Ordinal(rows[order[l]], order[l]);
              x < y || (x == y && setting.locale(rows[order[k]].name, rows[order[l]].name))
  {
    var leq := ByOrdinal(ColumnOrdinal(), ColumnKey(), setting.locale);
    var columns := Indexed(rows, ColumnFrom(setting, objectId));
    order := SortPlaces(columns, leq);
    OrdinalRanks(ColumnOrdinal(), ColumnKey(), setting.locale);
    SortSorts(columns, leq);
    forall i | 0 <= i < |rows|
      ensures Carries(columns[i], setting, objectId, rows[i], i)
    {
      RowCarries(setting, objectId, rows[i], i);
    }
    forall k, l | 0 <= k < l < |rows|
      ensures leq(columns[order[k]], columns[order[l]])
    {
      assert leq(Sort(columns, leq)[k], Sort(columns, leq)[l]);
    }
  }

  // ------------------------------------------------------- primary keys and labels

  function KeyPlace(row: KeyRow, index: nat): int {
    match row.ordinal case Some(n) => n case None => index
  }

  function LabelPlace(row: LabelRow, index: nat): int {
    match row.ordinal case Some(n) => n case None => index
  }

  lemma OrderedRise(leq: (string, string) -> bool, items: seq<Ordered>) returns (order: seq<nat>)
    requires Orders(leq)
    ensures Permutes(order, |items|) && |InOrder(leq, items)| == |items|
    ensures forall k | 0 <= k < |items| :: InOrder(leq, items)[k] == items[order[k]].text
    ensures forall k, l | 0 <= k < l < |items| ::
              var x, y := items[order[k]], items[order[l]];
              x.ordinal < y.ordinal || (x.ordinal == y.ordinal && leq(x.text, y.text))
  {
    var rank := ByOrdinal(OrderedOrdinal(), OrderedText(), leq);
    order := SortPlaces(items, rank);
    OrdinalRanks(OrderedOrdinal(), OrderedText(), leq);
    SortSorts(items, rank);
    forall k, l | 0 <= k < l < |items|
      ensures rank(items[order[k]], items[order[l]])
    {
      assert rank(Sort(items, rank)[k], Sort(items, rank)[l]);
    }
  }

  /** A primary key needs rows of one constraint; its columns come by ordinal, and by name where
      ordinals are equal. */
  lemma PrimaryKeyMeans(leq: (string, string) -> bool, rows: seq<KeyRow>) returns (order: seq<nat>)
    requires Orders(leq)
    ensures Permutes(order, |rows|)
    ensures PrimaryKeyOf(leq, rows) == Ok(None) <==> rows == []
    ensures PrimaryKeyOf(leq, rows).Err? <==>
            exists i, j | 0 <= i < j < |rows| :: rows[i].constraint != rows[j].constraint
    ensures PrimaryKeyOf(leq, rows).Ok? && rows != [] ==>
              var key := PrimaryKeyOf(leq, rows).value.value;
              && (forall row | row in rows :: row.constraint == key.constraint)
              && |key.columns| == |rows|
              && (forall k | 0 <= k < |rows| :: key.columns[k] == rows[order[k]].column)
              && forall k, l | 0 <= k < l < |rows| ::
                   var x, y := KeyPlace(rows[order[k]], order[k]), KeyPlace(rows[order[l]], order[l]);
                   x < y || (x == y && leq(rows[order[k]].column, rows[order[l]].column))
  {
    order := OrderedRise(leq, Indexed(rows, KeyColumn()));
    ConstraintsMean(rows);
  }

  lemma ConstraintsMean(rows: seq<KeyRow>)
    ensures rows != [] && |set r | r in rows :: r.constraint| != 1 <==>
            exists i, j | 0 <= i < j < |rows| :: rows[i].constraint != rows[j].constraint
    ensures |set r | r in rows :: r.constraint| == 1 ==> forall row | row in rows :: row.constraint == rows[0].constraint
  {
    var all := set r | r in rows :: r.constraint;
    if |all| == 1 {
      assert rows != [];
      OneConstraint(rows, all);
      forall i | 0 <= i < |rows|
        ensures rows[i].constraint == rows[0].constraint
      {
        assert rows[i].constraint in all;
      }
    } else if rows != [] && forall i | 0 < i < |rows| :: rows[i].constraint == rows[0].constraint {
      SameConstraint(rows, all);
    }
  }

  lemma SameConstraint(rows: seq<KeyRow>, all: set<string>)
    requires rows != [] && all == (set r | r in rows :: r.constraint)
    requires forall i | 0 < i < |rows| :: rows[i].constraint == rows[0].constraint
    ensures |all| == 1
  {
    assert rows[0] in rows;
    assert all == {rows[0].constraint};
  }

  /** An enum's labels come by ordinal, and by text where ordinals are equal. */
  lemma LabelsRise(leq: (string, string) -> bool, e: EnumRow) returns (order: seq<nat>)
    requires Orders(leq)
    ensures Permutes(order, |e.labels|)
    ensures var entry := EnumFrom(leq)(e);
            && entry.id == e.schema + "." + e.name && entry.schema == e.schema && entry.name == e.name
            && |entry.values| == |e.labels|
            && (forall k | 0 <= k < |e.labels| :: entry.values[k] == e.labels[order[k]].text)
            && forall k, l | 0 <= k < l < |e.labels| ::
                 var x, y := LabelPlace(e.labels[order[k]], order[k]), LabelPlace(e.labels[order[l]], order[l]);
                 x < y || (x == y && leq(e.labels[order[k]].text, e.labels[order[l]].text))
  {
    order := OrderedRise(leq, Indexed(e.labels, LabelFrom()));
  }

  // ------------------------------------------------------------------- objects

  /** The object tells what its table says. */
  ghost predicate Tells(o: Object, setting: Setting, t: TableRow) {
    && o.id == t.schema + "." + t.name && o.schema == t.schema && o.name == t.name && o.kind == t.kind
    && o.mappingName == setting.tableName(t.name)
    && o.columns == ColumnsOf(setting, o.id, t.columns)
    && Ok(o.primaryKey) == PrimaryKeyOf(setting.locale, t.primaryKey)
    && o.relationships == Relationships(setting.locale, o.id, t.foreignKeys)
    && (o.mutable <==> t.kind == "table") && (o.stableIdentity <==> t.primaryKey != [])
    && (forall id :: id in o.unknownColumns <==> exists c | c in o.columns :: c.id == id && c.normalizedType == "unknown")
  }

  lemma {:induction false} UnknownMeans(columns: seq<Column>, id: string)
    ensures id in UnknownColumns(columns) <==> exists c | c in columns :: c.id == id && c.normalizedType == "unknown"
  {
    if columns != [] {
      UnknownMeans(columns[..|columns| - 1], id);
      assert columns == columns[..|columns| - 1] + [columns[|columns| - 1]];
    }
  }

  lemma ObjectTells(setting: Setting, t: TableRow)
    requires ObjectOf(setting, t).Ok?
    ensures Tells(ObjectOf(setting, t).value, setting, t)
  {
    var o := ObjectOf(setting, t).value;
    forall id
      ensures id in o.unknownColumns <==> exists c | c in o.columns :: c.id == id && c.normalizedType == "unknown"
    {
      UnknownMeans(o.columns, id);
    }
  }

  /** Every table has an object that tells what the table says, every object has such a table, and
      objects come in the order of their ids. */
  lemma CatalogHoldsTables(setting: Setting, tables: seq<TableRow>, enums: seq<EnumRow>)
    requires Orders(setting.locale) && CreateCatalog(setting, tables, enums).Ok?
    ensures var objects := CreateCatalog(setting, tables, enums).value.objects;
            && |objects| == |tables|
            && (forall t | t in tables :: exists o | o in objects :: Tells(o, setting, t))
            && (forall o | o in objects :: exists t | t in tables :: Tells(o, setting, t))
            && forall k, l | 0 <= k < l < |objects| :: setting.locale(objects[k].id, objects[l].id)
  {
    CatalogFrom(setting, tables, enums);
    SortedCount(setting, tables);
    var objects := CreateCatalog(setting, tables, enums).value.objects;
    forall t | t in tables
      ensures exists o | o in objects :: Tells(o, setting, t)
    {
      TableIsHeld(setting, tables, t);
    }
    forall o | o in objects
      ensures exists t | t in tables :: Tells(o, setting, t)
    {
      ObjectIsTold(setting, tables, o);
    }
  }

  ghost function FlaggedObjects(sorted: seq<Object>): (objects: seq<Object>)
    ensures |objects| == |sorted| && forall i | 0 <= i < |sorted| :: objects[i] == Flagged(Joinable(sorted))(sorted[i])
  {
    Map(Flagged(Joinable(sorted)), sorted)
  }

  lemma TableIsHeld(setting: Setting, tables: seq<TableRow>, t: TableRow)
    requires Orders(setting.locale) && SortedObjects(setting, tables).Ok? && t in tables
    ensures exists o | o in FlaggedObjects(SortedObjects(setting, tables).value) :: Tells(o, setting, t)
  {
    var sorted := SortedObjects(setting, tables).value;
    TableHasObject(setting, tables, t);
    ObjectTells(setting, t);
    var i :| 0 <= i < |sorted| && sorted[i] == ObjectOf(setting, t).value;
    FlagKeeps(setting, t, sorted[i], Joinable(sorted));
    assert FlaggedObjects(sorted)[i] in FlaggedObjects(sorted);
  }

  lemma ObjectIsTold(setting: Setting, tables: seq<TableRow>, o: Object)
    requires Orders(setting.locale) && SortedObjects(setting, tables).Ok?
    requires o in FlaggedObjects(SortedObjects(setting, tables).value)
    ensures exists t | t in tables :: Tells(o, setting, t)
  {
    var sorted := SortedObjects(setting, tables).value;
    var i :| 0 <= i < |sorted| && FlaggedObjects(sorted)[i] == o;
    ObjectHasTable(setting, tables, sorted[i]);
    var j :| 0 <= j < |tables| && ObjectOf(setting, tables[j]) == Ok(sorted[i]);
    ObjectTells(setting, tables[j]);
    FlagKeeps(setting, tables[j], sorted[i], Joinable(sorted));
    assert tables[j] in tables;
  }

  lemma FlagKeeps(setting: Setting, t: TableRow, o: Object, joinable: set<string>)
    requires Tells(o, setting, t)
    ensures Tells(Flagged(joinable)(o), setting, t)
  {
  }

  lemma SortedCount(setting: Setting, tables: seq<TableRow>)
    requires Orders(setting.locale) && SortedObjects(setting, tables).Ok?
    ensures |SortedObjects(setting, tables).value| == |tables|
    ensures Sorted(SortedObjects(setting, tables).value, ById(ObjectKey(), setting.locale))
  {
    var converted := Collect(Map(ObjectFrom(setting), tables)).value;
    CollectMeans(Map(ObjectFrom(setting), tables), NOTHING);
    IdRanks(ObjectKey(), setting.locale);
    SortSorts(converted, ById(ObjectKey(), setting.locale));
    SameLength(converted, SortedObjects(setting, tables).value);
  }

  // ------------------------------------------------------------ enums and schemas

  /** The enums are those of the rows, in the order of their ids. */
  lemma CatalogHoldsEnums(setting: Setting, tables: seq<TableRow>, enums: seq<EnumRow>)
    requires Orders(setting.locale) && CreateCatalog(setting, tables, enums).Ok?
    ensures var entries := CreateCatalog(setting, tables, enums).value.enums;
            && multiset(entries) == multiset(Map(EnumFrom(setting.locale), enums))
            && forall k, l | 0 <= k < l < |entries| :: setting.locale(entries[k].id, entries[l].id)
  {
    CatalogFrom(setting, tables, enums);
    IdRanks(EnumKey(), setting.locale);
    SortSorts(Map(EnumFrom(setting.locale), enums), ById(EnumKey(), setting.locale));
  }

  lemma {:induction false} UniqueMeans(values: seq<string>)
    ensures AllDifferent(Unique(values)) && forall x :: x in Unique(values) <==> x in values
  {
    if values != [] {
      UniqueMeans(values[..|values| - 1]);
      assert values == values[..|values| - 1] + [values[|values| - 1]];
    }
  }

  /** The schemas are those of the objects and enums, once each, in the default order. */
  lemma CatalogHoldsSchemas(setting: Setting, tables: seq<TableRow>, enums: seq<EnumRow>)
    requires Orders(setting.locale) && Orders(setting.units) && CreateCatalog(setting, tables, enums).Ok?
    ensures var c := CreateCatalog(setting, tables, enums).value;
            && (forall x :: x in c.schemas <==>
                  (exists o | o in c.objects :: o.schema == x) || exists e | e in c.enums :: e.schema == x)
            && AllDifferent(c.schemas) && Sorted(c.schemas, setting.units)
            && c.plugin == setting.plugin
            && c.warnings == if setting.plugin.version != "unknown" then []
                             else ["Plugin " + setting.plugin.name + " did not declare a version."]
  {
    CatalogFrom(setting, tables, enums);
    var c := CreateCatalog(setting, tables, enums).value;
    SchemasOf(c.objects, c.enums, setting.units);
  }

  lemma SchemasOf(objects: seq<Object>, enums: seq<Enum>, units: (string, string) -> bool)
    requires Orders(units)
    ensures var schemas := Sort(Unique(Map(ObjectSchema(), objects) + Map(EnumSchema(), enums)), units);
            && (forall x :: x in schemas <==>
                  (exists o | o in objects :: o.schema == x) || exists e | e in enums :: e.schema == x)
            && AllDifferent(schemas) && Sorted(schemas, units)
  {
    var names := Map(ObjectSchema(), objects) + Map(EnumSchema(), enums);
    var schemas := Sort(Unique(names), units);
    UniqueMeans(names);
    SortSorts(Unique(names), units);
    SortedDiffer(Unique(names), units);
    forall x
      ensures x in schemas <==> (exists o | o in objects :: o.schema == x) || exists e | e in enums :: e.schema == x
    {
      InBoth(Unique(names), schemas, x);
      InNames(objects, enums, x);
    }
  }

  lemma InNames(objects: seq<Object>, enums: seq<Enum>, x: string)
    ensures x in Map(ObjectSchema(), objects) + Map(EnumSchema(), enums) <==>
            (exists o | o in objects :: o.schema == x) || exists e | e in enums :: e.schema == x
  {
    var a, b := Map(ObjectSchema(), objects), Map(EnumSchema(), enums);
    if o :| o in objects && o.schema == x {
      var i :| 0 <= i < |objects| && objects[i] == o;
      assert a[i] == x;
    }
    if e :| e in enums && e.schema == x {
      var i :| 0 <= i < |enums| && enums[i] == e;
      assert b[i] == x;
    }
  }

  lemma SortedDiffer(values: seq<string>, leq: (string, string) -> bool)
    requires AllDifferent(values)
    ensures AllDifferent(Sort(values, leq))
  {
    var order := SortPlaces(values, leq);
    var sorted := Sort(values, leq);
    forall k, l | 0 <= k < l < |sorted|
      ensures sorted[k] != sorted[l]
    {
      assert order[k] != order[l];
    }
  }

  // ----------------------------------------------------------------- refusals

  /** A table has different columns and a primary key of one constraint at most. */
  ghost predicate WellFormed(t: TableRow) {
    && AllDifferent(Map(ColumnName(), t.columns))
    && forall i, j | 0 <= i < j < |t.primaryKey| :: t.primaryKey[i].constraint == t.primaryKey[j].constraint
  }

  lemma ObjectRefused(setting: Setting, t: TableRow)
    requires Orders(setting.locale)
    ensures ObjectOf(setting, t).Ok? <==> WellFormed(t)
  {
    NoDuplicateMeans(Map(ColumnName(), t.columns));
    var order := PrimaryKeyMeans(setting.locale, t.primaryKey);
  }

  /** A catalog is refused exactly when two objects or two enums share an identity, or a table two
      columns of one name or a primary key of two constraints. */
  lemma CatalogRefused(setting: Setting, tables: seq<TableRow>, enums: seq<EnumRow>)
    requires Orders(setting.locale)
    ensures CreateCatalog(setting, tables, enums).Ok? <==>
            && AllDifferent(Map(TableIds(), tables)) && AllDifferent(Map(EnumIds(), enums))
            && forall t | t in tables :: WellFormed(t)
  {
    CatalogFrom(setting, tables, enums);
    NoDuplicateMeans(Map(TableIds(), tables));
    NoDuplicateMeans(Map(EnumIds(), enums));
    CollectMeans(Map(ObjectFrom(setting), tables), NOTHING);
    forall t
      ensures ObjectOf(setting, t).Ok? <==> WellFormed(t)
    {
      ObjectRefused(setting, t);
    }
    ConvertedOk(setting, tables);
  }

  lemma ConvertedOk(setting: Setting, tables: seq<TableRow>)
    ensures (forall r | r in Map(ObjectFrom(setting), tables) :: r.Ok?) <==> forall t | t in tables :: ObjectOf(setting, t).Ok?
  {
    var results := Map(ObjectFrom(setting), tables);
    forall i | 0 <= i < |tables|
      ensures results[i] == ObjectOf(setting, tables[i]) && results[i] in results && tables[i] in tables
    {
    }
  }
}
