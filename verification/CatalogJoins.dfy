/** Which objects of the catalog can be joined automatically. */
module CatalogJoins {
  import opened Wrappers
  import opened Ordering
  import opened SchemaCatalog
  import opened CatalogRelationships
  import opened CatalogCanonical

  /** A table has a foreign key, or is the target of one. */
  ghost predicate IsEndpoint(tables: seq<TableRow>, id: string) {
    exists t, r | t in tables && r in t.foreignKeys :: id == TableId(t) || id == TargetOf(r)
  }

  /** Each relationship leads to the target of one of the rows. */
  lemma RelationshipHasRow(leq: (string, string) -> bool, from: string, rows: seq<FkRow>, rel: Relationship)
    requires Orders(leq) && rel in Relationships(leq, from, rows)
    ensures rel.from == from && exists r | r in rows :: TargetOf(r) == rel.to
  {
    var i := GroupAt(leq, from, rows, rel);
    GroupName(leq, from, rows, i);
    assert FirstRow(rows, GroupIds(rows)[i]) in rows;
  }

  /** Each row's target is that of a relationship. */
  lemma RowHasRelationship(leq: (string, string) -> bool, from: string, rows: seq<FkRow>, row: FkRow)
    requires Orders(leq) && Consistent(rows) && row in rows
    ensures exists rel | rel in Relationships(leq, from, rows) :: rel.from == from && rel.to == TargetOf(row)
  {
    var list := Map(RelatedBy(leq, from), GroupsOf(rows));
    IdRanks(RelationshipKey(), leq);
    SortSorts(list, ById(RelationshipKey(), leq));
    var i :| 0 <= i < |GroupIds(rows)| && GroupIds(rows)[i] == GroupId(row);
    GroupName(leq, from, rows, i);
    InBoth(Relationships(leq, from, rows), list, list[i]);
    assert list[i] in list;
  }

  const NOTHING: Object := Object("", "", "", "", "", [], None, [], false, false, false, [])

  /** The i-th table gives the i-th object. */
  lemma Converted(setting: Setting, tables: seq<TableRow>, i: nat)
    requires Collect(Map(ObjectFrom(setting), tables)).Ok? && i < |tables|
    ensures var objects := Collect(Map(ObjectFrom(setting), tables)).value;
            |objects| == |tables| && ObjectOf(setting, tables[i]) == Ok(objects[i])
  {
    var results := Map(ObjectFrom(setting), tables);
    CollectMeans(results, NOTHING);
    assert results[i] in results;
  }

  lemma SortedHolds(setting: Setting, tables: seq<TableRow>, o: Object)
    requires Orders(setting.locale) && SortedObjects(setting, tables).Ok?
    ensures o in SortedObjects(setting, tables).value <==> o in Collect(Map(ObjectFrom(setting), tables)).value
  {
    var converted := Collect(Map(ObjectFrom(setting), tables)).value;
    IdRanks(ObjectKey(), setting.locale);
    SortSorts(converted, ById(ObjectKey(), setting.locale));
    InBoth(SortedObjects(setting, tables).value, converted, o);
  }

  lemma ObjectHasTable(setting: Setting, tables: seq<TableRow>, o: Object)
    requires Orders(setting.locale) && SortedObjects(setting, tables).Ok? && o in SortedObjects(setting, tables).value
    ensures exists i :: 0 <= i < |tables| && ObjectOf(setting, tables[i]) == Ok(o)
  {
    SortedHolds(setting, tables, o);
    var objects := Collect(Map(ObjectFrom(setting), tables)).value;
    CollectMeans(Map(ObjectFrom(setting), tables), NOTHING);
    var i :| 0 <= i < |objects| && objects[i] == o;
    Converted(setting, tables, i);
  }

  lemma TableHasObject(setting: Setting, tables: seq<TableRow>, t: TableRow)
    requires Orders(setting.locale) && SortedObjects(setting, tables).Ok? && t in tables
    ensures ObjectOf(setting, t).Ok? && ObjectOf(setting, t).value in SortedObjects(setting, tables).value
  {
    var i :| 0 <= i < |tables| && tables[i] == t;
    Converted(setting, tables, i);
    SortedHolds(setting, tables, ObjectOf(setting, t).value);
  }

  lemma JoinableHasRow(setting: Setting, tables: seq<TableRow>, o: Object, rel: Relationship)
    requires Orders(setting.locale) && SortedObjects(setting, tables).Ok?
    requires o in SortedObjects(setting, tables).value && rel in o.relationships
    ensures IsEndpoint(tables, rel.from) && IsEndpoint(tables, rel.to)
  {
    ObjectHasTable(setting, tables, o);
    var i :| 0 <= i < |tables| && ObjectOf(setting, tables[i]) == Ok(o);
    RelationshipHasRow(setting.locale, TableId(tables[i]), tables[i].foreignKeys, rel);
    var r :| r in tables[i].foreignKeys && TargetOf(r) == rel.to;
    assert tables[i] in tables;
  }

  lemma RowIsJoinable(setting: Setting, tables: seq<TableRow>, t: TableRow, r: FkRow)
    requires Orders(setting.locale) && SortedObjects(setting, tables).Ok?
    requires t in tables && r in t.foreignKeys && Consistent(t.foreignKeys)
    ensures TableId(t) in Joinable(SortedObjects(setting, tables).value)
    ensures TargetOf(r) in Joinable(SortedObjects(setting, tables).value)
  {
    TableHasObject(setting, tables, t);
    var o := ObjectOf(setting, t).value;
    RowHasRelationship(setting.locale, TableId(t), t.foreignKeys, r);
    var rel :| rel in Relationships(setting.locale, TableId(t), t.foreignKeys) && rel.from == TableId(t) && rel.to == TargetOf(r);
    assert rel in o.relationships;
  }

  lemma JoinableIsEndpoint(setting: Setting, tables: seq<TableRow>, id: string)
    requires Orders(setting.locale) && SortedObjects(setting, tables).Ok?
    requires id in Joinable(SortedObjects(setting, tables).value)
    ensures IsEndpoint(tables, id)
  {
    var objects := SortedObjects(setting, tables).value;
    var o, rel :| o in objects && rel in o.relationships && (id == rel.from || id == rel.to);
    JoinableHasRow(setting, tables, o, rel);
  }

  lemma EndpointIsJoinable(setting: Setting, tables: seq<TableRow>, id: string)
    requires Orders(setting.locale) && SortedObjects(setting, tables).Ok?
    requires forall t | t in tables :: Consistent(t.foreignKeys)
    requires IsEndpoint(tables, id)
    ensures id in Joinable(SortedObjects(setting, tables).value)
  {
    var t, r :| t in tables && r in t.foreignKeys && (id == TableId(t) || id == TargetOf(r));
    RowIsJoinable(setting, tables, t, r);
  }

  /** An object is flagged for automatic joins exactly when a foreign key of the input starts or
      ends there. */
  lemma AutomaticJoinMeans(setting: Setting, tables: seq<TableRow>, enums: seq<EnumRow>, o: Object)
    requires Orders(setting.locale) && CreateCatalog(setting, tables, enums).Ok?
    requires forall t | t in tables :: Consistent(t.foreignKeys)
    requires o in CreateCatalog(setting, tables, enums).value.objects
    ensures o.automaticJoin <==> IsEndpoint(tables, o.id)
  {
    CatalogFrom(setting, tables, enums);
    if o.id in Joinable(SortedObjects(setting, tables).value) {
      JoinableIsEndpoint(setting, tables, o.id);
    }
    if IsEndpoint(tables, o.id) {
      EndpointIsJoinable(setting, tables, o.id);
    }
  }
}
