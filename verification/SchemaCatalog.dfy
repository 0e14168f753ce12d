/** The schema catalog: what the rows of a database's schema are turned into before hashing. */
module SchemaCatalog {
  import opened Wrappers
  import opened Ordering
  import opened Seqs

  // ------------------------------------------------------------ the input rows

  datatype ColumnRow = ColumnRow(name: string, ordinal: Option<int>, udtName: Option<string>, dataType: Option<string>,
                                 isNullable: string, columnDefault: Option<string>, isGenerated: Option<string>,
                                 generationExpression: Option<string>, isIdentity: Option<string>,
                                 identityGeneration: Option<string>, isUpdatable: string, domainName: Option<string>)

  /** A type whose parts are labelled: by their physical names, or by physical and mapped ones. */
  datatype Tree<L> =
    | Scalar(literal: string, udt: Option<string>)
    | Struct(fields: seq<Part<L>>)
    | List(value: Tree<L>, length: Option<int>)
    | MapOf(key: Tree<L>, value: Tree<L>)
    | Union(members: seq<Part<L>>)

  datatype Part<L> = Part(name: L, value: Tree<L>)

  /** What the plugin says of a column's type. */
  datatype ColumnType = ColumnType(literal: string, udt: Option<string>, isArray: Option<bool>,
                                   tsSelect: Option<string>, tsInsert: Option<string>, tsImport: Option<string>,
                                   typeTree: Option<Tree<string>>)

  datatype KeyRow = KeyRow(constraint: string, column: string, ordinal: Option<int>)

  datatype FkRow = FkRow(constraint: string, column: string, toSchema: string, toTable: string, toColumn: string,
                         ordinal: Option<int>)

  datatype TableRow = TableRow(schema: string, name: string, kind: string, columns: seq<ColumnRow>,
                               primaryKey: seq<KeyRow>, foreignKeys: seq<FkRow>)

  datatype LabelRow = LabelRow(text: string, ordinal: Option<int>)

  datatype EnumRow = EnumRow(schema: string, name: string, labels: seq<LabelRow>)

  // --------------------------------------------------------------- the catalog

  datatype Column = Column(id: string, physicalName: string, mappingName: string, nativeType: string,
                           dataType: Option<string>, normalizedType: string, ordinal: int, nullable: bool,
                           columnDefault: Option<string>, generated: bool, generationExpression: Option<string>,
                           identity: bool, identityGeneration: Option<string>, updatable: bool,
                           domainName: Option<string>, isArray: bool, typeTree: Option<Tree<Label>>,
                           customType: Option<CustomType>)

  datatype Label = Label(physicalName: string, mappingName: string)

  datatype CustomType = CustomType(udt: Option<string>, select: Option<string>, insert: Option<string>,
                                   import_: Option<string>)

  datatype PrimaryKey = PrimaryKey(constraint: string, columns: seq<string>)

  datatype Relationship = Relationship(constraint: string, from: string, to: string, pairs: seq<(string, string)>)

  datatype Object = Object(id: string, schema: string, name: string, kind: string, mappingName: string,
                           columns: seq<Column>, primaryKey: Option<PrimaryKey>, relationships: seq<Relationship>,
                           mutable: bool, stableIdentity: bool, automaticJoin: bool, unknownColumns: seq<string>)

  datatype Enum = Enum(id: string, schema: string, name: string, values: seq<string>)

  datatype Plugin = Plugin(name: string, version: string, driver: string, dialect: string)

  datatype Catalog = Catalog(plugin: Plugin, schemas: seq<string>, enums: seq<Enum>, objects: seq<Object>,
                             warnings: seq<string>)

  /** What the catalog takes from its surroundings: the plugin and its type of a column, the naming of
      columns and tables, and two ways of comparing strings, the locale's and the default one. */
  datatype Setting = Setting(plugin: Plugin, typeOf: ColumnRow -> ColumnType, columnName: string -> string,
                             tableName: string -> string, locale: (string, string) -> bool,
                             units: (string, string) -> bool)

  const UNKNOWN := "unknown"
  const NUL := "\0"

  function Qualify(schema: string, name: string): string {
    schema + "." + name
  }

  function TableId(t: TableRow): string { Qualify(t.schema, t.name) }

  function EnumId(e: EnumRow): string { Qualify(e.schema, e.name) }

  function OrElse(ordinal: Option<int>, fallback: int): int {
    if ordinal.Some? then ordinal.value else fallback
  }

  // ------------------------------------------------------------------- sorting

  function ById<T>(key: T -> string, leq: (string, string) -> bool): (T, T) -> bool {
    (a, b) => leq(key(a), key(b))
  }

  function ByOrdinal<T>(ordinal: T -> int, key: T -> string, leq: (string, string) -> bool): (T, T) -> bool {
    (a, b) => ordinal(a) < ordinal(b) || (ordinal(a) == ordinal(b) && leq(key(a), key(b)))
  }

  /** The rows converted one by one, each knowing its place in the list. */
  function Indexed<R, T>(rows: seq<R>, make: (R, nat) -> T): (s: seq<T>)
    ensures |s| == |rows| && forall i | 0 <= i < |rows| :: s[i] == make(rows[i], i)
  {
    if rows == [] then [] else Indexed(rows[..|rows| - 1], make) + [make(rows[|rows| - 1], |rows| - 1)]
  }

  // ------------------------------------------------------------- duplicate ids

  /** The first value that occurs a second time. */
  function FirstDuplicate(values: seq<string>): Option<string> {
    if values == [] then None
    else
      var n := |values| - 1;
      var before := FirstDuplicate(values[..n]);
      if before.Some? then before
      else if values[n] in values[..n] then Some(values[n])
      else None
  }

  lemma {:induction false} NoDuplicateMeans(values: seq<string>)
    ensures FirstDuplicate(values).None? <==> AllDifferent(values)
  {
    if values != [] {
      var n := |values| - 1;
      NoDuplicateMeans(values[..n]);
      assert forall i | 0 <= i < n :: values[..n][i] == values[i];
    }
  }

  /** The value reported is the first that was there before. */
  lemma {:induction false} FirstDuplicateMeans(values: seq<string>)
    requires FirstDuplicate(values).Some?
    ensures exists j | 0 <= j < |values| ::
              values[j] == FirstDuplicate(values).value && values[j] in values[..j] && AllDifferent(values[..j])
  {
    var n := |values| - 1;
    if FirstDuplicate(values[..n]).Some? {
      FirstDuplicateMeans(values[..n]);
      var j :| 0 <= j < n && values[..n][j] == FirstDuplicate(values).value && values[..n][j] in values[..n][..j]
               && AllDifferent(values[..n][..j]);
      assert values[..n][..j] == values[..j];
    } else {
      NoDuplicateMeans(values[..n]);
    }
  }

  /** Values are added to a set one by one until one is already there. */
  method AssertUnique(values: seq<string>) returns (duplicate: Option<string>)
    ensures duplicate == FirstDuplicate(values)
  {
    var seen: set<string> := {};
    for i := 0 to |values|
      invariant forall x :: x in seen <==> x in values[..i]
      invariant FirstDuplicate(values[..i]) == None
    {
      assert values[..i + 1][..i] == values[..i];
      if values[i] in seen {
        DuplicateStays(values, i + 1);
        return Some(values[i]);
      }
      seen := seen + {values[i]};
    }
    assert values[..|values|] == values;
    return None;
  }

  lemma {:induction false} DuplicateStays(values: seq<string>, i: nat)
    requires i <= |values| && FirstDuplicate(values[..i]).Some?
    ensures FirstDuplicate(values) == FirstDuplicate(values[..i])
  {
    if i < |values| {
      var n := |values| - 1;
      assert values[..n][..i] == values[..i];
      DuplicateStays(values[..n], i);
    } else {
      assert values[..i] == values;
    }
  }

  // ------------------------------------------------------------- relationships

  datatype PairRow = PairRow(from: string, to: string, ordinal: int)

  datatype Group = Group(constraint: string, to: string, pairs: seq<PairRow>)

  function TargetOf(row: FkRow): string { Qualify(row.toSchema, row.toTable) }

  function GroupId(row: FkRow): string { row.constraint + NUL + TargetOf(row) }

  function PairOf(row: FkRow, index: nat): PairRow {
    PairRow(row.column, row.toColumn, OrElse(row.ordinal, index))
  }

  /** The groups' ids, in the order of their first rows. */
  function GroupIds(rows: seq<FkRow>): (ids: seq<string>)
    ensures forall i, j | 0 <= i < j < |ids| :: ids[i] != ids[j]
    ensures forall r | r in rows :: GroupId(r) in ids
  {
    if rows == [] then []
    else
      var n := |rows| - 1;
      var before := GroupIds(rows[..n]);
      if GroupId(rows[n]) in before then before else before + [GroupId(rows[n])]
  }

  /** The pairs of one group, in row order. */
  function PairsOf(rows: seq<FkRow>, id: string): seq<PairRow> {
    if rows == [] then []
    else
      var n := |rows| - 1;
      PairsOf(rows[..n], id) + (if GroupId(rows[n]) == id then [PairOf(rows[n], n)] else [])
  }

  /** The row that opened the group. */
  function FirstRow(rows: seq<FkRow>, id: string): (r: FkRow)
    requires id in GroupIds(rows)
    ensures r in rows && GroupId(r) == id
  {
    var n := |rows| - 1;
    if id in GroupIds(rows[..n]) then FirstRow(rows[..n], id) else rows[n]
  }

  function GroupOf(rows: seq<FkRow>, id: string): Group
    requires id in GroupIds(rows)
  {
    Group(FirstRow(rows, id).constraint, TargetOf(FirstRow(rows, id)), PairsOf(rows, id))
  }

  function PairOrdinal(): PairRow -> int { (p: PairRow) => p.ordinal }

  function PairKey(): PairRow -> string { (p: PairRow) => p.from + NUL + p.to }

  function Ends(): PairRow -> (string, string) { (p: PairRow) => (p.from, p.to) }

  function RelationshipKey(): Relationship -> string { (r: Relationship) => r.constraint + NUL + r.to }

  function Related(leq: (string, string) -> bool, from: string, g: Group): Relationship {
    Relationship(g.constraint, from, g.to, Map(Ends(), Sort(g.pairs, ByOrdinal(PairOrdinal(), PairKey(), leq))))
  }

  function GroupsOf(rows: seq<FkRow>): seq<Group> {
    seq(|GroupIds(rows)|, i requires 0 <= i < |GroupIds(rows)| => GroupOf(rows, GroupIds(rows)[i]))
  }

  function RelatedBy(leq: (string, string) -> bool, from: string): Group -> Relationship {
    (g: Group) => Related(leq, from, g)
  }

  function Relationships(leq: (string, string) -> bool, from: string, rows: seq<FkRow>): seq<Relationship> {
    Sort(Map(RelatedBy(leq, from), GroupsOf(rows)), ById(RelationshipKey(), leq))
  }

  /** One more row joins its group, or opens one. */
  lemma NextRow(rows: seq<FkRow>, i: nat, id: string)
    requires i < |rows|
    ensures GroupIds(rows[..i + 1]) ==
            if GroupId(rows[i]) in GroupIds(rows[..i]) then GroupIds(rows[..i]) else GroupIds(rows[..i]) + [GroupId(rows[i])]
    ensures PairsOf(rows[..i + 1], id) ==
            PairsOf(rows[..i], id) + (if GroupId(rows[i]) == id then [PairOf(rows[i], i)] else [])
    ensures id in GroupIds(rows[..i]) ==>
              id in GroupIds(rows[..i + 1]) && FirstRow(rows[..i + 1], id) == FirstRow(rows[..i], id)
    ensures GroupId(rows[i]) !in GroupIds(rows[..i]) ==>
              GroupId(rows[i]) in GroupIds(rows[..i + 1]) && FirstRow(rows[..i + 1], GroupId(rows[i])) == rows[i]
  {
    assert rows[..i + 1][..i] == rows[..i] && rows[..i + 1][i] == rows[i];
  }

  ghost predicate GroupsHold(groups: map<string, Group>, ids: seq<string>, rows: seq<FkRow>) {
    && ids == GroupIds(rows)
    && (forall id :: id in groups <==> id in ids)
    && forall id | id in ids :: groups[id] == GroupOf(rows, id)
  }

  /** Rows are gathered in a map that remembers the order of its keys. */
  method CreateRelationships(leq: (string, string) -> bool, from: string, rows: seq<FkRow>) returns (r: seq<Relationship>)
    ensures r == Relationships(leq, from, rows)
  {
    var groups: map<string, Group> := map[];
    var ids: seq<string> := [];
    for i := 0 to |rows|
      invariant GroupsHold(groups, ids, rows[..i])
    {
      GroupsNext(groups, ids, rows, i);
      var row := rows[i];
      var id := GroupId(row);
      var group := if id in groups then groups[id] else Group(row.constraint, TargetOf(row), []);
      if id !in groups {
        ids := ids + [id];
      }
      groups := groups[id := group.(pairs := group.pairs + [PairOf(row, i)])];
    }
    assert rows[..|rows|] == rows;
    var list := seq(|ids|, i requires 0 <= i < |ids| && ids[i] in groups => groups[ids[i]]);
    assert list == GroupsOf(rows);
    r := Sort(Map(RelatedBy(leq, from), list), ById(RelationshipKey(), leq));
  }

  /** Other groups stay as they are. */
  lemma OtherGroupNext(rows: seq<FkRow>, i: nat, x: string)
    requires i < |rows| && x in GroupIds(rows[..i + 1]) && x != GroupId(rows[i])
    ensures x in GroupIds(rows[..i]) && GroupOf(rows[..i + 1], x) == GroupOf(rows[..i], x)
  {
    NextRow(rows, i, x);
  }

  /** The row's own group gains its pair. */
  lemma OwnGroupNext(rows: seq<FkRow>, i: nat)
    requires i < |rows|
    ensures var row := rows[i]; var id := GroupId(row);
            && id in GroupIds(rows[..i + 1])
            && var group := if id in GroupIds(rows[..i]) then GroupOf(rows[..i], id)
                            else Group(row.constraint, TargetOf(row), []);
               GroupOf(rows[..i + 1], id) == group.(pairs := group.pairs + [PairOf(row, i)])
  {
    NextRow(rows, i, GroupId(rows[i]));
    NoPairs(rows[..i], GroupId(rows[i]));
  }

  lemma GroupsNext(groups: map<string, Group>, ids: seq<string>, rows: seq<FkRow>, i: nat)
    requires i < |rows| && GroupsHold(groups, ids, rows[..i])
    ensures var row := rows[i]; var id := GroupId(row);
            var group := if id in groups then groups[id] else Group(row.constraint, TargetOf(row), []);
            GroupsHold(groups[id := group.(pairs := group.pairs + [PairOf(row, i)])],
                       if id in groups then ids else ids + [id], rows[..i + 1])
  {
    var id := GroupId(rows[i]);
    NextRow(rows, i, id);
    OwnGroupNext(rows, i);
    var more := GroupIds(rows[..i + 1]);
    forall x | x in more && x != id
      ensures x in ids && GroupOf(rows[..i + 1], x) == groups[x]
    {
      OtherGroupNext(rows, i, x);
    }
    GroupsExtend(groups, ids, rows[..i + 1], id, GroupOf(rows[..i + 1], id));
  }

  lemma GroupsExtend(groups: map<string, Group>, ids: seq<string>, rows: seq<FkRow>, id: string, group: Group)
    requires forall x :: x in groups <==> x in ids
    requires GroupIds(rows) == if id in ids then ids else ids + [id]
    requires GroupOf(rows, id) == group
    requires forall x | x in GroupIds(rows) && x != id :: x in groups && GroupOf(rows, x) == groups[x]
    ensures GroupsHold(groups[id := group], if id in groups then ids else ids + [id], rows)
  {
    forall x
      ensures x in groups[id := group] <==> x in GroupIds(rows)
      ensures x in GroupIds(rows) ==> groups[id := group][x] == GroupOf(rows, x)
    {
      InLonger(ids, id, x);
    }
  }

  lemma InLonger(ids: seq<string>, id: string, x: string)
    ensures x in ids + [id] <==> x in ids || x == id
  {
  }

  lemma {:induction false} NoPairs(rows: seq<FkRow>, id: string)
    ensures id !in GroupIds(rows) ==> PairsOf(rows, id) == []
  {
    if rows != [] {
      NoPairs(rows[..|rows| - 1], id);
    }
  }

  // ------------------------------------------------------- columns and objects

  function NativeType(row: ColumnRow): string {
    if row.udtName.Some? then row.udtName.value
    else if row.dataType.Some? then row.dataType.value
    else UNKNOWN
  }

  /** The tree with other labels. */
  function Relabel<L, M>(f: L -> M, t: Tree<L>): Tree<M>
    decreases t
  {
    match t
    case Scalar(literal, udt) => Scalar(literal, udt)
    case Struct(fields) => Struct(RelabelParts(f, fields))
    case List(value, length) => List(Relabel(f, value), length)
    case MapOf(key, value) => MapOf(Relabel(f, key), Relabel(f, value))
    case Union(members) => Union(RelabelParts(f, members))
  }

  function RelabelParts<L, M>(f: L -> M, parts: seq<Part<L>>): seq<Part<M>>
    decreases parts
  {
    if parts == [] then []
    else [RelabelPart(f, parts[0])] + RelabelParts(f, parts[1..])
  }

  function RelabelPart<L, M>(f: L -> M, part: Part<L>): Part<M>
    decreases part
  {
    match part
    case Part(name, value) => Part(f(name), Relabel(f, value))
  }

  /** A mapped name beside the physical one. */
  function Named(columnName: string -> string): string -> Label {
    (name: string) => Label(name, columnName(name))
  }

  function PhysicalName(): Label -> string { (l: Label) => l.physicalName }

  lemma {:induction false} RelabelBack<L, M>(f: L -> M, g: M -> L, t: Tree<L>)
    requires forall name :: g(f(name)) == name
    ensures Relabel(g, Relabel(f, t)) == t
    decreases t
  {
    match t
    case Scalar(_, _) =>
    case Struct(fields) => RelabelPartsBack(f, g, fields);
    case List(value, _) => RelabelBack(f, g, value);
    case MapOf(key, value) =>
      RelabelBack(f, g, key);
      RelabelBack(f, g, value);
    case Union(members) => RelabelPartsBack(f, g, members);
  }

  lemma {:induction false} RelabelPartsBack<L, M>(f: L -> M, g: M -> L, parts: seq<Part<L>>)
    requires forall name :: g(f(name)) == name
    ensures RelabelParts(g, RelabelParts(f, parts)) == parts
    decreases parts
  {
    if parts != [] {
      RelabelPartBack(f, g, parts[0]);
      RelabelPartsBack(f, g, parts[1..]);
      var all := RelabelParts(f, parts);
      assert all[1..] == RelabelParts(f, parts[1..]) && all[0] == RelabelPart(f, parts[0]);
    }
  }

  lemma {:induction false} RelabelPartBack<L, M>(f: L -> M, g: M -> L, part: Part<L>)
    requires forall name :: g(f(name)) == name
    ensures RelabelPart(g, RelabelPart(f, part)) == part
    decreases part
  {
    match part
    case Part(_, value) => RelabelBack(f, g, value);
  }

  /** The catalog's tree of a type is the type: the physical names give it back, whatever the mapped
      names are. */
  lemma TypeTreeKept(columnName: string -> string, t: Tree<string>)
    ensures Relabel(PhysicalName(), Relabel(Named(columnName), t)) == t
  {
    RelabelBack(Named(columnName), PhysicalName(), t);
  }

  predicate IsBlank(text: Option<string>) {
    text.None? || text.value == ""
  }

  function CustomTypeOf(t: ColumnType): Option<CustomType> {
    if IsBlank(t.udt) && IsBlank(t.tsSelect) && IsBlank(t.tsInsert) && IsBlank(t.tsImport) then None
    else Some(CustomType(t.udt, t.tsSelect, t.tsInsert, t.tsImport))
  }

  function TreeOf(setting: Setting, t: ColumnType): Option<Tree<Label>> {
    if t.typeTree.Some? then Some(Relabel(Named(setting.columnName), t.typeTree.value)) else None
  }

  predicate IsGenerated(row: ColumnRow) {
    row.isGenerated.Some? && row.isGenerated.value != "NEVER" && row.isGenerated.value != "NO"
  }

  function ColumnFrom(setting: Setting, objectId: string): (ColumnRow, nat) -> Column {
    (row: ColumnRow, index: nat) =>
      var t := setting.typeOf(row);
      Column(objectId + "." + row.name, row.name, setting.columnName(row.name), NativeType(row), row.dataType,
             t.literal, OrElse(row.ordinal, index + 1), row.isNullable == "YES", row.columnDefault, IsGenerated(row),
             row.generationExpression, row.isIdentity == Some("YES"), row.identityGeneration, row.isUpdatable == "YES",
             row.domainName, t.isArray == Some(true), TreeOf(setting, t), CustomTypeOf(t))
  }

  function ColumnOrdinal(): Column -> int { (c: Column) => c.ordinal }

  function ColumnKey(): Column -> string { (c: Column) => c.physicalName }

  function ColumnsOf(setting: Setting, objectId: string, rows: seq<ColumnRow>): seq<Column> {
    Sort(Indexed(rows, ColumnFrom(setting, objectId)), ByOrdinal(ColumnOrdinal(), ColumnKey(), setting.locale))
  }

  /** The ids of the columns a warning is given for. */
  function UnknownColumns(columns: seq<Column>): seq<string> {
    if columns == [] then []
    else
      var n := |columns| - 1;
      UnknownColumns(columns[..n]) + (if columns[n].normalizedType == UNKNOWN then [columns[n].id] else [])
  }

  datatype Ordered = Ordered(text: string, ordinal: int)

  function OrderedOrdinal(): Ordered -> int { (o: Ordered) => o.ordinal }

  function OrderedText(): Ordered -> string { (o: Ordered) => o.text }

  function KeyColumn(): (KeyRow, nat) -> Ordered {
    (row: KeyRow, index: nat) => Ordered(row.column, OrElse(row.ordinal, index))
  }

  function LabelFrom(): (LabelRow, nat) -> Ordered {
    (row: LabelRow, index: nat) => Ordered(row.text, OrElse(row.ordinal, index))
  }

  /** The texts by ordinal, then by the locale's comparison. */
  function InOrder(leq: (string, string) -> bool, items: seq<Ordered>): seq<string> {
    Map(OrderedText(), Sort(items, ByOrdinal(OrderedOrdinal(), OrderedText(), leq)))
  }

  /** A table has no primary key, or one; rows of several constraints are an error. */
  function PrimaryKeyOf(leq: (string, string) -> bool, rows: seq<KeyRow>): Result<Option<PrimaryKey>, string> {
    if rows == [] then Ok(None)
    else if |set r | r in rows :: r.constraint| != 1 then Err("Expected one primary-key constraint")
    else Ok(Some(PrimaryKey(rows[0].constraint, InOrder(leq, Indexed(rows, KeyColumn())))))
  }

  function ColumnName(): ColumnRow -> string { (c: ColumnRow) => c.name }

  function ObjectWith(setting: Setting, schema: string, name: string, kind: string, columns: seq<Column>,
                      primaryKey: Option<PrimaryKey>, relationships: seq<Relationship>): Object
  {
    Object(Qualify(schema, name), schema, name, kind, setting.tableName(name), columns, primaryKey, relationships,
           kind == "table", primaryKey.Some?, relationships != [], UnknownColumns(columns))
  }

  function ObjectOf(setting: Setting, t: TableRow): Result<Object, string> {
    var duplicate := FirstDuplicate(Map(ColumnName(), t.columns));
    if duplicate.Some? then Err("Duplicate column identity: " + duplicate.value)
    else
      var primaryKey :- PrimaryKeyOf(setting.locale, t.primaryKey);
      Ok(ObjectWith(setting, t.schema, t.name, t.kind, ColumnsOf(setting, TableId(t), t.columns), primaryKey,
                    Relationships(setting.locale, TableId(t), t.foreignKeys)))
  }

  function ObjectFrom(setting: Setting): TableRow -> Result<Object, string> {
    (t: TableRow) => ObjectOf(setting, t)
  }

  function EnumFrom(leq: (string, string) -> bool): EnumRow -> Enum {
    (e: EnumRow) => Enum(EnumId(e), e.schema, e.name, InOrder(leq, Indexed(e.labels, LabelFrom())))
  }

  function TableIds(): TableRow -> string { (t: TableRow) => TableId(t) }

  function EnumIds(): EnumRow -> string { (e: EnumRow) => EnumId(e) }

  function ObjectKey(): Object -> string { (o: Object) => o.id }

  function EnumKey(): Enum -> string { (e: Enum) => e.id }

  // -------------------------------------------------------------- the catalog

  /** All values, or the first error. */
  function Collect<T>(results: seq<Result<T, string>>): Result<seq<T>, string> {
    if results == [] then Ok([])
    else
      var n := |results| - 1;
      var before :- Collect(results[..n]);
      var last :- results[n];
      Ok(before + [last])
  }

  /** The tables at either end of some relationship. */
  function Joinable(objects: seq<Object>): set<string> {
    (set o, r | o in objects && r in o.relationships :: r.from) + (set o, r | o in objects && r in o.relationships :: r.to)
  }

  function Flagged(joinable: set<string>): Object -> Object {
    (o: Object) => o.(automaticJoin := o.id in joinable)
  }

  function Unique(values: seq<string>): seq<string> {
    if values == [] then []
    else
      var n := |values| - 1;
      var before := Unique(values[..n]);
      if values[n] in before then before else before + [values[n]]
  }

  function ObjectSchema(): Object -> string { (o: Object) => o.schema }

  function EnumSchema(): Enum -> string { (e: Enum) => e.schema }

  function PluginWarnings(plugin: Plugin): seq<string> {
    if plugin.version == UNKNOWN then ["Plugin " + plugin.name + " did not declare a version."] else []
  }

  /** The catalog of sorted enums and objects. */
  function Assemble(setting: Setting, enums: seq<Enum>, sorted: seq<Object>): Catalog {
    var objects := Map(Flagged(Joinable(sorted)), sorted);
    Catalog(setting.plugin, Sort(Unique(Map(ObjectSchema(), objects) + Map(EnumSchema(), enums)), setting.units),
            enums, objects, PluginWarnings(setting.plugin))
  }

  function SortedEnums(setting: Setting, enums: seq<EnumRow>): seq<Enum> {
    Sort(Map(EnumFrom(setting.locale), enums), ById(EnumKey(), setting.locale))
  }

  /** All tables converted and sorted, or the first error. */
  function SortedObjects(setting: Setting, tables: seq<TableRow>): Result<seq<Object>, string> {
    var converted :- Collect(Map(ObjectFrom(setting), tables));
    Ok(Sort(converted, ById(ObjectKey(), setting.locale)))
  }

  /** The whole catalog before it is hashed. */
  function CreateCatalog(setting: Setting, tables: seq<TableRow>, enums: seq<EnumRow>): Result<Catalog, string> {
    var twiceObject := FirstDuplicate(Map(TableIds(), tables));
    var twiceEnum := FirstDuplicate(Map(EnumIds(), enums));
    if twiceObject.Some? then Err("Duplicate schema object identity: " + twiceObject.value)
    else if twiceEnum.Some? then Err("Duplicate schema enum identity: " + twiceEnum.value)
    else
      var objects :- SortedObjects(setting, tables);
      Ok(Assemble(setting, SortedEnums(setting, enums), objects))
  }
}
