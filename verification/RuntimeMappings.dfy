/** The tables made of the selected catalog objects, and the graph over them: nothing outside the
    selection can be reached. */
module RuntimeMappings {
  import opened Wrappers
  import opened Ordering
  import opened Seqs
  import opened SchemaSelection
  import C = SchemaCatalog
  import R = CatalogRelationships
  import G = SchemaGraph
  import J = CatalogJoins
  import K = CatalogCanonical

  datatype Failure = Selection(error: Error) | MissingTarget(id: string) | MissingColumn(id: string, column: string)

  /** The catalog object of an id; ids differ. */
  function ObjectOf(source: Source, id: string): (o: Option<C.Object>)
    ensures o.Some? ==> o.value in source.objects && o.value.id == id
  {
    FindObject(source.objects, id)
  }

  function FindObject(objects: seq<C.Object>, id: string): (o: Option<C.Object>)
    ensures o.Some? ==> o.value in objects && o.value.id == id
    ensures o.None? ==> forall x | x in objects :: x.id != id
  {
    if objects == [] then None
    else if objects[|objects| - 1].id == id then Some(objects[|objects| - 1])
    else FindObject(objects[..|objects| - 1], id)
  }

  /** The mapped name of a physical column: that of the first column so named. */
  function MappingName(o: C.Object, column: string): Result<string, Failure> {
    FindColumn(o.id, o.columns, column)
  }

  function FindColumn(id: string, columns: seq<C.Column>, column: string): Result<string, Failure> {
    if columns == [] then Err(MissingColumn(id, column))
    else if columns[0].physicalName == column then Ok(columns[0].mappingName)
    else FindColumn(id, columns[1..], column)
  }

  function MappingNames(o: C.Object, columns: seq<string>): (r: Result<seq<string>, Failure>)
    ensures r.Ok? ==> |r.value| == |columns|
  {
    if columns == [] then Ok([])
    else
      var n := |columns| - 1;
      var before :- MappingNames(o, columns[..n]);
      var last :- MappingName(o, columns[n]);
      Ok(before + [last])
  }

  function FromColumn(): ((string, string)) -> string { (p: (string, string)) => p.0 }

  function ToColumn(): ((string, string)) -> string { (p: (string, string)) => p.1 }

  /** A relationship as a foreign key of the table. */
  function ForeignKeyOf(source: Source, o: C.Object, r: C.Relationship): (k: Result<G.ForeignKey, Failure>)
    ensures k.Ok? ==> |k.value.fromCols| == |k.value.toCols| == |r.pairs|
    ensures k.Ok? ==> exists t | t in source.objects :: t.id == r.to && k.value.toSchema == t.schema && k.value.toTable == t.name
  {
    match ObjectOf(source, r.to)
    case None => Err(MissingTarget(r.to))
    case Some(target) =>
      var from :- MappingNames(o, Map(FromColumn(), r.pairs));
      var to :- MappingNames(target, Map(ToColumn(), r.pairs));
      Ok(G.ForeignKey(from, target.schema, target.name, to))
  }

  function Kept(ids: set<string>): C.Relationship -> bool {
    (r: C.Relationship) => r.to in ids
  }

  function ForeignKeysOf(source: Source, o: C.Object, rs: seq<C.Relationship>): (ks: Result<seq<G.ForeignKey>, Failure>)
    ensures ks.Ok? ==> |ks.value| == |rs| && forall i | 0 <= i < |rs| :: ForeignKeyOf(source, o, rs[i]) == Ok(ks.value[i])
  {
    if rs == [] then Ok([])
    else
      var n := |rs| - 1;
      var before :- ForeignKeysOf(source, o, rs[..n]);
      var last :- ForeignKeyOf(source, o, rs[n]);
      Ok(before + [last])
  }

  /** The mapped names of the columns, each once, as keys of a record. */
  function ColumnNames(columns: seq<C.Column>): (names: seq<string>)
    ensures forall name :: name in names <==> exists c | c in columns :: c.mappingName == name
    ensures AllDifferent(names)
  {
    if columns == [] then []
    else
      var n := |columns| - 1;
      var before := ColumnNames(columns[..n]);
      assert columns == columns[..n] + [columns[n]];
      if columns[n].mappingName in before then before else before + [columns[n].mappingName]
  }

  /** A table keeps the relationships whose target is selected. */
  function TableOf(source: Source, ids: set<string>, o: C.Object): Result<G.Table, Failure> {
    var fks :- ForeignKeysOf(source, o, Filter(Kept(ids), o.relationships));
    var pk :- if o.primaryKey.Some? then MappingNames(o, o.primaryKey.value.columns) else Ok([]);
    Ok(G.Table(Some(o.schema), o.name, ColumnNames(o.columns), pk, fks))
  }

  function InIds(ids: set<string>): C.Object -> bool {
    (o: C.Object) => o.id in ids
  }

  function TablesOf(source: Source, ids: set<string>, objects: seq<C.Object>): (ts: Result<seq<G.Table>, Failure>)
    ensures ts.Ok? ==>
              |ts.value| == |objects| && forall i | 0 <= i < |objects| :: TableOf(source, ids, objects[i]) == Ok(ts.value[i])
  {
    if objects == [] then Ok([])
    else
      var n := |objects| - 1;
      var before :- TablesOf(source, ids, objects[..n]);
      var last :- TableOf(source, ids, objects[n]);
      Ok(before + [last])
  }

  function SelectedIds(s: Selection): set<string> {
    set e | e in s.selected :: e.id
  }

  /** The runtime tables of a catalog under a stored selection. */
  function RuntimeTables(leq: (string, string) -> bool, source: Source, scope: Scope): Result<seq<G.Table>, Failure> {
    match Reconcile(leq, source, scope)
    case Err(e) => Err(Failure.Selection(e))
    case Ok(s) => TablesOf(source, SelectedIds(s), Filter(InIds(SelectedIds(s)), source.objects))
  }

  // ---------------------------------------------------------------- closure

  /** What every created catalog satisfies. */
  ghost predicate Sound(source: Source) {
    && Identified(source)
    && (forall o | o in source.objects :: o.id == C.Qualify(o.schema, o.name))
    && forall o, r | o in source.objects && r in o.relationships :: r.pairs != []
  }

  /** A catalog object stems from a table of the input. */
  lemma ObjectFromTable(setting: C.Setting, tables: seq<C.TableRow>, enums: seq<C.EnumRow>, o: C.Object)
    requires Orders(setting.locale) && C.CreateCatalog(setting, tables, enums).Ok?
    requires o in C.CreateCatalog(setting, tables, enums).value.objects
    ensures exists t | t in tables :: StemsFrom(setting, t, o)
  {
    K.CatalogFrom(setting, tables, enums);
    var sorted := C.SortedObjects(setting, tables).value;
    var x := Unflagged(sorted, o);
    J.ObjectHasTable(setting, tables, x);
    var j :| 0 <= j < |tables| && C.ObjectOf(setting, tables[j]) == Ok(x);
    ObjectStems(setting, tables[j], x);
    assert tables[j] in tables && StemsFrom(setting, tables[j], o);
  }

  ghost predicate StemsFrom(setting: C.Setting, t: C.TableRow, o: C.Object) {
    && o.id == C.TableId(t) && o.schema == t.schema && o.name == t.name
    && o.relationships == C.Relationships(setting.locale, C.TableId(t), t.foreignKeys)
  }

  lemma ObjectStems(setting: C.Setting, t: C.TableRow, o: C.Object)
    requires C.ObjectOf(setting, t) == Ok(o)
    ensures StemsFrom(setting, t, o)
  {
  }

  /** The object before it was flagged. */
  lemma Unflagged(sorted: seq<C.Object>, o: C.Object) returns (x: C.Object)
    requires o in Map(C.Flagged(C.Joinable(sorted)), sorted)
    ensures x in sorted && o == x.(automaticJoin := o.automaticJoin)
  {
    var objects := Map(C.Flagged(C.Joinable(sorted)), sorted);
    var i :| 0 <= i < |objects| && objects[i] == o;
    x := sorted[i];
  }

  lemma SortedIdsDiffer(setting: C.Setting, tables: seq<C.TableRow>)
    requires Orders(setting.locale) && C.SortedObjects(setting, tables).Ok? && AllDifferent(Map(C.TableIds(), tables))
    ensures AllDifferent(Map(C.ObjectKey(), C.SortedObjects(setting, tables).value))
  {
    var converted := C.Collect(Map(C.ObjectFrom(setting), tables)).value;
    K.ObjectIds(setting, tables);
    R.IdRanks(C.ObjectKey(), setting.locale);
    SortSorts(converted, C.ById(C.ObjectKey(), setting.locale));
    R.DifferentPermuted(C.ObjectKey(), converted, C.SortedObjects(setting, tables).value);
  }

  lemma FlaggedIdsKept(sorted: seq<C.Object>, joinable: set<string>)
    ensures Map(C.ObjectKey(), Map(C.Flagged(joinable), sorted)) == Map(C.ObjectKey(), sorted)
  {
  }

  lemma CatalogIdsDiffer(setting: C.Setting, tables: seq<C.TableRow>, enums: seq<C.EnumRow>)
    requires Orders(setting.locale) && C.CreateCatalog(setting, tables, enums).Ok?
    ensures AllDifferent(Map(C.ObjectKey(), C.CreateCatalog(setting, tables, enums).value.objects))
  {
    K.CatalogFrom(setting, tables, enums);
    C.NoDuplicateMeans(Map(C.TableIds(), tables));
    SortedIdsDiffer(setting, tables);
    var sorted := C.SortedObjects(setting, tables).value;
    FlaggedIdsKept(sorted, C.Joinable(sorted));
  }

  /** Every created catalog is sound. */
  lemma CreatedCatalogIsSound(setting: C.Setting, tables: seq<C.TableRow>, enums: seq<C.EnumRow>, version: int,
                              fingerprint: string)
    requires Orders(setting.locale) && C.CreateCatalog(setting, tables, enums).Ok?
    ensures Sound(Source(version, fingerprint, C.CreateCatalog(setting, tables, enums).value.objects))
  {
    CatalogIdsDiffer(setting, tables, enums);
    forall o | o in C.CreateCatalog(setting, tables, enums).value.objects
      ensures o.id == C.Qualify(o.schema, o.name)
      ensures forall r | r in o.relationships :: r.pairs != []
    {
      ObjectFromTable(setting, tables, enums, o);
      var t :| t in tables && StemsFrom(setting, t, o);
      forall r | r in o.relationships
        ensures r.pairs != []
      {
        R.GroupIsProper(setting.locale, C.TableId(t), t.foreignKeys, r);
      }
    }
  }

  /** `id` names a catalog object that the stored selection selects. */
  ghost predicate Allowed(source: Source, scope: Scope, id: string) {
    (exists o | o in source.objects :: o.id == id) && WasSelected(scope.objects, id)
  }

  lemma TableHasObject(source: Source, ids: set<string>, objects: seq<C.Object>, t: G.Table)
    requires TablesOf(source, ids, objects).Ok? && t in TablesOf(source, ids, objects).value
    ensures exists o | o in objects :: TableOf(source, ids, o) == Ok(t)
  {
    var tables := TablesOf(source, ids, objects).value;
    var i :| 0 <= i < |tables| && tables[i] == t;
    assert objects[i] in objects;
  }

  lemma TableKeepsId(source: Source, ids: set<string>, o: C.Object, t: G.Table)
    requires TableOf(source, ids, o) == Ok(t) && o.id == C.Qualify(o.schema, o.name)
    ensures G.IdOf(t) == o.id
  {
  }

  /** The key names columns, and the table it names is allowed. A key to a schema without a name is
      read as one to the table's own schema, so it may miss its table (`NamelessSchemaMisses`). */
  ghost predicate KeyIsSound(source: Source, scope: Scope, t: G.Table, fk: G.ForeignKey) {
    && |fk.fromCols| == |fk.toCols| && fk.fromCols != []
    && Allowed(source, scope, C.Qualify(fk.toSchema, fk.toTable))
    && (fk.toSchema != "" ==> G.TargetId(t, fk) == C.Qualify(fk.toSchema, fk.toTable))
  }

  lemma NamelessSchemaMisses()
    ensures var t := G.Table(Some("app"), "a", [], [], []);
            G.TargetId(t, G.ForeignKey(["x"], "", "b", ["y"])) == "app.b" != C.Qualify("", "b")
  {
    assert C.Qualify("", "b") == ".b";
    assert C.Qualify("app", "b") == "app.b";
  }

  /** A runtime table is a selected object of the catalog, and so are the tables its keys name. */
  lemma TableIsAllowed(leq: (string, string) -> bool, source: Source, scope: Scope, t: G.Table)
    requires Orders(leq) && Sound(source) && RuntimeTables(leq, source, scope).Ok?
    requires t in RuntimeTables(leq, source, scope).value
    ensures Allowed(source, scope, G.IdOf(t))
    ensures forall fk | fk in t.fks :: KeyIsSound(source, scope, t, fk)
  {
    var ids := SelectedIds(Reconcile(leq, source, scope).value);
    var objects := Filter(InIds(ids), source.objects);
    TableHasObject(source, ids, objects, t);
    var o :| o in objects && TableOf(source, ids, o) == Ok(t);
    IdIsAllowed(leq, source, scope, o.id);
    TableKeepsId(source, ids, o, t);
    forall fk | fk in t.fks
      ensures KeyIsSound(source, scope, t, fk)
    {
      KeyIsAllowed(leq, source, scope, o, t, fk);
    }
  }

  lemma IdIsAllowed(leq: (string, string) -> bool, source: Source, scope: Scope, id: string)
    requires Orders(leq) && Identified(source) && Reconcile(leq, source, scope).Ok?
    requires id in SelectedIds(Reconcile(leq, source, scope).value)
    ensures Allowed(source, scope, id)
  {
    ReconcileSelects(leq, source, scope, id);
  }

  lemma KeyIsAllowed(leq: (string, string) -> bool, source: Source, scope: Scope, o: C.Object, t: G.Table, fk: G.ForeignKey)
    requires Orders(leq) && Sound(source) && Reconcile(leq, source, scope).Ok? && o in source.objects
    requires TableOf(source, SelectedIds(Reconcile(leq, source, scope).value), o) == Ok(t) && fk in t.fks
    ensures KeyIsSound(source, scope, t, fk)
  {
    var ids := SelectedIds(Reconcile(leq, source, scope).value);
    var kept := Filter(Kept(ids), o.relationships);
    var i :| 0 <= i < |t.fks| && t.fks[i] == fk;
    assert kept[i] in kept;
    assert ForeignKeyOf(source, o, kept[i]) == Ok(fk);
    IdIsAllowed(leq, source, scope, kept[i].to);
  }

  // ----------------------------------------------- what the runtime tables hold

  /** `name` is what the object calls its physical column: the first of that name. */
  ghost predicate MapsTo(o: C.Object, physical: string, name: string) {
    exists i | 0 <= i < |o.columns| ::
      && o.columns[i].physicalName == physical && o.columns[i].mappingName == name
      && forall j | 0 <= j < i :: o.columns[j].physicalName != physical
  }

  /** The key is the relationship: from the object's columns to the target's, pair by pair. */
  ghost predicate MirrorsKey(source: Source, o: C.Object, r: C.Relationship, fk: G.ForeignKey) {
    exists target | target in source.objects ::
      && target.id == r.to && fk.toSchema == target.schema && fk.toTable == target.name
      && |fk.fromCols| == |r.pairs| && |fk.toCols| == |r.pairs|
      && forall i | 0 <= i < |r.pairs| ::
           MapsTo(o, r.pairs[i].0, fk.fromCols[i]) && MapsTo(target, r.pairs[i].1, fk.toCols[i])
  }

  /** The selected relationships of an object, in order. */
  function SelectedOf(rs: seq<C.Relationship>, ids: set<string>): (kept: seq<C.Relationship>)
    ensures forall r :: r in kept <==> r in rs && r.to in ids
  {
    if rs == [] then []
    else
      var front, last := rs[..|rs| - 1], rs[|rs| - 1];
      assert rs == front + [last];
      SelectedOf(front, ids) + if last.to in ids then [last] else []
  }

  lemma {:induction false} FoundColumn(id: string, columns: seq<C.Column>, physical: string) returns (i: nat)
    requires FindColumn(id, columns, physical).Ok?
    ensures i < |columns| && columns[i].physicalName == physical
    ensures columns[i].mappingName == FindColumn(id, columns, physical).value
    ensures forall j | 0 <= j < i :: columns[j].physicalName != physical
  {
    if columns[0].physicalName == physical {
      i := 0;
    } else {
      i := FoundColumn(id, columns[1..], physical);
      i := i + 1;
    }
  }

  lemma NameMaps(o: C.Object, physical: string)
    requires MappingName(o, physical).Ok?
    ensures MapsTo(o, physical, MappingName(o, physical).value)
  {
    var i := FoundColumn(o.id, o.columns, physical);
  }

  lemma {:induction false} NamesMap(o: C.Object, columns: seq<string>)
    requires MappingNames(o, columns).Ok?
    ensures forall i | 0 <= i < |columns| :: MapsTo(o, columns[i], MappingNames(o, columns).value[i])
  {
    if columns != [] {
      NamesMap(o, columns[..|columns| - 1]);
      NameMaps(o, columns[|columns| - 1]);
    }
  }

  lemma PairsMap(o: C.Object, pairs: seq<(string, string)>, side: ((string, string)) -> string)
    requires MappingNames(o, Map(side, pairs)).Ok?
    ensures var names := MappingNames(o, Map(side, pairs)).value;
            |names| == |pairs| && forall i | 0 <= i < |pairs| :: MapsTo(o, side(pairs[i]), names[i])
  {
    NamesMap(o, Map(side, pairs));
    assert forall i | 0 <= i < |pairs| :: Map(side, pairs)[i] == side(pairs[i]);
  }

  lemma KeyParts(source: Source, o: C.Object, r: C.Relationship) returns (target: C.Object)
    requires ForeignKeyOf(source, o, r).Ok?
    ensures target in source.objects && target.id == r.to
    ensures MappingNames(o, Map(FromColumn(), r.pairs)).Ok? && MappingNames(target, Map(ToColumn(), r.pairs)).Ok?
    ensures ForeignKeyOf(source, o, r).value ==
            G.ForeignKey(MappingNames(o, Map(FromColumn(), r.pairs)).value, target.schema, target.name,
                         MappingNames(target, Map(ToColumn(), r.pairs)).value)
  {
    target := ObjectOf(source, r.to).value;
  }

  lemma KeyMirrors(source: Source, o: C.Object, r: C.Relationship)
    requires ForeignKeyOf(source, o, r).Ok?
    ensures MirrorsKey(source, o, r, ForeignKeyOf(source, o, r).value)
  {
    var target := KeyParts(source, o, r);
    PairsMap(o, r.pairs, FromColumn());
    PairsMap(target, r.pairs, ToColumn());
  }

  lemma {:induction false} SelectedIsKept(rs: seq<C.Relationship>, ids: set<string>)
    ensures SelectedOf(rs, ids) == Filter(Kept(ids), rs)
  {
    if rs != [] {
      SelectedIsKept(rs[..|rs| - 1], ids);
    }
  }

  /** The runtime table of an object has its name, schema, mapped columns and key columns, and exactly
      the relationships to selected objects, in order, each with its pairs side by side. */
  lemma TableMirrors(source: Source, ids: set<string>, o: C.Object)
    requires TableOf(source, ids, o).Ok?
    ensures var t := TableOf(source, ids, o).value;
            var kept := SelectedOf(o.relationships, ids);
            && t.schema == Some(o.schema) && t.name == o.name
            && (forall name :: name in t.columns <==> exists c | c in o.columns :: c.mappingName == name)
            && |t.fks| == |kept| && (forall i | 0 <= i < |kept| :: MirrorsKey(source, o, kept[i], t.fks[i]))
            && (if o.primaryKey.None? then t.pk == []
                else |t.pk| == |o.primaryKey.value.columns| &&
                     forall i | 0 <= i < |t.pk| :: MapsTo(o, o.primaryKey.value.columns[i], t.pk[i]))
  {
    var kept := SelectedOf(o.relationships, ids);
    SelectedIsKept(o.relationships, ids);
    forall i | 0 <= i < |kept|
      ensures MirrorsKey(source, o, kept[i], TableOf(source, ids, o).value.fks[i])
    {
      KeyMirrors(source, o, kept[i]);
    }
    if o.primaryKey.Some? {
      NamesMap(o, o.primaryKey.value.columns);
    }
  }

  /** Every selected object of the catalog has its runtime table, in the catalog's order. */
  lemma TablesMirror(leq: (string, string) -> bool, source: Source, scope: Scope)
    requires Orders(leq) && Identified(source) && RuntimeTables(leq, source, scope).Ok?
    ensures var ids := SelectedIds(Reconcile(leq, source, scope).value);
            var objects := Filter(InIds(ids), source.objects);
            && (forall o :: o in objects <==> o in source.objects && WasSelected(scope.objects, o.id))
            && |RuntimeTables(leq, source, scope).value| == |objects|
            && forall i | 0 <= i < |objects| ::
                 TableOf(source, ids, objects[i]) == Ok(RuntimeTables(leq, source, scope).value[i])
  {
    forall o | o in source.objects
      ensures o.id in SelectedIds(Reconcile(leq, source, scope).value) <==> WasSelected(scope.objects, o.id)
    {
      ReconcileSelects(leq, source, scope, o.id);
    }
  }

  /** A graph over the runtime tables. */
  method CreateGraph(leq: (string, string) -> bool, source: Source, scope: Scope, stableOnly: bool)
    returns (r: Result<G.SchemaGraph, Failure>)
    requires Orders(leq) && Sound(source)
    ensures r.Ok? <==> RuntimeTables(leq, source, scope).Ok?
    ensures r.Ok? ==> fresh(r.value) && r.value.Valid() && G.AllKeysHaveColumns(r.value.tables)
    ensures r.Ok? ==> forall id | id in r.value.tables :: Allowed(source, scope, id)
  {
    var tables := RuntimeTables(leq, source, scope);
    if tables.Err? {
      return Err(tables.error);
    }
    forall t | t in tables.value
      ensures G.KeysHaveColumns(t) && Allowed(source, scope, G.IdOf(t))
    {
      TableIsAllowed(leq, source, scope, t);
      assert forall fk | fk in t.fks :: KeyIsSound(source, scope, t, fk);
    }
    var graph := new G.SchemaGraph(tables.value, stableOnly);
    r := Ok(graph);
  }

  /** Both tables of every step are in the catalog and were selected. */
  ghost predicate StepsAllowed(source: Source, scope: Scope, steps: seq<G.Step>) {
    forall step | step in steps :: Allowed(source, scope, G.FromId(step)) && Allowed(source, scope, G.ToId(step))
  }

  /** A join path over it: whatever is asked for, every table on the way is in the catalog and was
      selected; and no key without columns gets in the way. */
  method PathSelected(leq: (string, string) -> bool, source: Source, scope: Scope, stableOnly: bool,
                      from: string, to: string)
    returns (r: Result<Option<seq<G.Step>>, Failure>)
    requires Orders(leq) && Sound(source)
    ensures r.Ok? <==> RuntimeTables(leq, source, scope).Ok?
    ensures r.Ok? && r.value.Some? ==> StepsAllowed(source, scope, r.value.value)
  {
    var graph := CreateGraph(leq, source, scope, stableOnly);
    if graph.Err? {
      return Err(graph.error);
    }
    var path, _ := graph.value.JoinPath(from, to);
    r := Ok(path.value);
  }

  /** Joining over it: whatever is asked for, every table of the join, intermediate ones included,
      is in the catalog and was selected. */
  method JoinSelected(leq: (string, string) -> bool, source: Source, scope: Scope, stableOnly: bool,
                      from: string, targets: seq<(string, Option<string>)>)
    returns (r: Result<Option<G.JoinResult>, Failure>)
    requires Orders(leq) && Sound(source)
    ensures r.Ok? <==> RuntimeTables(leq, source, scope).Ok?
    ensures r.Ok? && r.value.Some? ==> forall id | id in r.value.value.tables :: Allowed(source, scope, id)
  {
    var graph := CreateGraph(leq, source, scope, stableOnly);
    if graph.Err? {
      return Err(graph.error);
    }
    var join, _ := graph.value.JoinBy(from, targets);
    r := Ok(join.value);
  }
}
