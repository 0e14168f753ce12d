/** The foreign-key graph of a schema and the joins composed over it. */
module SchemaGraph {
  import opened Wrappers
  import opened FkPaths
  import opened Seqs
  import Strings

  datatype ForeignKey = ForeignKey(fromCols: seq<string>, toSchema: string, toTable: string, toCols: seq<string>)

  datatype Table = Table(schema: Option<string>, name: string, columns: seq<string>, pk: seq<string>,
                         fks: seq<ForeignKey>)

  datatype Ref = Ref(schema: string, table: string)

  /** A join step: two tables and the column pairs that connect them. A key that names fewer target
      than source columns leaves the last ones undefined. */
  datatype Step = Step(from: Ref, to: Ref, pairs: seq<(string, Option<string>)>)

  type StepKeys = seq<(string, string, string, string, string, Option<string>)>

  /** An edge without columns has no first pair to read. */
  datatype Fault = NoColumns

  type Found<T> = Result<Option<T>, Fault>

  datatype Target = Target(table: Table, joinType: Option<string>)

  datatype JoinEntry = JoinEntry(on: seq<(string, string, string)>, joinType: Option<string>)

  /** What a dialect's plugin makes a select query of. */
  datatype Query = Query(root: Table, joined: map<string, Table>)

  datatype JoinResult = JoinResult(query: Query, joinBy: map<string, JoinEntry>, tables: seq<Id>, columns: seq<string>)

  // ------------------------------------------------------------- identifiers

  function Qualify(schema: string, name: string): Id {
    schema + "." + name
  }

  function SchemaOf(t: Table): string {
    if t.schema.Some? then t.schema.value else "public"
  }

  function IdOf(t: Table): Id {
    Qualify(SchemaOf(t), t.name)
  }

  function TargetId(t: Table, fk: ForeignKey): Id {
    Qualify(if fk.toSchema != "" then fk.toSchema else SchemaOf(t), fk.toTable)
  }

  function SplitId(id: Id): Ref {
    var dot := Strings.FirstDot(id);
    if dot == |id| then Ref("public", id) else Ref(id[..dot], id[dot + 1..])
  }

  function RefId(r: Ref): Id {
    Qualify(r.schema, r.table)
  }

  /** Splitting a qualified identifier and qualifying the halves gives it back. */
  lemma SplitRoundTrip(id: Id)
    requires '.' in id
    ensures RefId(SplitId(id)) == id
  {
    var dot := Strings.FirstDot(id);
    TakeAll(id);
    assert id == id[..dot] + [id[dot]] + id[dot + 1..];
  }

  lemma QualifiedHasDot(schema: string, name: string)
    ensures '.' in Qualify(schema, name)
  {
    assert Qualify(schema, name)[|schema|] == '.';
  }

  function ColumnAt(columns: seq<string>, i: nat): Option<string> {
    if i < |columns| then Some(columns[i]) else None
  }

  function ToStep(e: Edge): Step {
    Step(SplitId(e.from), SplitId(e.to),
         seq(|e.fromCols|, i requires 0 <= i < |e.fromCols| => (e.fromCols[i], ColumnAt(e.toCols, i))))
  }

  // ------------------------------------------------------- graph construction

  predicate Contains(text: string, part: string)
    requires part != ""
  {
    |part| <= |text| && (text[..|part|] == part || Contains(text[1..], part))
  }

  predicate OccursAt(text: string, part: string, i: nat) {
    i + |part| <= |text| && text[i..i + |part|] == part
  }

  lemma {:induction false} ContainsMeans(text: string, part: string)
    requires part != ""
    ensures Contains(text, part) <==> exists i: nat :: OccursAt(text, part, i)
  {
    if |part| <= |text| {
      var rest := text[1..];
      ContainsMeans(rest, part);
      if text[..|part|] == part {
        assert OccursAt(text, part, 0);
      }
      if i: nat :| OccursAt(rest, part, i) {
        assert text[i + 1..i + 1 + |part|] == rest[i..i + |part|];
        assert OccursAt(text, part, i + 1);
      }
      if i: nat :| OccursAt(text, part, i) {
        if i > 0 {
          assert rest[i - 1..i - 1 + |part|] == text[i..i + |part|];
          assert OccursAt(rest, part, i - 1);
        }
      }
    }
  }

  /** With stable identities only, tables without a primary key and partitions are left out. */
  lemma IncludedMeans(t: Table)
    ensures Included(t, false)
    ensures Included(t, true) <==>
            |t.pk| > 0 && (forall i: nat :: !OccursAt(t.name, "_p20", i) && !OccursAt(t.name, "_p0000", i))
  {
    ContainsMeans(t.name, "_p20");
    ContainsMeans(t.name, "_p0000");
  }

  /** Which tables the constructor keeps. */
  predicate Included(t: Table, stableOnly: bool) {
    stableOnly ==> t.pk != [] && !Contains(t.name, "_p20") && !Contains(t.name, "_p0000")
  }

  /** Every foreign key names columns on both sides. */
  predicate KeysHaveColumns(t: Table) {
    forall fk | fk in t.fks :: fk.fromCols != [] && fk.toCols != []
  }

  ghost predicate AllKeysHaveColumns(tables: map<Id, Table>) {
    forall id | id in tables :: KeysHaveColumns(tables[id])
  }

  /** `e` is a declared foreign key between two tables of the schema. */
  ghost predicate Declared(tables: map<Id, Table>, e: Edge) {
    && e.from in tables && e.to in tables
    && exists fk | fk in tables[e.from].fks ::
         e == Edge(e.from, TargetId(tables[e.from], fk), fk.fromCols, fk.toCols)
  }

  ghost predicate Known(tables: map<Id, Table>, e: Edge) {
    Declared(tables, e) || Declared(tables, Reverse(e))
  }

  /** Each edge is a declared foreign key or the reverse of one. */
  ghost predicate SoundGraph(tables: map<Id, Table>, g: Graph) {
    && WellFormed(g) && Symmetric(g) && g.Keys <= tables.Keys
    && forall e {:trigger Known(tables, e)} | IsEdge(g, e) :: Known(tables, e)
  }

  /** The graph of a schema: all tables, exactly the declared keys, in both directions. */
  ghost predicate IsFkGraph(tables: map<Id, Table>, g: Graph) {
    && SoundGraph(tables, g) && g.Keys == tables.Keys
    && forall e {:trigger Declared(tables, e)} | Declared(tables, e) :: IsEdge(g, e)
  }

  ghost predicate Keyed(tables: map<Id, Table>) {
    forall id | id in tables :: IdOf(tables[id]) == id
  }

  function Push(g: Graph, id: Id, e: Edge): Graph {
    g[id := EdgesOf(g, id) + [e]]
  }

  function AddKey(g: Graph, e: Edge): Graph {
    Push(Push(g, e.from, e), e.to, Reverse(e))
  }

  lemma AddKeyEdges(g: Graph, e: Edge, id: Id, x: Edge)
    ensures x in EdgesOf(AddKey(g, e), id) <==>
            x in EdgesOf(g, id) || (x == e && id == e.from) || (x == Reverse(e) && id == e.to)
  {
  }

  lemma AddKeyIsEdge(g: Graph, e: Edge, x: Edge)
    ensures IsEdge(AddKey(g, e), x) <==> IsEdge(g, x) || x == e || x == Reverse(e)
  {
    AddKeyEdges(g, e, x.from, x);
  }

  lemma AddKeyWellFormed(g: Graph, e: Edge)
    requires WellFormed(g) && e.from in g
    ensures WellFormed(AddKey(g, e)) && AddKey(g, e).Keys == g.Keys + {e.to}
  {
    forall id, x | x in EdgesOf(AddKey(g, e), id)
      ensures x.from == id && x.to in AddKey(g, e)
    {
      AddKeyEdges(g, e, id, x);
    }
  }

  lemma AddKeySound(tables: map<Id, Table>, g: Graph, e: Edge)
    requires SoundGraph(tables, g) && e.from in g && Declared(tables, e)
    ensures SoundGraph(tables, AddKey(g, e)) && IsEdge(AddKey(g, e), e)
    ensures AddKey(g, e).Keys == g.Keys + {e.to}
  {
    var h := AddKey(g, e);
    AddKeyWellFormed(g, e);
    AddKeyIsEdge(g, e, e);
    assert Reverse(Reverse(e)) == e;
    forall x | IsEdge(h, x)
      ensures Twinned(h, x) && Known(tables, x)
    {
      AddKeyIsEdge(g, e, x);
      AddKeyIsEdge(g, e, Reverse(x));
      assert IsEdge(g, x) ==> Twinned(g, x) && Known(tables, x);
    }
  }

  /** The graph holds the foreign keys `fks` of table `id` whose targets are known. */
  ghost predicate HasKeys(g: Graph, tables: map<Id, Table>, id: Id, fks: seq<ForeignKey>)
    requires id in tables
  {
    forall fk | fk in fks && TargetId(tables[id], fk) in tables :: IsEdge(g, KeyEdge(tables, id, fk))
  }

  function KeyEdge(tables: map<Id, Table>, id: Id, fk: ForeignKey): Edge
    requires id in tables
  {
    Edge(id, TargetId(tables[id], fk), fk.fromCols, fk.toCols)
  }

  ghost predicate HasAllKeys(g: Graph, tables: map<Id, Table>, done: seq<Id>) {
    forall id | id in done :: id in tables && id in g && HasKeys(g, tables, id, tables[id].fks)
  }

  lemma HasKeysGrows(g: Graph, tables: map<Id, Table>, id: Id, fks: seq<ForeignKey>, e: Edge)
    requires id in tables && HasKeys(g, tables, id, fks)
    ensures HasKeys(AddKey(g, e), tables, id, fks)
  {
    forall fk | fk in fks && TargetId(tables[id], fk) in tables
      ensures IsEdge(AddKey(g, e), KeyEdge(tables, id, fk))
    {
      AddKeyIsEdge(g, e, KeyEdge(tables, id, fk));
    }
  }

  lemma HasAllKeysGrows(g: Graph, tables: map<Id, Table>, done: seq<Id>, e: Edge)
    requires HasAllKeys(g, tables, done)
    ensures HasAllKeys(AddKey(g, e), tables, done)
  {
    forall id | id in done
      ensures id in AddKey(g, e) && HasKeys(AddKey(g, e), tables, id, tables[id].fks)
    {
      HasKeysGrows(g, tables, id, tables[id].fks, e);
    }
  }

  lemma AllKeysComplete(tables: map<Id, Table>, g: Graph, order: seq<Id>)
    requires HasAllKeys(g, tables, order) && SoundGraph(tables, g)
    requires forall id :: id in order <==> id in tables
    ensures IsFkGraph(tables, g)
  {
    forall e | Declared(tables, e)
      ensures IsEdge(g, e)
    {
      var fk :| fk in tables[e.from].fks && e == Edge(e.from, TargetId(tables[e.from], fk), fk.fromCols, fk.toCols);
      assert e == KeyEdge(tables, e.from, fk) && HasKeys(g, tables, e.from, tables[e.from].fks);
    }
  }

  // ------------------------------------------------------------ paths as steps

  /** An edge of a schema graph names both tables in full and at least one column pair. */
  predicate SoundEdge(e: Edge) {
    Qualified(e) && e.fromCols != []
  }

  predicate SoundEdges(es: seq<Edge>) {
    forall i | 0 <= i < |es| :: SoundEdge(es[i])
  }

  predicate Qualified(e: Edge) {
    '.' in e.from && '.' in e.to
  }

  predicate QualifiedEdges(es: seq<Edge>) {
    forall i | 0 <= i < |es| :: Qualified(es[i])
  }

  ghost predicate HasEmpty(es: seq<Edge>) {
    exists i | 0 <= i < |es| :: es[i].fromCols == []
  }

  function Steps(es: seq<Edge>): (steps: seq<Step>)
    ensures |steps| == |es| && forall i | 0 <= i < |es| :: steps[i] == ToStep(es[i])
  {
    if es == [] then [] else Steps(es[..|es| - 1]) + [ToStep(es[|es| - 1])]
  }

  function FromId(step: Step): Id { RefId(step.from) }

  function ToId(step: Step): Id { RefId(step.to) }

  lemma StepIds(e: Edge)
    requires SoundEdge(e)
    ensures FromId(ToStep(e)) == e.from && ToId(ToStep(e)) == e.to && ToStep(e).pairs != []
  {
    SplitRoundTrip(e.from);
    SplitRoundTrip(e.to);
  }

  lemma GraphEdgeQualified(tables: map<Id, Table>, g: Graph, e: Edge)
    requires Keyed(tables) && IsFkGraph(tables, g) && IsEdge(g, e)
    ensures Qualified(e)
  {
    assert Known(tables, e);
    QualifiedHasDot(SchemaOf(tables[e.from]), tables[e.from].name);
    QualifiedHasDot(SchemaOf(tables[e.to]), tables[e.to].name);
  }

  lemma ChainQualified(tables: map<Id, Table>, g: Graph, a: Id, es: seq<Edge>, b: Id)
    requires Keyed(tables) && IsFkGraph(tables, g) && Chain(g, a, es, b)
    ensures QualifiedEdges(es)
  {
    forall i | 0 <= i < |es|
      ensures Qualified(es[i])
    {
      ChainLinks(g, a, es, b, i);
      GraphEdgeQualified(tables, g, es[i]);
    }
  }

  /** Only a key without columns makes an edge without columns. */
  lemma EmptyEdgeMeans(tables: map<Id, Table>, g: Graph, a: Id, es: seq<Edge>, b: Id)
    requires IsFkGraph(tables, g) && Chain(g, a, es, b) && HasEmpty(es)
    ensures !AllKeysHaveColumns(tables)
  {
    var i :| 0 <= i < |es| && es[i].fromCols == [];
    ChainLinks(g, a, es, b, i);
    assert Known(tables, es[i]);
  }

  lemma NotInGraph(g: Graph, a: Id, b: Id)
    requires WellFormed(g) && a != b && (a !in g || b !in g)
    ensures !Reachable(g, a, b)
  {
    forall es: seq<Edge>
      ensures !Chain(g, a, es, b)
    {
      if Chain(g, a, es, b) {
        var k := if a !in g then 0 else |es| - 1;
        ChainLinks(g, a, es, b, if k < 0 then 0 else k);
      }
    }
  }

  /** What `joinPath` promises: a shortest simple chain of known edges, or no chain at all; it throws
      when the chain it found has an edge without columns. */
  ghost predicate PathFound(g: Graph, from: Id, to: Id, path: Found<seq<Step>>, edges: seq<Edge>) {
    match path
    case Ok(None) => !Reachable(g, from, to)
    case Ok(Some(steps)) =>
      Shortest(g, from, edges, to) && Simple(from, edges) && SoundEdges(edges) && steps == Steps(edges)
    case Err(_) => Shortest(g, from, edges, to) && Simple(from, edges) && HasEmpty(edges)
  }

  /** A shortest chain to `target` from any of the connected tables. */
  ghost predicate Nearest(g: Graph, connected: seq<Id>, start: Id, es: seq<Edge>, target: Id) {
    && start in connected && Chain(g, start, es, target) && Simple(start, es)
    && forall c, other: seq<Edge> | c in connected && Chain(g, c, other, target) :: |es| <= |other|
  }

  ghost predicate NearestFound(g: Graph, connected: seq<Id>, target: Id, path: Option<seq<Step>>, start: Id, es: seq<Edge>) {
    match path
    case Some(steps) => Nearest(g, connected, start, es, target) && SoundEdges(es) && steps == Steps(es)
    case None => forall c | c in connected :: !Reachable(g, c, target)
  }

  /** Some shortest path from a connected table has an edge without columns. */
  ghost predicate Stumbles(g: Graph, connected: seq<Id>, target: Id, start: Id, es: seq<Edge>) {
    start in connected && Shortest(g, start, es, target) && HasEmpty(es)
  }

  /** No table on a nearest path was connected before: from there a shorter path would start. */
  lemma NearestIsFresh(g: Graph, connected: seq<Id>, start: Id, es: seq<Edge>, target: Id, i: nat)
    requires Nearest(g, connected, start, es, target) && i < |es|
    ensures es[i].to !in connected
  {
    ChainSuffix(g, start, es, target, i + 1);
  }

  // -------------------------------------------------------------------- trees

  /** The root and the tables the steps lead to, in order. */
  function TablesOf(root: Id, steps: seq<Step>): (ids: seq<Id>)
    ensures |ids| == |steps| + 1 && ids[0] == root
    ensures forall i | 0 <= i < |steps| :: ids[i + 1] == ToId(steps[i])
  {
    if steps == [] then [root]
    else TablesOf(root, steps[..|steps| - 1]) + [ToId(steps[|steps| - 1])]
  }

  /** Each step joins exactly one new table to a table that is already there. */
  ghost predicate IsTree(root: Id, steps: seq<Step>) {
    steps == [] ||
    var front, last := steps[..|steps| - 1], steps[|steps| - 1];
    IsTree(root, front) && FromId(last) in TablesOf(root, front) && ToId(last) !in TablesOf(root, front)
  }

  /** A tree has one table more than steps, and no table twice. */
  lemma {:induction false} TreeTablesDistinct(root: Id, steps: seq<Step>, i: nat, j: nat)
    requires IsTree(root, steps) && i < j <= |steps|
    ensures TablesOf(root, steps)[i] != TablesOf(root, steps)[j]
  {
    var front := steps[..|steps| - 1];
    if j < |steps| {
      TreeTablesDistinct(root, front, i, j);
      assert TablesOf(root, steps)[..|steps|] == TablesOf(root, front);
    } else {
      assert TablesOf(root, steps)[i] in TablesOf(root, front);
    }
  }

  lemma TreeGrows(root: Id, steps: seq<Step>, step: Step)
    requires IsTree(root, steps) && FromId(step) in TablesOf(root, steps) && ToId(step) !in TablesOf(root, steps)
    ensures IsTree(root, steps + [step])
    ensures TablesOf(root, steps + [step]) == TablesOf(root, steps) + [ToId(step)]
  {
    assert (steps + [step])[..|steps|] == steps;
  }

  /** The column pairs of a step with the tables they connect. */
  function StepKey(step: Step): StepKeys {
    seq(|step.pairs|, i requires 0 <= i < |step.pairs| =>
      (step.from.schema, step.from.table, step.pairs[i].0, step.to.schema, step.to.table, step.pairs[i].1))
  }

  lemma SameKeySameTarget(a: Step, b: Step)
    requires a.pairs != [] && StepKey(a) == StepKey(b)
    ensures ToId(a) == ToId(b)
  {
    assert StepKey(a)[0] == StepKey(b)[0];
  }

  // ------------------------------------------------------------ the join object

  function JoinTypeOf(targets: seq<Target>, id: Id): Option<string> {
    if targets == [] then None
    else if IdOf(targets[0].table) == id then
      if targets[0].joinType == Some("inner") || targets[0].joinType == Some("") then None else targets[0].joinType
    else JoinTypeOf(targets[1..], id)
  }

  /** A column in a text; a missing one shows. */
  function Shown(column: Option<string>): string {
    if column.Some? then column.value else "undefined"
  }

  function EntryOf(step: Step, targets: seq<Target>): JoinEntry {
    JoinEntry(seq(|step.pairs|, i requires 0 <= i < |step.pairs| =>
                (step.from.table + "." + step.pairs[i].0, "=", step.to.table + "." + Shown(step.pairs[i].1))),
              JoinTypeOf(targets, ToId(step)))
  }

  /** One entry per step under the name of its table; a later table of that name wins. */
  function JoinByOf(steps: seq<Step>, targets: seq<Target>): map<string, JoinEntry> {
    if steps == [] then map[]
    else
      var last := steps[|steps| - 1];
      JoinByOf(steps[..|steps| - 1], targets)[last.to.table := EntryOf(last, targets)]
  }

  ghost predicate NamesDiffer(steps: seq<Step>) {
    forall i, j | 0 <= i < j < |steps| :: steps[i].to.table != steps[j].to.table
  }

  /** The join object has entries for the joined tables only. */
  lemma {:induction false} JoinByNames(steps: seq<Step>, targets: seq<Target>, name: string)
    requires forall i | 0 <= i < |steps| :: steps[i].to.table != name
    ensures name !in JoinByOf(steps, targets)
  {
    if steps != [] {
      JoinByNames(steps[..|steps| - 1], targets, name);
    }
  }

  /** With distinct table names it has exactly one for each. */
  lemma {:induction false} JoinByOnePerTable(steps: seq<Step>, targets: seq<Target>)
    requires NamesDiffer(steps)
    ensures |JoinByOf(steps, targets)| == |steps|
  {
    if steps != [] {
      var front := steps[..|steps| - 1];
      JoinByOnePerTable(front, targets);
      JoinByNames(front, targets, steps[|steps| - 1].to.table);
    }
  }

  /** And each is the entry of its own step. */
  lemma {:induction false} JoinByEntry(steps: seq<Step>, targets: seq<Target>, i: nat)
    requires NamesDiffer(steps) && i < |steps|
    ensures steps[i].to.table in JoinByOf(steps, targets)
    ensures JoinByOf(steps, targets)[steps[i].to.table] == EntryOf(steps[i], targets)
  {
    var n := |steps| - 1;
    if i < n {
      JoinByEntry(steps[..n], targets, i);
      assert steps[i].to.table != steps[n].to.table;
    }
  }

  function JoinedOf(targets: seq<Target>): map<string, Table> {
    if targets == [] then map[]
    else
      var last := targets[|targets| - 1].table;
      JoinedOf(targets[..|targets| - 1])[last.name := last]
  }

  /** A table's columns as the join offers them. */
  function Labels(rootName: string, name: string, keys: seq<string>): (labels: seq<string>)
    ensures |labels| == |keys|
    ensures forall i | 0 <= i < |keys| :: labels[i] == if name == rootName then keys[i] else name + "." + keys[i]
  {
    if keys == [] then []
    else
      var last := keys[|keys| - 1];
      Labels(rootName, name, keys[..|keys| - 1]) + [if name == rootName then last else name + "." + last]
  }

  function ColumnsOf(tables: map<Id, Table>, rootName: string, ids: seq<Id>): seq<string> {
    if ids == [] then []
    else
      var id := ids[|ids| - 1];
      ColumnsOf(tables, rootName, ids[..|ids| - 1])
      + if id in tables then Labels(rootName, SplitId(id).table, tables[id].columns) else []
  }

  /** The result of a join along the steps of a tree. */
  function Composed(tables: map<Id, Table>, root: Table, targets: seq<Target>, steps: seq<Step>): JoinResult {
    JoinResult(Query(root, JoinedOf(targets)), JoinByOf(steps, targets), TablesOf(IdOf(root), steps),
               ColumnsOf(tables, root.name, TablesOf(IdOf(root), steps)))
  }

  // -------------------------------------------- what a join's result reads as

  /** The conditions of a join compare the columns that the step pairs, each with its table's name. */
  ghost predicate Compares(on: seq<(string, string, string)>, step: Step) {
    |on| == |step.pairs| &&
    forall i | 0 <= i < |on| ::
      on[i] == (step.from.table + "." + step.pairs[i].0, "=",
                step.to.table + "." + (if step.pairs[i].1.Some? then step.pairs[i].1.value else "undefined"))
  }

  /** No earlier target is the same table. */
  ghost predicate FirstOf(targets: seq<Target>, j: nat)
    requires j < |targets|
  {
    forall i | 0 <= i < j :: IdOf(targets[i].table) != IdOf(targets[j].table)
  }

  /** The join type asked for with the first target that is the table; an inner join is the default. */
  ghost predicate TypeAsked(joinType: Option<string>, targets: seq<Target>, id: Id) {
    && (forall j | 0 <= j < |targets| && IdOf(targets[j].table) == id && FirstOf(targets, j) ::
          joinType == if targets[j].joinType in {Some("inner"), Some("")} then None else targets[j].joinType)
    && ((forall j | 0 <= j < |targets| :: IdOf(targets[j].table) != id) ==> joinType == None)
  }

  /** No later step leads to a table of that name. */
  ghost predicate LastNamed(steps: seq<Step>, i: nat)
    requires i < |steps|
  {
    forall j | i < j < |steps| :: steps[j].to.table != steps[i].to.table
  }

  /** Every name has the entry of the last step that leads to a table of that name. */
  ghost predicate EntriesRead(joinBy: map<string, JoinEntry>, targets: seq<Target>, steps: seq<Step>) {
    && (forall name | name in joinBy :: exists i | 0 <= i < |steps| :: steps[i].to.table == name)
    && (forall i | 0 <= i < |steps| :: steps[i].to.table in joinBy)
    && (forall i | 0 <= i < |steps| && LastNamed(steps, i) ::
          && Compares(joinBy[steps[i].to.table].on, steps[i])
          && TypeAsked(joinBy[steps[i].to.table].joinType, targets, ToId(steps[i])))
  }

  /** The query joins each target under its table's name, the last of a name. */
  ghost predicate JoinedReads(joined: map<string, Table>, targets: seq<Target>) {
    && (forall name :: name in joined <==> exists j | 0 <= j < |targets| :: targets[j].table.name == name)
    && (forall j | 0 <= j < |targets| && LastTarget(targets, j) ::
          targets[j].table.name in joined && joined[targets[j].table.name] == targets[j].table)
  }

  ghost predicate ReadsAs(r: JoinResult, root: Table, targets: seq<Target>, steps: seq<Step>) {
    && r.query.root == root && JoinedReads(r.query.joined, targets)
    && EntriesRead(r.joinBy, targets, steps)
    && |r.tables| == |steps| + 1 && r.tables[0] == IdOf(root)
    && forall i | 0 <= i < |steps| :: r.tables[i + 1] == ToId(steps[i])
  }

  lemma {:induction false} JoinTypeAsked(targets: seq<Target>, id: Id)
    ensures TypeAsked(JoinTypeOf(targets, id), targets, id)
  {
    if targets != [] && IdOf(targets[0].table) != id {
      var rest := targets[1..];
      JoinTypeAsked(rest, id);
      forall j | 0 <= j < |targets| && IdOf(targets[j].table) == id && FirstOf(targets, j)
        ensures j > 0 && rest[j - 1] == targets[j] && FirstOf(rest, j - 1)
      {
        assert forall i | 0 <= i < j - 1 :: rest[i] == targets[i + 1];
      }
      assert forall j | 0 <= j < |rest| :: rest[j] == targets[j + 1];
    }
    if targets != [] && IdOf(targets[0].table) == id {
      assert forall j | 0 < j < |targets| && FirstOf(targets, j) :: IdOf(targets[j].table) != id;
    }
  }

  lemma EntryReads(step: Step, targets: seq<Target>)
    ensures Compares(EntryOf(step, targets).on, step)
    ensures TypeAsked(EntryOf(step, targets).joinType, targets, ToId(step))
  {
    JoinTypeAsked(targets, ToId(step));
  }

  lemma {:induction false} LastEntry(steps: seq<Step>, targets: seq<Target>, i: nat)
    requires i < |steps| && LastNamed(steps, i)
    ensures steps[i].to.table in JoinByOf(steps, targets)
    ensures JoinByOf(steps, targets)[steps[i].to.table] == EntryOf(steps[i], targets)
  {
    var n := |steps| - 1;
    if i < n {
      assert steps[i].to.table != steps[n].to.table;
      LastEntry(steps[..n], targets, i);
    }
  }

  lemma {:induction false} NamedEntry(steps: seq<Step>, targets: seq<Target>, i: nat)
    requires i < |steps|
    ensures steps[i].to.table in JoinByOf(steps, targets)
  {
    if i < |steps| - 1 {
      NamedEntry(steps[..|steps| - 1], targets, i);
    }
  }

  lemma JoinByReads(steps: seq<Step>, targets: seq<Target>)
    ensures EntriesRead(JoinByOf(steps, targets), targets, steps)
  {
    var joinBy := JoinByOf(steps, targets);
    forall name | name in joinBy
      ensures exists i | 0 <= i < |steps| :: steps[i].to.table == name
    {
      if forall i | 0 <= i < |steps| :: steps[i].to.table != name {
        JoinByNames(steps, targets, name);
      }
    }
    forall i | 0 <= i < |steps|
      ensures steps[i].to.table in joinBy
    {
      NamedEntry(steps, targets, i);
    }
    forall i | 0 <= i < |steps| && LastNamed(steps, i)
      ensures Compares(joinBy[steps[i].to.table].on, steps[i])
      ensures TypeAsked(joinBy[steps[i].to.table].joinType, targets, ToId(steps[i]))
    {
      LastEntry(steps, targets, i);
      EntryReads(steps[i], targets);
    }
  }

  lemma {:induction false} JoinedNames(targets: seq<Target>, name: string)
    ensures name in JoinedOf(targets) <==> exists j | 0 <= j < |targets| :: targets[j].table.name == name
  {
    if targets != [] {
      var front, last := targets[..|targets| - 1], targets[|targets| - 1];
      JoinedNames(front, name);
      assert targets == front + [last];
    }
  }

  /** No later target has that name. */
  ghost predicate LastTarget(targets: seq<Target>, j: nat)
    requires j < |targets|
  {
    forall i | j < i < |targets| :: targets[i].table.name != targets[j].table.name
  }

  lemma {:induction false} LastJoined(targets: seq<Target>, j: nat)
    requires j < |targets| && LastTarget(targets, j)
    ensures targets[j].table.name in JoinedOf(targets) && JoinedOf(targets)[targets[j].table.name] == targets[j].table
  {
    var n := |targets| - 1;
    if j < n {
      assert targets[j].table.name != targets[n].table.name;
      LastJoined(targets[..n], j);
    }
  }

  lemma JoinedOfReads(targets: seq<Target>)
    ensures JoinedReads(JoinedOf(targets), targets)
  {
    forall name
      ensures name in JoinedOf(targets) <==> exists j | 0 <= j < |targets| :: targets[j].table.name == name
    {
      JoinedNames(targets, name);
    }
    forall j | 0 <= j < |targets| && LastTarget(targets, j)
      ensures targets[j].table.name in JoinedOf(targets) && JoinedOf(targets)[targets[j].table.name] == targets[j].table
    {
      LastJoined(targets, j);
    }
  }

  lemma ComposedReads(tables: map<Id, Table>, root: Table, targets: seq<Target>, steps: seq<Step>)
    ensures ReadsAs(Composed(tables, root, targets, steps), root, targets, steps)
  {
    JoinByReads(steps, targets);
    JoinedOfReads(targets);
  }

  /** Tables one after another, each with its columns in order. */
  lemma {:induction false} ColumnsInOrder(tables: map<Id, Table>, rootName: string, ids: seq<Id>, more: seq<Id>)
    ensures ColumnsOf(tables, rootName, ids + more) == ColumnsOf(tables, rootName, ids) + ColumnsOf(tables, rootName, more)
  {
    if more == [] {
      assert ids + more == ids;
    } else {
      var front := more[..|more| - 1];
      ColumnsInOrder(tables, rootName, ids, front);
      assert (ids + more)[..|ids + more| - 1] == ids + front;
      var id := more[|more| - 1];
      Regroup(ColumnsOf(tables, rootName, ids), ColumnsOf(tables, rootName, front),
              if id in tables then Labels(rootName, SplitId(id).table, tables[id].columns) else []);
    }
  }

  /** The join offers exactly the columns of the joined tables of the schema. */
  lemma {:induction false} ColumnOffered(tables: map<Id, Table>, rootName: string, ids: seq<Id>, column: string)
    ensures column in ColumnsOf(tables, rootName, ids) <==>
            exists id | id in ids && id in tables :: column in Labels(rootName, SplitId(id).table, tables[id].columns)
  {
    if ids != [] {
      ColumnOffered(tables, rootName, ids[..|ids| - 1], column);
      assert ids == ids[..|ids| - 1] + [ids[|ids| - 1]];
    }
  }

  /** Some included table of the schema has the identifier. */
  ghost predicate IsIncludedId(schema: seq<Table>, stableOnly: bool, id: Id) {
    exists t | t in schema :: Included(t, stableOnly) && IdOf(t) == id
  }

  /** The tables kept of a schema, by identifier: the included ones, the last of each identifier. */
  ghost predicate Collected(tables: map<Id, Table>, order: seq<Id>, schema: seq<Table>, stableOnly: bool) {
    && Keyed(tables)
    && (forall id :: id in order <==> id in tables)
    && (forall id :: id in tables <==> IsIncludedId(schema, stableOnly, id))
    && (forall id | id in tables :: tables[id] in schema && Included(tables[id], stableOnly))
  }

  /** Of several included tables with one identifier the last is kept. */
  ghost predicate LastKept(tables: map<Id, Table>, schema: seq<Table>, stableOnly: bool) {
    forall i | 0 <= i < |schema| && LastIncluded(schema, stableOnly, i) ::
      IdOf(schema[i]) in tables && tables[IdOf(schema[i])] == schema[i]
  }

  lemma LastKeptNext(tables: map<Id, Table>, schema: seq<Table>, stableOnly: bool, t: Table)
    requires LastKept(tables, schema, stableOnly)
    ensures LastKept(if Included(t, stableOnly) then tables[IdOf(t) := t] else tables, schema + [t], stableOnly)
  {
    var all := schema + [t];
    forall i | 0 <= i < |schema| && LastIncluded(all, stableOnly, i)
      ensures LastIncluded(schema, stableOnly, i) && (Included(t, stableOnly) ==> IdOf(t) != IdOf(schema[i]))
    {
      assert all[|schema|] == t;
      assert forall j | i < j < |schema| :: schema[j] == all[j];
    }
  }

  /** The table is kept, and no later one of its identifier is. */
  ghost predicate LastIncluded(schema: seq<Table>, stableOnly: bool, i: nat)
    requires i < |schema|
  {
    && Included(schema[i], stableOnly)
    && forall j | i < j < |schema| :: !(Included(schema[j], stableOnly) && IdOf(schema[j]) == IdOf(schema[i]))
  }

  lemma IsIncludedNext(schema: seq<Table>, stableOnly: bool, t: Table, id: Id)
    ensures IsIncludedId(schema + [t], stableOnly, id) <==>
            IsIncludedId(schema, stableOnly, id) || (Included(t, stableOnly) && IdOf(t) == id)
  {
    assert forall x :: x in schema + [t] <==> x in schema || x == t;
  }

  lemma CollectedSkip(tables: map<Id, Table>, order: seq<Id>, schema: seq<Table>, stableOnly: bool, t: Table)
    requires Collected(tables, order, schema, stableOnly) && !Included(t, stableOnly)
    ensures Collected(tables, order, schema + [t], stableOnly)
  {
    forall id
      ensures id in tables <==> IsIncludedId(schema + [t], stableOnly, id)
    {
      IsIncludedNext(schema, stableOnly, t, id);
    }
  }

  lemma CollectedAdd(tables: map<Id, Table>, order: seq<Id>, schema: seq<Table>, stableOnly: bool, t: Table)
    requires Collected(tables, order, schema, stableOnly) && Included(t, stableOnly)
    ensures Collected(tables[IdOf(t) := t], if IdOf(t) in tables then order else order + [IdOf(t)], schema + [t], stableOnly)
  {
    var more := if IdOf(t) in tables then order else order + [IdOf(t)];
    forall id
      ensures id in tables[IdOf(t) := t] <==> IsIncludedId(schema + [t], stableOnly, id)
      ensures id in more <==> id in tables || id == IdOf(t)
    {
      IsIncludedNext(schema, stableOnly, t, id);
    }
  }

  /** One turn of the constructor's loop. */
  lemma KeptNext(tables: map<Id, Table>, order: seq<Id>, schema: seq<Table>, stableOnly: bool, i: nat)
    requires i < |schema| && Collected(tables, order, schema[..i], stableOnly) && LastKept(tables, schema[..i], stableOnly)
    ensures var t := schema[i];
            var kept := if Included(t, stableOnly) then tables[IdOf(t) := t] else tables;
            var ids := if !Included(t, stableOnly) || IdOf(t) in tables then order else order + [IdOf(t)];
            Collected(kept, ids, schema[..i + 1], stableOnly) && LastKept(kept, schema[..i + 1], stableOnly)
  {
    var t := schema[i];
    TakeNext(schema, i);
    LastKeptNext(tables, schema[..i], stableOnly, t);
    if Included(t, stableOnly) {
      CollectedAdd(tables, order, schema[..i], stableOnly, t);
    } else {
      CollectedSkip(tables, order, schema[..i], stableOnly, t);
    }
  }

  class SchemaGraph {
    var order: seq<Id>
    var tables: map<Id, Table>
    var fkGraph: Option<Graph>

    ghost predicate Valid()
      reads this
    {
      && Keyed(tables)
      && (forall id :: id in order <==> id in tables)
      && (fkGraph.Some? ==> IsFkGraph(tables, fkGraph.value))
    }

    /** Later tables replace earlier ones with the same identifier. */
    constructor (schema: seq<Table>, stableOnly: bool)
      ensures Valid() && fkGraph == None
      ensures Collected(tables, order, schema, stableOnly) && LastKept(tables, schema, stableOnly)
    {
      var ids: seq<Id>, kept: map<Id, Table> := [], map[];
      for i := 0 to |schema|
        invariant Collected(kept, ids, schema[..i], stableOnly) && LastKept(kept, schema[..i], stableOnly)
      {
        var t := schema[i];
        KeptNext(kept, ids, schema, stableOnly, i);
        if !Included(t, stableOnly) {
          continue;
        }
        var key := IdOf(t);
        ids := if key in kept then ids else ids + [key];
        kept := kept[key := t];
      }
      TakeAll(schema);
      order, tables, fkGraph := ids, kept, None;
    }

    method GetFkGraph() returns (g: Graph)
      requires Valid()
      modifies this`fkGraph
      ensures Valid() && fkGraph == Some(g)
      ensures old(fkGraph).Some? ==> fkGraph == old(fkGraph)
    {
      if fkGraph.Some? {
        return fkGraph.value;
      }
      g := map[];
      for i := 0 to |order|
        invariant Valid() && SoundGraph(tables, g) && HasAllKeys(g, tables, order[..i])
      {
        g := AddTable(g, order[i], order[..i]);
        TakeNext(order, i);
      }
      TakeAll(order);
      AllKeysComplete(tables, g, order);
      fkGraph := Some(g);
    }

    /** One turn of the construction loop: a table's foreign keys, in both directions. */
    method AddTable(graph: Graph, id: Id, ghost done: seq<Id>) returns (g: Graph)
      requires id in tables
      requires SoundGraph(tables, graph) && HasAllKeys(graph, tables, done)
      ensures SoundGraph(tables, g) && HasAllKeys(g, tables, done + [id])
    {
      var t := tables[id];
      g := graph;
      if id !in g {
        g := g[id := []];
        SameEdges(tables, graph, id, done);
      }
      for k := 0 to |t.fks|
        invariant SoundGraph(tables, g) && id in g
        invariant HasAllKeys(g, tables, done) && HasKeys(g, tables, id, t.fks[..k])
      {
        var fk := t.fks[k];
        TakeNext(t.fks, k);
        var target := TargetId(t, fk);
        if target !in tables {
          continue;
        }
        var edge := Edge(id, target, fk.fromCols, fk.toCols);
        assert edge == KeyEdge(tables, id, fk);
        AddKeySound(tables, g, edge);
        HasKeysGrows(g, tables, id, t.fks[..k], edge);
        HasAllKeysGrows(g, tables, done, edge);
        g := AddEdge(g, edge);
      }
      TakeAll(t.fks);
    }

    method AddEdge(graph: Graph, edge: Edge) returns (g: Graph)
      requires edge.from in graph
      ensures g == AddKey(graph, edge)
    {
      g := graph[edge.from := graph[edge.from] + [edge]];
      if edge.to !in g {
        g := g[edge.to := []];
      }
      g := g[edge.to := g[edge.to] + [Edge(edge.to, edge.from, edge.toCols, edge.fromCols)]];
    }

    /** A shortest path between two tables, by breadth-first search. */
    method JoinPath(from: Id, to: Id) returns (path: Found<seq<Step>>, ghost edges: seq<Edge>)
      requires Valid()
      modifies this`fkGraph
      ensures Valid() && (old(fkGraph).Some? ==> fkGraph == old(fkGraph))
      ensures from == to ==> path == Ok(Some([]))
      ensures from != to ==> fkGraph.Some?
      ensures fkGraph.Some? ==> PathFound(fkGraph.value, from, to, path, edges)
      ensures path.Err? ==> !AllKeysHaveColumns(tables)
      ensures path.Ok? && path.value.Some? ==>
                && |path.value.value| == |edges| && Leads(from, path.value.value, to)
                && AllFollowKeys(tables, path.value.value)
    {
      edges := [];
      if from == to {
        return Ok(Some([])), [];
      }
      var g := GetFkGraph();
      if from !in g || to !in g {
        NotInGraph(g, from, to);
        return Ok(None), [];
      }
      var found := Search(g, from, to);
      if found.None? {
        return Ok(None), [];
      }
      edges := found.value;
      ChainQualified(tables, g, from, edges, to);
      var steps := StepsOf(found.value);
      if steps.Err? {
        EmptyEdgeMeans(tables, g, from, edges, to);
        return Err(steps.error), edges;
      }
      PathFollows(tables, g, from, edges, to);
      PathLeads(g, from, edges, to);
      path := Ok(Some(steps.value));
    }

    method StepsOf(path: seq<Edge>) returns (steps: Result<seq<Step>, Fault>)
      requires QualifiedEdges(path)
      ensures steps.Ok? ==> SoundEdges(path) && steps.value == Steps(path)
      ensures steps.Err? ==> HasEmpty(path)
    {
      var done: seq<Step> := [];
      for i := 0 to |path|
        invariant done == Steps(path[..i]) && SoundEdges(path[..i])
      {
        TakeNext(path, i);
        if path[i].fromCols == [] {
          return Err(NoColumns);
        }
        done := done + [ToStep(path[i])];
      }
      TakeAll(path);
      return Ok(done);
    }

    method ShortestPathFromConnected(connected: seq<Id>, target: Id)
      returns (r: Found<seq<Step>>, ghost start: Id, ghost edges: seq<Edge>)
      requires Valid() && fkGraph.Some?
      modifies this`fkGraph
      ensures Valid() && fkGraph == old(fkGraph)
      ensures r.Ok? ==> NearestFound(fkGraph.value, connected, target, r.value, start, edges)
      ensures r.Ok? && r.value.Some? ==>
                |r.value.value| == |edges| && Leads(start, r.value.value, target) && AllFollowKeys(tables, r.value.value)
      ensures r.Err? ==> Stumbles(fkGraph.value, connected, target, start, edges) && !AllKeysHaveColumns(tables)
    {
      start, edges := target, [];
      ghost var g := fkGraph.value;
      if target in connected {
        NearestHere(g, connected, target);
        return Ok(Some([])), target, [];
      }
      var best: Option<seq<Step>> := None;
      for i := 0 to |connected|
        invariant Valid() && fkGraph == Some(g)
        invariant NearestFound(g, connected[..i], target, best, start, edges)
        invariant best.Some? ==>
                    |best.value| == |edges| && Leads(start, best.value, target) && AllFollowKeys(tables, best.value)
      {
        var found, path := JoinPath(connected[i], target);
        TakeNext(connected, i);
        if found.Err? {
          return Err(found.error), connected[i], path;
        }
        var candidate := found.value;
        CompareCandidate(g, connected[..i], connected[i], target, candidate, path, best, start, edges);
        if candidate.None? {
          continue;
        }
        if best.None? || |candidate.value| < |best.value| {
          best, start, edges := candidate, connected[i], path;
        }
      }
      TakeAll(connected);
      r := Ok(best);
    }

    /** Grows a set of connected tables, target by target, along nearest paths. */
    method Join(root: Table, targets: seq<Target>) returns (r: Found<JoinResult>, ghost steps: seq<Step>)
      requires Valid()
      modifies this`fkGraph
      ensures Valid() && fkGraph.Some?
      ensures r.Err? ==> !AllKeysHaveColumns(tables)
      ensures r.Ok? ==>
                (r.value.Some? <==> forall t | t in targets :: Reachable(fkGraph.value, IdOf(root), IdOf(t.table)))
      ensures r.Ok? && r.value.Some? ==>
                && IsTree(IdOf(root), steps)
                && AllConnected(targets, TablesOf(IdOf(root), steps))
                && AllSteps(fkGraph.value, steps) && AllFollowKeys(tables, steps)
                && ReadsAs(r.value.value, root, targets, steps)
                && r.value.value == Composed(tables, root, targets, steps)
    {
      var g := GetFkGraph();
      var rootId := IdOf(root);
      var path: seq<Step> := [];
      var seenSteps: set<StepKeys> := {};
      var connected := [rootId];
      GrowingStart(g, rootId);
      steps := [];
      for i := 0 to |targets|
        invariant Valid() && fkGraph == Some(g)
        invariant Growing(g, rootId, path, connected, seenSteps)
        invariant AllConnected(targets[..i], connected)
      {
        var targetId := IdOf(targets[i].table);
        var targetPath, start, edges := ShortestPathFromConnected(connected, targetId);
        if targetPath.Err? {
          return Err(targetPath.error), [];
        }
        if targetPath.value.None? {
          assert rootId in connected && targets[i] in targets;
          return Ok(None), [];
        }
        ghost var before := connected;
        path, seenSteps, connected :=
          Attach(g, rootId, path, seenSteps, connected, targetPath.value.value, start, edges, targetId);
        ConnectedGrows(targets, i, before, connected);
      }
      TakeAll(targets);
      var joined := BuildJoined(targets);
      var joinBy := BuildJoinBy(path, targets);
      var tableIds := DistinctTables(rootId, path);
      var columns := ListColumns(root.name, tableIds);
      r, steps := Ok(Some(JoinResult(Query(root, joined), joinBy, tableIds, columns))), path;
      ConnectedReachable(g, rootId, targets, connected);
      StepsFollow(tables, g, steps);
      ComposedReads(tables, root, targets, steps);
    }

    /** The targets by name; a later one of that name wins. */
    method BuildJoined(targets: seq<Target>) returns (joined: map<string, Table>)
      ensures joined == JoinedOf(targets)
    {
      joined := map[];
      for i := 0 to |targets|
        invariant joined == JoinedOf(targets[..i])
      {
        TakeNext(targets, i);
        joined := joined[targets[i].table.name := targets[i].table];
      }
      TakeAll(targets);
    }

    /** The columns of the root by their names, those of other tables with their table's. */
    method ListColumns(rootName: string, ids: seq<Id>) returns (columns: seq<string>)
      ensures columns == ColumnsOf(tables, rootName, ids)
    {
      columns := [];
      for i := 0 to |ids|
        invariant columns == ColumnsOf(tables, rootName, ids[..i])
      {
        TakeNext(ids, i);
        if ids[i] in tables {
          columns := AppendColumns(columns, rootName, SplitId(ids[i]).table, tables[ids[i]].columns);
        }
      }
      TakeAll(ids);
    }

    method AppendColumns(before: seq<string>, rootName: string, name: string, keys: seq<string>) returns (columns: seq<string>)
      ensures columns == before + Labels(rootName, name, keys)
    {
      columns := before;
      for k := 0 to |keys|
        invariant columns == before + Labels(rootName, name, keys[..k])
      {
        TakeNext(keys, k);
        columns := columns + [if name == rootName then keys[k] else name + "." + keys[k]];
      }
      TakeAll(keys);
    }

    /** Looks the tables up by identifier first; all tables of the result are tables of the graph. */
    method JoinBy(from: Id, targets: seq<(Id, Option<string>)>) returns (r: Found<JoinResult>, ghost steps: seq<Step>)
      requires Valid()
      modifies this`fkGraph
      ensures Valid()
      ensures r.Err? ==> !AllKeysHaveColumns(tables)
      ensures r.Ok? && r.value.Some? ==>
                && from in tables && AllIn(tables, targets) && fkGraph.Some?
                && IsTree(from, steps) && AllSteps(fkGraph.value, steps) && AllFollowKeys(tables, steps)
                && ReadsAs(r.value.value, tables[from], Resolved(tables, targets), steps)
                && AllConnected(Resolved(tables, targets), TablesOf(from, steps))
                && r.value.value == Composed(tables, tables[from], Resolved(tables, targets), steps)
                && r.value.value.tables == TablesOf(from, steps)
                && forall id | id in TablesOf(from, steps) :: id in tables
      ensures r.Ok? ==>
                (r.value.Some? <==>
                  && from in tables && targets != [] && AllIn(tables, targets)
                  && fkGraph.Some? && forall t | t in targets :: Reachable(fkGraph.value, from, t.0))
    {
      steps := [];
      if from !in tables || targets == [] {
        return Ok(None), [];
      }
      var resolved := ResolveTargets(targets);
      if resolved.None? {
        return Ok(None), [];
      }
      r, steps := Join(tables[from], resolved.value);
      ResolvedReachable(tables, fkGraph.value, from, targets);
      if r.Ok? && r.value.Some? {
        StepsInTables(tables, fkGraph.value, from, steps);
      }
    }

    method ResolveTargets(targets: seq<(Id, Option<string>)>) returns (resolved: Option<seq<Target>>)
      ensures resolved == if AllIn(tables, targets) then Some(Resolved(tables, targets)) else None
    {
      var done: seq<Target> := [];
      for i := 0 to |targets|
        invariant AllIn(tables, targets[..i]) && done == Resolved(tables, targets[..i])
      {
        TakeNext(targets, i);
        if targets[i].0 !in tables {
          assert targets[i] in targets;
          return None;
        }
        done := done + [Target(tables[targets[i].0], targets[i].1)];
      }
      TakeAll(targets);
      resolved := Some(done);
    }

    /** The inner loop of `join`: adds the steps of one nearest path. */
    method Attach(ghost g: Graph, ghost rootId: Id, path: seq<Step>,
                  seen: set<StepKeys>, connected: seq<Id>,
                  targetPath: seq<Step>, ghost start: Id, ghost edges: seq<Edge>, targetId: Id)
      returns (path': seq<Step>, seen': set<StepKeys>, connected': seq<Id>)
      requires Growing(g, rootId, path, connected, seen)
      requires Nearest(g, connected, start, edges, targetId) && SoundEdges(edges) && targetPath == Steps(edges)
      ensures Growing(g, rootId, path', connected', seen')
      ensures targetId in connected' && connected <= connected'
      ensures path' == path + targetPath
    {
      path', seen', connected' := path, seen, connected;
      AttachingStart(g, rootId, path, connected, seen, start, edges, targetId);
      for k := 0 to |targetPath|
        invariant |targetPath| == |edges|
        invariant Attaching(g, rootId, path', connected', seen', connected, start, edges, k)
        invariant Prefixed(path', path, targetPath, k)
      {
        PrefixedNext(path', path, targetPath, k);
        path', seen', connected' := AttachStep(g, rootId, path', seen', connected', targetPath[k],
                                               connected, start, edges, targetId, k);
      }
      AttachingEnd(g, rootId, path', connected', seen', connected, start, edges, targetId);
      TakeAll(targetPath);
      connected' := AddId(connected', targetId);
    }

    /** One step of a path. That the same step was taken before cannot happen. */
    method AttachStep(ghost g: Graph, ghost rootId: Id, path: seq<Step>, seen: set<StepKeys>, connected: seq<Id>, step: Step,
                      ghost before: seq<Id>, ghost start: Id, ghost edges: seq<Edge>, ghost target: Id, ghost k: nat)
      returns (path': seq<Step>, seen': set<StepKeys>, connected': seq<Id>)
      requires k < |edges| && Attaching(g, rootId, path, connected, seen, before, start, edges, k)
      requires Nearest(g, before, start, edges, target) && SoundEdges(edges) && step == Steps(edges)[k]
      ensures Attaching(g, rootId, path', connected', seen', before, start, edges, k + 1)
      ensures path' == path + [step]
    {
      path', seen', connected' := path, seen, connected;
      var stepKey := StepKey(step);
      AttachingStep(g, rootId, path, connected, seen, before, start, edges, target, k);
      assert stepKey !in seen;
      if stepKey in seen {
        return;
      }
      seen' := seen + {stepKey};
      path' := path + [step];
      connected' := AddId(connected', FromId(step));
      connected' := AddId(connected', ToId(step));
    }

    method BuildJoinBy(path: seq<Step>, targets: seq<Target>) returns (joinBy: map<string, JoinEntry>)
      ensures joinBy == JoinByOf(path, targets)
    {
      joinBy := map[];
      for i := 0 to |path|
        invariant joinBy == JoinByOf(path[..i], targets)
      {
        TakeNext(path, i);
        joinBy := joinBy[path[i].to.table := EntryOf(path[i], targets)];
      }
      TakeAll(path);
    }

    /** The root and every step's table, keeping first occurrences; in a tree, all of them. */
    method DistinctTables(rootId: Id, path: seq<Step>) returns (ids: seq<Id>)
      requires IsTree(rootId, path)
      ensures ids == TablesOf(rootId, path)
    {
      ids := [rootId];
      for i := 0 to |path|
        invariant ids == TablesOf(rootId, path)[..i + 1]
      {
        var id := ToId(path[i]);
        forall k | 0 <= k < i + 1
          ensures TablesOf(rootId, path)[k] != id
        {
          TreeTablesDistinct(rootId, path, k, i + 1);
        }
        if id !in ids {
          ids := ids + [id];
        }
      }
    }
  }

  predicate AllIn(tables: map<Id, Table>, targets: seq<(Id, Option<string>)>) {
    forall t | t in targets :: t.0 in tables
  }

  /** The targets with their tables. */
  function Resolved(tables: map<Id, Table>, targets: seq<(Id, Option<string>)>): (resolved: seq<Target>)
    requires AllIn(tables, targets)
    ensures |resolved| == |targets|
    ensures forall i | 0 <= i < |targets| :: resolved[i] == Target(tables[targets[i].0], targets[i].1)
  {
    if targets == [] then []
    else
      var last := targets[|targets| - 1];
      Resolved(tables, targets[..|targets| - 1]) + [Target(tables[last.0], last.1)]
  }

  lemma ResolvedReachable(tables: map<Id, Table>, g: Graph, from: Id, targets: seq<(Id, Option<string>)>)
    requires Keyed(tables) && AllIn(tables, targets)
    ensures (forall t | t in Resolved(tables, targets) :: Reachable(g, from, IdOf(t.table))) <==>
            (forall t | t in targets :: Reachable(g, from, t.0))
  {
    forall i | 0 <= i < |targets|
      ensures IdOf(Resolved(tables, targets)[i].table) == targets[i].0
      ensures targets[i] in targets && Resolved(tables, targets)[i] in Resolved(tables, targets)
    {
    }
  }

  /** Column pairs read off two lists of columns; what the second list lacks is undefined. */
  ghost predicate PairsOf(pairs: seq<(string, Option<string>)>, from: seq<string>, to: seq<string>) {
    |pairs| == |from| &&
    forall i | 0 <= i < |pairs| :: pairs[i].0 == from[i] && pairs[i].1 == if i < |to| then Some(to[i]) else None
  }

  /** The foreign key of a table names the target, with its own schema unless it gives another. */
  ghost predicate Names(t: Table, fk: ForeignKey, target: Id) {
    target == (if fk.toSchema != "" then fk.toSchema else if t.schema.Some? then t.schema.value else "public")
              + "." + fk.toTable
  }

  /** A declared foreign key connects the two tables of the step by the columns it pairs: from its
      own table to its target, or the other way round with the columns exchanged. */
  ghost predicate FollowsKey(tables: map<Id, Table>, step: Step) {
    && FromId(step) in tables && ToId(step) in tables && step.pairs != []
    && '.' !in step.from.schema && '.' !in step.to.schema
    && (|| (exists fk | fk in tables[FromId(step)].fks ::
              Names(tables[FromId(step)], fk, ToId(step)) && PairsOf(step.pairs, fk.fromCols, fk.toCols))
        || (exists fk | fk in tables[ToId(step)].fks ::
              Names(tables[ToId(step)], fk, FromId(step)) && PairsOf(step.pairs, fk.toCols, fk.fromCols)))
  }

  ghost predicate AllFollowKeys(tables: map<Id, Table>, steps: seq<Step>) {
    forall i | 0 <= i < |steps| :: FollowsKey(tables, steps[i])
  }

  /** The steps lead from one table to the other, each starting where the one before it ended. */
  ghost predicate Leads(from: Id, steps: seq<Step>, to: Id) {
    if steps == [] then from == to
    else
      var last := steps[|steps| - 1];
      ToId(last) == to && Leads(from, steps[..|steps| - 1], FromId(last))
  }

  lemma EdgePairs(e: Edge)
    ensures PairsOf(ToStep(e).pairs, e.fromCols, e.toCols)
  {
  }

  lemma TargetIsNamed(t: Table, fk: ForeignKey)
    ensures Names(t, fk, TargetId(t, fk))
  {
  }

  lemma SplitSchema(id: Id)
    ensures '.' !in SplitId(id).schema
  {
  }

  lemma DeclaredFollows(tables: map<Id, Table>, e: Edge)
    requires Declared(tables, e) && SoundEdge(e)
    ensures FollowsKey(tables, ToStep(e))
  {
    var fk :| fk in tables[e.from].fks && e == Edge(e.from, TargetId(tables[e.from], fk), fk.fromCols, fk.toCols);
    StepIds(e);
    EdgePairs(e);
    SplitSchema(e.from);
    SplitSchema(e.to);
    TargetIsNamed(tables[e.from], fk);
  }

  lemma ReversedFollows(tables: map<Id, Table>, e: Edge)
    requires Declared(tables, Reverse(e)) && SoundEdge(e)
    ensures FollowsKey(tables, ToStep(e))
  {
    var fk :| fk in tables[e.to].fks && Reverse(e) == Edge(e.to, TargetId(tables[e.to], fk), fk.fromCols, fk.toCols);
    StepIds(e);
    EdgePairs(e);
    SplitSchema(e.from);
    SplitSchema(e.to);
    TargetIsNamed(tables[e.to], fk);
  }

  lemma EdgeFollows(tables: map<Id, Table>, g: Graph, e: Edge)
    requires IsFkGraph(tables, g) && IsEdge(g, e) && SoundEdge(e)
    ensures FollowsKey(tables, ToStep(e))
  {
    assert Known(tables, e);
    if Declared(tables, e) {
      DeclaredFollows(tables, e);
    } else {
      ReversedFollows(tables, e);
    }
  }

  lemma {:induction false} PathLeads(g: Graph, from: Id, es: seq<Edge>, to: Id)
    requires Chain(g, from, es, to) && SoundEdges(es)
    ensures Leads(from, Steps(es), to)
  {
    if es != [] {
      var front, last := es[..|es| - 1], es[|es| - 1];
      PathLeads(g, from, front, last.from);
      StepIds(last);
      assert Steps(es)[..|es| - 1] == Steps(front);
    }
  }

  /** Every step of a path over the graph follows a foreign key. */
  lemma PathFollows(tables: map<Id, Table>, g: Graph, from: Id, es: seq<Edge>, to: Id)
    requires IsFkGraph(tables, g) && Chain(g, from, es, to) && SoundEdges(es)
    ensures AllFollowKeys(tables, Steps(es))
  {
    forall i | 0 <= i < |es|
      ensures FollowsKey(tables, Steps(es)[i])
    {
      ChainLinks(g, from, es, to, i);
      EdgeFollows(tables, g, es[i]);
    }
  }

  lemma StepsFollow(tables: map<Id, Table>, g: Graph, steps: seq<Step>)
    requires IsFkGraph(tables, g) && AllSteps(g, steps)
    ensures AllFollowKeys(tables, steps)
  {
    forall i | 0 <= i < |steps|
      ensures FollowsKey(tables, steps[i])
    {
      assert IsStepOf(g, steps[i]);
      var e :| IsEdge(g, e) && SoundEdge(e) && steps[i] == ToStep(e);
      EdgeFollows(tables, g, e);
    }
  }

  /** Every table of a join over the graph is a table of the graph. */
  lemma StepsInTables(tables: map<Id, Table>, g: Graph, root: Id, steps: seq<Step>)
    requires Keyed(tables) && IsFkGraph(tables, g) && root in tables && AllSteps(g, steps)
    ensures forall id | id in TablesOf(root, steps) :: id in tables
  {
    forall i | 0 <= i < |steps|
      ensures ToId(steps[i]) in tables
    {
      assert IsStepOf(g, steps[i]);
      var e :| IsEdge(g, e) && SoundEdge(e) && steps[i] == ToStep(e);
      StepIds(e);
      assert Known(tables, e);
    }
  }

  function AddId(ids: seq<Id>, id: Id): seq<Id> {
    if id in ids then ids else ids + [id]
  }

  /** A step of the graph: some edge, read as a join step. */
  ghost predicate IsStepOf(g: Graph, step: Step) {
    exists e :: IsEdge(g, e) && SoundEdge(e) && step == ToStep(e)
  }

  ghost predicate AllReachable(g: Graph, rootId: Id, ids: seq<Id>) {
    forall id | id in ids :: Reachable(g, rootId, id)
  }

  predicate AllConnected(targets: seq<Target>, ids: seq<Id>) {
    forall t | t in targets :: IdOf(t.table) in ids
  }

  lemma ConnectedGrows(targets: seq<Target>, i: nat, before: seq<Id>, connected: seq<Id>)
    requires i < |targets| && AllConnected(targets[..i], before)
    requires before <= connected && IdOf(targets[i].table) in connected
    ensures AllConnected(targets[..i + 1], connected)
  {
    TakeNext(targets, i);
    assert forall id | id in before :: id in connected;
  }

  lemma ConnectedReachable(g: Graph, rootId: Id, targets: seq<Target>, connected: seq<Id>)
    requires AllConnected(targets, connected) && AllReachable(g, rootId, connected)
    ensures forall t | t in targets :: Reachable(g, rootId, IdOf(t.table))
  {
    forall t | t in targets
      ensures Reachable(g, rootId, IdOf(t.table))
    {
      assert IdOf(t.table) in connected;
    }
  }

  lemma GrowingStart(g: Graph, rootId: Id)
    ensures Growing(g, rootId, [], [rootId], {})
  {
    assert Chain(g, rootId, [], rootId);
  }

  ghost predicate AllSteps(g: Graph, path: seq<Step>) {
    forall step | step in path :: IsStepOf(g, step)
  }

  predicate KeysOf(seen: set<StepKeys>, path: seq<Step>) {
    forall key | key in seen :: exists step | step in path :: StepKey(step) == key
  }

  /** The state of `join` between two steps: the connected tables are those of a tree. */
  ghost predicate Growing(g: Graph, rootId: Id, path: seq<Step>, connected: seq<Id>, seen: set<StepKeys>) {
    && IsTree(rootId, path)
    && connected == TablesOf(rootId, path)
    && AllReachable(g, rootId, connected)
    && AllSteps(g, path)
    && KeysOf(seen, path)
  }

  lemma LastTable(g: Graph, a: Id, es: seq<Edge>, b: Id)
    requires Chain(g, a, es, b)
    ensures TableAt(a, es, |es|) == b
  {
    if es != [] {
      ChainLinks(g, a, es, b, |es| - 1);
    }
  }

  lemma NextIsFresh(g: Graph, before: seq<Id>, connected: seq<Id>, start: Id, edges: seq<Edge>, target: Id, k: nat)
    requires Nearest(g, before, start, edges, target) && k < |edges| && SoundEdges(edges)
    requires OnlyAdded(connected, before, edges, k)
    requires TableAt(start, edges, k) in connected
    ensures edges[k].from in connected && edges[k].to !in connected && IsEdge(g, edges[k])
    ensures FromId(Steps(edges)[k]) == edges[k].from && ToId(Steps(edges)[k]) == edges[k].to
  {
    ChainLinks(g, start, edges, target, k);
    NearestIsFresh(g, before, start, edges, target, k);
    StepIds(edges[k]);
  }

  lemma KeyIsNew(g: Graph, rootId: Id, path: seq<Step>, connected: seq<Id>, seen: set<StepKeys>, step: Step)
    requires Growing(g, rootId, path, connected, seen) && ToId(step) !in connected
    ensures StepKey(step) !in seen
  {
    forall earlier | earlier in path
      ensures StepKey(earlier) != StepKey(step)
    {
      assert IsStepOf(g, earlier);
      StepOfHasPairs(g, earlier);
      var i :| 0 <= i < |path| && path[i] == earlier;
      assert ToId(earlier) == connected[i + 1];
      if StepKey(earlier) == StepKey(step) {
        SameKeySameTarget(earlier, step);
      }
    }
  }

  lemma StepOfHasPairs(g: Graph, step: Step)
    requires IsStepOf(g, step)
    ensures step.pairs != []
  {
    var e :| IsEdge(g, e) && SoundEdge(e) && step == ToStep(e);
    StepIds(e);
  }

  lemma KeysGrow(seen: set<StepKeys>, path: seq<Step>, step: Step)
    requires KeysOf(seen, path)
    ensures KeysOf(seen + {StepKey(step)}, path + [step])
  {
    assert step in path + [step];
    forall key | key in seen
      ensures exists s | s in path + [step] :: StepKey(s) == key
    {
      var s :| s in path && StepKey(s) == key;
      assert s in path + [step];
    }
  }

  lemma ReachableGrows(g: Graph, rootId: Id, connected: seq<Id>, e: Edge)
    requires AllReachable(g, rootId, connected) && e.from in connected && IsEdge(g, e)
    ensures AllReachable(g, rootId, connected + [e.to])
  {
    assert Reachable(g, rootId, e.from);
    var es :| Chain(g, rootId, es, e.from);
    ChainAppend(g, rootId, es, e);
  }

  lemma GrowingStep(g: Graph, rootId: Id, path: seq<Step>, connected: seq<Id>, seen: set<StepKeys>, e: Edge)
    requires Growing(g, rootId, path, connected, seen)
    requires SoundEdge(e) && IsEdge(g, e) && e.from in connected && e.to !in connected
    ensures Growing(g, rootId, path + [ToStep(e)], connected + [e.to], seen + {StepKey(ToStep(e))})
  {
    StepIds(e);
    TreeGrows(rootId, path, ToStep(e));
    ReachableGrows(g, rootId, connected, e);
    KeysGrow(seen, path, ToStep(e));
    assert IsStepOf(g, ToStep(e));
  }

  /** Besides the tables of `before`, only targets of the first `k` edges are connected. */
  ghost predicate OnlyAdded(connected: seq<Id>, before: seq<Id>, edges: seq<Edge>, k: nat)
    requires k <= |edges|
  {
    forall id | id in connected :: id in before || IsTargetOf(edges, k, id)
  }

  ghost predicate IsTargetOf(edges: seq<Edge>, k: nat, id: Id)
    requires k <= |edges|
  {
    exists j | 0 <= j < k :: edges[j].to == id
  }

  lemma OnlyAddedNext(connected: seq<Id>, before: seq<Id>, edges: seq<Edge>, k: nat)
    requires k < |edges| && OnlyAdded(connected, before, edges, k)
    ensures OnlyAdded(connected + [edges[k].to], before, edges, k + 1)
  {
    forall id | id in connected + [edges[k].to]
      ensures id in before || IsTargetOf(edges, k + 1, id)
    {
      if id != edges[k].to && id !in before {
        assert IsTargetOf(edges, k, id);
      }
    }
  }

  /** `join` in the middle of one nearest path, `k` of whose steps it has attached. */
  ghost predicate Attaching(g: Graph, rootId: Id, path: seq<Step>, connected: seq<Id>, seen: set<StepKeys>,
                            before: seq<Id>, start: Id, edges: seq<Edge>, k: nat)
    requires k <= |edges|
  {
    && Growing(g, rootId, path, connected, seen)
    && before <= connected && TableAt(start, edges, k) in connected
    && OnlyAdded(connected, before, edges, k)
  }

  predicate Prefixed(path: seq<Step>, before: seq<Step>, added: seq<Step>, k: nat) {
    k <= |added| && path == before + added[..k]
  }

  lemma PrefixedNext(path: seq<Step>, before: seq<Step>, added: seq<Step>, k: nat)
    requires Prefixed(path, before, added, k) && k < |added|
    ensures Prefixed(path + [added[k]], before, added, k + 1)
  {
    TakeNext(added, k);
    Regroup(before, added[..k], [added[k]]);
  }

  lemma AttachingStep(g: Graph, rootId: Id, path: seq<Step>, connected: seq<Id>, seen: set<StepKeys>,
                      before: seq<Id>, start: Id, edges: seq<Edge>, target: Id, k: nat)
    requires k < |edges| && Attaching(g, rootId, path, connected, seen, before, start, edges, k)
    requires Nearest(g, before, start, edges, target) && SoundEdges(edges)
    ensures var step := ToStep(edges[k]);
            && StepKey(step) !in seen
            && FromId(step) in connected && ToId(step) !in connected
            && AddId(AddId(connected, FromId(step)), ToId(step)) == connected + [ToId(step)]
            && Attaching(g, rootId, path + [step], connected + [ToId(step)], seen + {StepKey(step)},
                         before, start, edges, k + 1)
  {
    var e := edges[k];
    NextIsFresh(g, before, connected, start, edges, target, k);
    StepIds(e);
    KeyIsNew(g, rootId, path, connected, seen, ToStep(e));
    GrowingStep(g, rootId, path, connected, seen, e);
    OnlyAddedNext(connected, before, edges, k);
  }

  lemma AttachingStart(g: Graph, rootId: Id, path: seq<Step>, connected: seq<Id>, seen: set<StepKeys>,
                       start: Id, edges: seq<Edge>, target: Id)
    requires Growing(g, rootId, path, connected, seen) && Nearest(g, connected, start, edges, target)
    ensures Attaching(g, rootId, path, connected, seen, connected, start, edges, 0)
  {
  }

  /** The path led to its target, so connecting that once more adds nothing. */
  lemma AttachingEnd(g: Graph, rootId: Id, path: seq<Step>, connected: seq<Id>, seen: set<StepKeys>,
                     before: seq<Id>, start: Id, edges: seq<Edge>, target: Id)
    requires Attaching(g, rootId, path, connected, seen, before, start, edges, |edges|)
    requires Nearest(g, before, start, edges, target)
    ensures AddId(connected, target) == connected && target in connected
  {
    LastTable(g, start, edges, target);
  }

  lemma NearestHere(g: Graph, connected: seq<Id>, target: Id)
    requires target in connected
    ensures NearestFound(g, connected, target, Some([]), target, [])
  {
  }

  lemma CompareCandidate(g: Graph, before: seq<Id>, c: Id, target: Id, candidate: Option<seq<Step>>, path: seq<Edge>,
                         best: Option<seq<Step>>, start: Id, edges: seq<Edge>)
    requires NearestFound(g, before, target, best, start, edges)
    requires PathFound(g, c, target, Ok(candidate), path)
    ensures if candidate.Some? && (best.None? || |candidate.value| < |best.value|)
            then NearestFound(g, before + [c], target, candidate, c, path)
            else NearestFound(g, before + [c], target, best, start, edges)
  {
    forall d, other: seq<Edge> | d in before + [c] && Chain(g, d, other, target)
      ensures d in before ==> best.Some? && |edges| <= |other|
      ensures d == c ==> candidate.Some? && |path| <= |other|
    {
      assert Reachable(g, d, target);
    }
  }

  lemma SameEdges(tables: map<Id, Table>, g: Graph, id: Id, done: seq<Id>)
    requires SoundGraph(tables, g) && HasAllKeys(g, tables, done) && id in tables && id !in g
    ensures SoundGraph(tables, g[id := []]) && HasAllKeys(g[id := []], tables, done)
  {
    var h := g[id := []];
    assert forall k :: EdgesOf(h, k) == EdgesOf(g, k);
    forall e | IsEdge(h, e)
      ensures Twinned(h, e) && Known(tables, e)
    {
      assert IsEdge(g, e) && Twinned(g, e) && Known(tables, e);
    }
    forall k | k in done
      ensures k in h && HasKeys(h, tables, k, tables[k].fks)
    {
      assert HasKeys(g, tables, k, tables[k].fks);
    }
  }
}
