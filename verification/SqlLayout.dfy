/** Laws of whole templates: where bound values land and what dialects share. */
module SqlLayout {
  import opened Wrappers
  import opened SqlTemplate
  import opened SqlParts
  import opened SqlSpec

  // ------------------------------------------------------- rows of an insert

  lemma JoinArgs(sep: Item, parts: seq<seq<Item>>, part: seq<Item>)
    requires !sep.Arg?
    ensures Args(Join(sep, parts + [part])) == Args(Join(sep, parts)) + Args(part)
  {
    JoinAppend(sep, parts, part);
    ArgsConcat(Join(sep, parts) + Gap(sep, |parts|), part);
    ArgsConcat(Join(sep, parts), Gap(sep, |parts|));
    assert Args(Gap(sep, |parts|)) == [];
    assert Args(Join(sep, parts)) + [] == Args(Join(sep, parts));
  }

  lemma WrappedArgs(open: Item, inner: seq<Item>, close: Item)
    requires !open.Arg? && !close.Arg?
    ensures Args([open] + inner + [close]) == Args(inner)
  {
    ArgsConcat([open] + inner, [close]);
    ArgsConcat([open], inner);
  }

  /** One row's values for the keys; a missing key binds `nil`. */
  function RowValues(keys: seq<string>, row: Row): (values: seq<Value>)
    ensures |values| == |keys| && forall c | 0 <= c < |keys| :: values[c] == Lookup(row, keys[c])
  {
    if keys == [] then []
    else RowValues(keys[..|keys| - 1], row) + [Lookup(row, keys[|keys| - 1])]
  }

  lemma {:induction false} CellValues(keys: seq<string>, row: Row)
    ensures Args(Join(COMMA, CellParts(keys, row))) == RowValues(keys, row)
  {
    if keys != [] {
      var front, last := keys[..|keys| - 1], keys[|keys| - 1];
      CellValues(front, row);
      JoinArgs(COMMA, CellParts(front, row), [Arg(Lookup(row, last))]);
    }
  }

  lemma TupleValues(keys: seq<string>, row: Row)
    ensures Args(TupleItems(keys, row)) == RowValues(keys, row)
  {
    CellValues(keys, row);
    WrappedArgs(Text("("), Join(COMMA, CellParts(keys, row)), Text(")"));
  }

  /** Where row `r` keeps column `c` in a row-major list of rows of the given width. */
  function Slot(width: nat, r: nat, c: nat): nat {
    Offset(width, r) + c
  }

  function Offset(width: nat, r: nat): nat {
    if r == 0 then 0 else Offset(width, r - 1) + width
  }

  lemma {:induction false} SlotMeans(width: nat, r: nat, c: nat)
    ensures Slot(width, r, c) == r * width + c
  {
    if r > 0 {
      SlotMeans(width, r - 1, c);
    }
  }

  lemma {:induction false} TupleListCount(keys: seq<string>, rows: seq<Row>)
    ensures |Args(TupleList(keys, rows))| == Offset(|keys|, |rows|)
  {
    if rows != [] {
      var front, last := rows[..|rows| - 1], rows[|rows| - 1];
      TupleListCount(keys, front);
      TupleListAppend(keys, rows);
    }
  }

  lemma TupleListAppend(keys: seq<string>, rows: seq<Row>)
    requires rows != []
    ensures Args(TupleList(keys, rows)) ==
            Args(TupleList(keys, rows[..|rows| - 1])) + RowValues(keys, rows[|rows| - 1])
  {
    var front, last := rows[..|rows| - 1], rows[|rows| - 1];
    JoinArgs(COMMA, TupleParts(keys, front), TupleItems(keys, last));
    TupleValues(keys, last);
  }

  /** Row-major order: row `r`'s value for column `c` is the `r * |keys| + c`-th bound value. */
  lemma {:induction false} RowMajor(keys: seq<string>, rows: seq<Row>, r: nat, c: nat)
    requires r < |rows| && c < |keys|
    ensures Slot(|keys|, r, c) < |Args(TupleList(keys, rows))|
    ensures Args(TupleList(keys, rows))[Slot(|keys|, r, c)] == Lookup(rows[r], keys[c])
  {
    var front, last := rows[..|rows| - 1], rows[|rows| - 1];
    var before, row := Args(TupleList(keys, front)), RowValues(keys, last);
    TupleListAppend(keys, rows);
    TupleListCount(keys, front);
    if r < |front| {
      RowMajor(keys, front, r, c);
      AtInFront(before, row, Slot(|keys|, r, c), Lookup(rows[r], keys[c]));
    } else {
      AtBehind(before, row, c, Lookup(rows[r], keys[c]));
    }
    assert At(before + row, Slot(|keys|, r, c), Lookup(rows[r], keys[c]));
  }

  ghost predicate At(values: seq<Value>, slot: nat, value: Value) {
    slot < |values| && values[slot] == value
  }

  lemma AtInFront(a: seq<Value>, b: seq<Value>, slot: nat, value: Value)
    requires At(a, slot, value)
    ensures At(a + b, slot, value)
  {
  }

  lemma AtBehind(a: seq<Value>, b: seq<Value>, slot: nat, value: Value)
    requires At(b, slot, value)
    ensures At(a + b, |a| + slot, value)
  {
  }

  /** The keys an insert binds are declared keys, in declared order, that row 0 has. */
  lemma {:induction false} KeysInDeclared(declared: seq<string>, row: Row, key: string)
    ensures key in KeysIn(declared, row) <==> key in declared && key in row
  {
    if declared != [] {
      KeysInDeclared(declared[..|declared| - 1], row, key);
      assert declared == declared[..|declared| - 1] + [declared[|declared| - 1]];
    }
  }

  lemma {:induction false} NamesBindNothing(columns: OrderedMap, keys: seq<string>)
    ensures Args(ColumnList(columns, keys)) == []
  {
    if keys != [] {
      var front, last := keys[..|keys| - 1], keys[|keys| - 1];
      NamesBindNothing(columns, front);
      JoinArgs(COMMA, NameParts(columns, front), [Name(columns.Sql(last))]);
    }
  }

  lemma InsertArgs(columns: OrderedMap, rows: seq<Row>)
    requires rows != []
    ensures Args(InsertItems(columns, rows)) == Args(TupleList(KeysIn(columns.keys, rows[0]), rows))
  {
    var keys := KeysIn(columns.keys, rows[0]);
    var list, tuples := ColumnList(columns, keys), TupleList(keys, rows);
    ArgsConcat([Text("(")] + list + [Text(") values ")], tuples);
    WrappedArgs(Text("("), list, Text(") values "));
    NamesBindNothing(columns, keys);
  }

  /** In a whole query the layout starts behind the values bound before the insert. */
  lemma InsertLayout(columns: OrderedMap, rows: seq<Row>, before: seq<Item>, after: seq<Item>, r: nat, c: nat)
    requires r < |rows| && c < |KeysIn(columns.keys, rows[0])|
    ensures var keys := KeysIn(columns.keys, rows[0]);
            var values := Args(before + InsertItems(columns, rows) + after);
            var at := |Args(before)| + Slot(|keys|, r, c);
            at < |values| && values[at] == Lookup(rows[r], keys[c])
  {
    var keys := KeysIn(columns.keys, rows[0]);
    var items := InsertItems(columns, rows);
    InsertArgs(columns, rows);
    RowMajor(keys, rows, r, c);
    ArgsAround(before, items, after);
    IndexInMiddle(Args(before), Args(items), Args(after), Slot(|keys|, r, c));
  }

  lemma ArgsAround(before: seq<Item>, items: seq<Item>, after: seq<Item>)
    ensures Args(before + items + after) == Args(before) + Args(items) + Args(after)
  {
    ArgsConcat(before + items, after);
    ArgsConcat(before, items);
  }

  lemma IndexInMiddle(a: seq<Value>, b: seq<Value>, c: seq<Value>, k: nat)
    requires k < |b|
    ensures (a + b + c)[|a| + k] == b[k]
  {
  }

  /** A combined insert is the split column list and value list, glued by literal text. */
  lemma InsertIsSplit(param: string, columns: OrderedMap, params: Params, d: Dialect)
    requires param in params && RowList(params[param]) != []
    ensures var cols := NodeItems(InsertColsNode(param, columns), params, d);
            var vals := NodeItems(InsertValuesNode(param, columns.keys), params, d);
            && cols.Ok? && vals.Ok?
            && NodeItems(InsertNode(param, columns), params, d) ==
               Ok([Text("(")] + cols.value + [Text(") values ")] + vals.value)
            && Args(cols.value) == []
  {
    NamesBindNothing(columns, KeysIn(columns.keys, RowList(params[param])[0]));
  }

  // ------------------------------------------------------------------ upsert

  lemma {:induction false} UpdatesBindNothing(columns: OrderedMap, keys: seq<string>, conflict: set<string>, source: string)
    ensures Args(Join(COMMA, UpdateParts(columns, keys, conflict, source))) == []
  {
    if keys != [] {
      var front, last := keys[..|keys| - 1], keys[|keys| - 1];
      UpdatesBindNothing(columns, front, conflict, source);
      var parts, col := UpdateParts(columns, front, conflict, source), columns.Sql(last);
      if last in conflict {
        assert parts + [] == parts;
      } else {
        JoinArgs(COMMA, parts, [Name(col), Text(source), Name(col)]);
        LiteralTokens([Name(col), Text(source), Name(col)], 0, 0);
      }
    }
  }

  lemma {:induction false} MatchesBindNothing(columns: OrderedMap, table: string, keys: seq<string>)
    ensures Args(Join(Text(" and "), MatchParts(columns, table, keys))) == []
  {
    if keys != [] {
      var front, last := keys[..|keys| - 1], keys[|keys| - 1];
      MatchesBindNothing(columns, table, front);
      JoinArgs(Text(" and "), MatchParts(columns, table, front), MatchPart(table, columns.Sql(last)));
      LiteralTokens(MatchPart(table, columns.Sql(last)), 0, 0);
    }
  }

  lemma {:induction false} SourcesBindNothing(columns: OrderedMap, keys: seq<string>)
    ensures Args(Join(COMMA, SourceParts(columns, keys))) == []
  {
    if keys != [] {
      var front, last := keys[..|keys| - 1], keys[|keys| - 1];
      SourcesBindNothing(columns, front);
      JoinArgs(COMMA, SourceParts(columns, front), [Text("src."), Name(columns.Sql(last))]);
      LiteralTokens([Text("src."), Name(columns.Sql(last))], 0, 0);
    }
  }

  lemma QuietTail(a: seq<Item>, b: seq<Item>)
    requires Args(b) == []
    ensures Args(a + b) == Args(a)
  {
    ArgsConcat(a, b);
  }

  lemma ConflictArgs(node: Node, keys: seq<string>, rows: seq<Row>)
    requires node.UpsertNode?
    ensures Args(UpsertConflict(node, keys, rows)) == Args(TupleList(keys, rows))
  {
    var list, tuples := ColumnList(node.columns, keys), TupleList(keys, rows);
    var a := [Text("(")] + list + [Text(") values ")];
    WrappedArgs(Text("("), list, Text(") values "));
    NamesBindNothing(node.columns, keys);
    ArgsConcat(a, tuples);
    var b := a + tuples + [Text(ON_CONFLICT)];
    QuietTail(a + tuples, [Text(ON_CONFLICT)]);
    NamesBindNothing(node.columns, node.conflictKeys);
    var c := b + ColumnList(node.columns, node.conflictKeys);
    QuietTail(b, ColumnList(node.columns, node.conflictKeys));
    QuietTail(c, [Text(DO_UPDATE)]);
    UpdatesBindNothing(node.columns, keys, ConflictSet(node), " = excluded.");
    QuietTail(c + [Text(DO_UPDATE)], Join(COMMA, UpdateParts(node.columns, keys, ConflictSet(node), " = excluded.")));
  }

  lemma MergeSourceArgs(node: Node, keys: seq<string>, rows: seq<Row>)
    requires node.UpsertNode?
    ensures Args(MergeSource(node, keys, rows)) == Args(TupleList(keys, rows))
  {
    var tuples := TupleList(keys, rows);
    ArgsConcat([Text("using (values ")], tuples);
    var a := [Text("using (values ")] + tuples;
    QuietTail(a, [Text(") as src(")]);
    NamesBindNothing(node.columns, keys);
    var b := a + [Text(") as src(")] + ColumnList(node.columns, keys);
    QuietTail(a + [Text(") as src(")], ColumnList(node.columns, keys));
    QuietTail(b, [Text(") on (")]);
    MatchesBindNothing(node.columns, node.tableName, node.conflictKeys);
    QuietTail(b + [Text(") on (")], Join(Text(" and "), MatchParts(node.columns, node.tableName, node.conflictKeys)));
  }

  lemma MergeActionsArgs(node: Node, keys: seq<string>)
    requires node.UpsertNode?
    ensures Args(MergeActions(node, keys)) == []
  {
    var updates := Join(COMMA, UpdateParts(node.columns, keys, ConflictSet(node), " = src."));
    var names := ColumnList(node.columns, keys);
    var sources := Join(COMMA, SourceParts(node.columns, keys));
    UpdatesBindNothing(node.columns, keys, ConflictSet(node), " = src.");
    NamesBindNothing(node.columns, keys);
    SourcesBindNothing(node.columns, keys);
    QuietChain([Text(WHEN_MATCHED)], updates, [Text(WHEN_NOT_MATCHED)], names);
    QuietChain([Text(WHEN_MATCHED)] + updates + [Text(WHEN_NOT_MATCHED)] + names,
               [Text(") values (")], sources, [Text(")")]);
  }

  lemma QuietChain(a: seq<Item>, b: seq<Item>, c: seq<Item>, d: seq<Item>)
    requires Args(b) == [] && Args(c) == [] && Args(d) == []
    ensures Args(a + b + c + d) == Args(a)
  {
    QuietTail(a, b);
    QuietTail(a + b, c);
    QuietTail(a + b + c, d);
  }

  /** ON CONFLICT and MERGE bind the same values in the same order. */
  lemma UpsertArgs(node: Node, rows: seq<Row>, d: Dialect)
    requires node.UpsertNode? && rows != []
    ensures Args(UpsertItems(node, rows, d)) == Args(TupleList(KeysIn(node.columns.keys, rows[0]), rows))
  {
    var keys := KeysIn(node.columns.keys, rows[0]);
    if d == TransactSql {
      MergeSourceArgs(node, keys, rows);
      MergeActionsArgs(node, keys);
      ArgsConcat(MergeSource(node, keys, rows), MergeActions(node, keys));
    } else {
      ConflictArgs(node, keys, rows);
    }
  }

  // ---------------------------------------------------------------- dialects

  /** No upsert node on the branch the parameters choose. */
  predicate NoUpsert(nodes: seq<Node>, params: Params) {
    forall i | 0 <= i < |nodes| :: NoUpsertIn(nodes[i], params)
  }

  predicate NoUpsertIn(node: Node, params: Params) {
    match node
    case UpsertNode(_, _, _, _) => false
    case WhenNode(param, negate, onTrue, onFalse) =>
      if IsPresent(params, param) != negate then NoUpsert(onTrue, params)
      else NoUpsert(onFalse, params)
    case _ => true
  }

  /** No node on the branch the parameters choose that Transact-SQL refuses. */
  predicate NoRefusal(nodes: seq<Node>, params: Params) {
    forall i | 0 <= i < |nodes| :: NoRefusalIn(nodes[i], params)
  }

  predicate NoRefusalIn(node: Node, params: Params) {
    match node
    case TextOnlyNode(_, refuses) => !refuses(params)
    case WhenNode(param, negate, onTrue, onFalse) =>
      if IsPresent(params, param) != negate then NoRefusal(onTrue, params)
      else NoRefusal(onFalse, params)
    case _ => true
  }

  /** The branch a `when` takes. */
  function Chosen(node: Node, params: Params): seq<Node>
    requires node.WhenNode?
  {
    if IsPresent(params, node.param) != node.negate then node.onTrue else node.onFalse
  }

  ghost predicate SameIfBoth(x: ItemsResult, y: ItemsResult) {
    x.Ok? && y.Ok? ==> x == y
  }

  ghost predicate SameFailure(x: ItemsResult, y: ItemsResult) {
    (x.Ok? <==> y.Ok?) && (x.Err? ==> x == y)
  }

  lemma SameNodeItems(node: Node, params: Params, d: Dialect, e: Dialect)
    requires NoUpsertIn(node, params)
    requires node.WhenNode? ==>
               SameIfBoth(TemplateItems(Chosen(node, params), params, d), TemplateItems(Chosen(node, params), params, e))
    ensures SameIfBoth(NodeItems(node, params, d), NodeItems(node, params, e))
  {
  }

  lemma SameNodeErrors(node: Node, params: Params, d: Dialect, e: Dialect)
    requires NoRefusalIn(node, params)
    requires node.WhenNode? ==>
               SameFailure(TemplateItems(Chosen(node, params), params, d), TemplateItems(Chosen(node, params), params, e))
    ensures SameFailure(NodeItems(node, params, d), NodeItems(node, params, e))
  {
  }

  /** Outside upserts, dialects that both succeed emit the same fragments: nothing differs but
      the spelling of placeholders. */
  lemma {:induction false} SameItems(nodes: seq<Node>, params: Params, d: Dialect, e: Dialect)
    requires NoUpsert(nodes, params)
    ensures SameIfBoth(TemplateItems(nodes, params, d), TemplateItems(nodes, params, e))
    decreases nodes
  {
    if nodes != [] {
      if nodes[0].WhenNode? {
        SameItems(Chosen(nodes[0], params), params, d, e);
      }
      SameNodeItems(nodes[0], params, d, e);
      SameItems(nodes[1..], params, d, e);
    }
  }

  /** A template fails in both dialects, with the same error, or in neither, unless it holds a
      frame that Transact-SQL does not know. */
  lemma {:induction false} SameErrors(nodes: seq<Node>, params: Params, d: Dialect, e: Dialect)
    requires NoRefusal(nodes, params)
    ensures SameFailure(TemplateItems(nodes, params, d), TemplateItems(nodes, params, e))
    decreases nodes
  {
    if nodes != [] {
      if nodes[0].WhenNode? {
        SameErrors(Chosen(nodes[0], params), params, d, e);
      }
      SameNodeErrors(nodes[0], params, d, e);
      SameErrors(nodes[1..], params, d, e);
    }
  }

  ghost predicate SameArgs(x: ItemsResult, y: ItemsResult) {
    x.Ok? && y.Ok? ==> Args(x.value) == Args(y.value)
  }

  /** Dialects that both succeed bind the same values in the same order, upserts included. */
  lemma {:induction false} SameValues(nodes: seq<Node>, params: Params, d: Dialect, e: Dialect)
    ensures SameArgs(TemplateItems(nodes, params, d), TemplateItems(nodes, params, e))
    decreases nodes
  {
    if nodes != [] {
      SameNodeValues(nodes[0], params, d, e);
      SameValues(nodes[1..], params, d, e);
      SameArgsConcat(NodeItems(nodes[0], params, d), TemplateItems(nodes[1..], params, d),
                     NodeItems(nodes[0], params, e), TemplateItems(nodes[1..], params, e));
    }
  }

  lemma {:induction false} SameNodeValues(node: Node, params: Params, d: Dialect, e: Dialect)
    ensures SameArgs(NodeItems(node, params, d), NodeItems(node, params, e))
    decreases node
  {
    if node.WhenNode? {
      SameValues(Chosen(node, params), params, d, e);
    } else if node.UpsertNode? {
      SameUpsertValues(node, params, d, e);
    }
  }

  lemma SameUpsertValues(node: Node, params: Params, d: Dialect, e: Dialect)
    requires node.UpsertNode?
    ensures SameArgs(NodeItems(node, params, d), NodeItems(node, params, e))
  {
    var rows := RowsFor(params, node.param);
    if rows.Ok? && rows.value != [] {
      UpsertArgs(node, rows.value, d);
      UpsertArgs(node, rows.value, e);
    }
  }

  lemma SameArgsConcat(x: ItemsResult, xs: ItemsResult, y: ItemsResult, ys: ItemsResult)
    requires SameArgs(x, y) && SameArgs(xs, ys)
    ensures x.Ok? && xs.Ok? && y.Ok? && ys.Ok? ==> Args(x.value + xs.value) == Args(y.value + ys.value)
  {
    if x.Ok? && xs.Ok? && y.Ok? && ys.Ok? {
      ArgsConcat(x.value, xs.value);
      ArgsConcat(y.value, ys.value);
    }
  }
}
