/** The Go query builder: a placeholder counter and two growing slices. */
module SqlBuilder {
  import opened Wrappers
  import opened SqlTemplate
  import D = SqlDrivers
  import opened SqlParts
  import opened SqlSpec
  import opened SqlJoins
  import Strings
  import opened Seqs

  datatype Status = Done | Failed(error: Error)

  /** The outcome of a build step next to the items the specification names. */
  ghost predicate Adds(status: Status, before: seq<Item>, after: seq<Item>, spec: ItemsResult) {
    match spec
    case Ok(items) => status == Done && after == before + items
    case Err(e) => status == Failed(e)
  }

  datatype BuildResult = BuildResult(text: string, values: seq<Value>)

  class SqlBuilder {
    const dialect: Dialect
    var paramIndex: nat
    var sql: seq<Token>
    var values: seq<Value>
    ghost var items: seq<Item>  // the output with every value in place

    /** The counter, the values and the numbered text are all read off the same items. */
    ghost predicate Valid()
      reads this
    {
      && paramIndex == |values|
      && values == Args(items)
      && sql == Number(items, 0)
    }

    constructor (dialect: Dialect)
      ensures Valid() && this.dialect == dialect && items == []
    {
      this.dialect := dialect;
      paramIndex, sql, values, items := 0, [], [], [];
    }

    method FormatParam() returns (token: Token)
      modifies this`paramIndex
      ensures token == Arg(old(paramIndex)) && paramIndex == old(paramIndex) + 1
    {
      var index := paramIndex;
      paramIndex := paramIndex + 1;
      token := Arg(index);
    }

    /** `append(*sql, ...)` of literal fragments. */
    method Write(part: seq<Item>)
      requires Valid() && Literal(part)
      modifies this
      ensures Valid() && items == old(items) + part
    {
      LiteralAppend(items, part);
      sql := sql + Number(part, 0);
      items := items + part;
    }

    /** `append(*sql, b.formatParam())` followed by `append(*values, v)`. */
    method Bind(value: Value)
      requires Valid()
      modifies this
      ensures Valid() && items == old(items) + [Arg(value)]
    {
      NumberConcat(items, [Arg(value)], 0);
      ArgsConcat(items, [Arg(value)]);
      var token := FormatParam();
      sql := sql + [token];
      values := values + [value];
      items := items + [Arg(value)];
    }

    /** Writes the separator in front of every part but the first. */
    method Separate(sep: Item, emitted: nat)
      requires Valid() && !sep.Arg?
      modifies this
      ensures Valid() && items == old(items) + Gap(sep, emitted)
    {
      if emitted > 0 {
        Write([sep]);
      }
    }

    // -------------------------------------------------------------- build

    /** The text is that of some fragments in which the database's driver finds, with the value list,
        exactly the items the template stands for. */
    method Build(template: seq<Node>, params: Params)
      returns (r: Result<BuildResult, Error>, ghost written: seq<D.Written>)
      modifies this
      ensures Valid()
      ensures match TemplateItems(template, params, dialect)
              case Ok(all) =>
                && r.Ok? && r.value.text == D.Joined(written)
                && D.Run(D.PlacingOf(dialect), written, r.value.values, 0) == Some(all)
                && r.value.values == Args(all) && items == all
              case Err(e) => r == Err(e)
    {
      paramIndex, sql, values, items := 0, [], [], [];
      var status := BuildNodes(template, params);
      if status.Failed? {
        return Err(status.error), [];
      }
      AfterNothing(TemplateItems(template, params, dialect));
      D.DriverMeetsValues(dialect, items);
      written := D.SpellAll(D.SpellingOf(dialect), sql);
      r := Ok(BuildResult(D.Joined(D.SpellAll(D.SpellingOf(dialect), sql)), values));
    }

    method BuildNodes(nodes: seq<Node>, params: Params) returns (status: Status)
      requires Valid()
      modifies this
      ensures Valid() && Adds(status, old(items), items, TemplateItems(nodes, params, dialect))
      decreases nodes
    {
      ghost var start := items;
      ghost var done: seq<Item> := [];
      assert nodes[0..] == nodes;
      AfterNothing(TemplateItems(nodes, params, dialect));
      for i := 0 to |nodes|
        invariant Valid() && items == start + done
        invariant TemplateItems(nodes, params, dialect) == After(done, TemplateItems(nodes[i..], params, dialect))
      {
        ghost var before := items;
        status := BuildNode(nodes[i], params);
        ghost var spec := NodeItems(nodes[i], params, dialect);
        assert nodes[i..][1..] == nodes[i + 1..];
        if status.Failed? {
          assert TemplateItems(nodes[i..], params, dialect) == Err(status.error);
          return;
        }
        AfterAssociative(done, spec.value, TemplateItems(nodes[i + 1..], params, dialect));
        done := done + spec.value;
        assert start + (done[..|done| - |spec.value|] + spec.value) == before + spec.value;
      }
      assert done + [] == done;
      status := Done;
    }

    method BuildNode(node: Node, params: Params) returns (status: Status)
      requires Valid()
      modifies this
      ensures Valid() && Adds(status, old(items), items, NodeItems(node, params, dialect))
      decreases node
    {
      status := Done;
      match node
      case TextNode(text) => Write([Text(text)]);
      case ParamNode(name, isArray) => BuildParam(name, isArray, params);
      case ValueNode(value) => Bind(value);
      case WhenNode(param, negate, onTrue, onFalse) =>
        var isPresent := param in params && params[param] != Nil && params[param] != Bool(false);
        var flag := if negate then !isPresent else isPresent;
        if flag {
          status := BuildNodes(onTrue, params);
        } else if |onFalse| > 0 {
          status := BuildNodes(onFalse, params);
        } else {
          assert items + [] == items;
        }
      case SetNode(_, _) => status := BuildSet(node, params);
      case InsertNode(param, _) => status := BuildRows(node, param, params);
      case InsertColsNode(param, _) => status := BuildRows(node, param, params);
      case InsertValuesNode(param, _) => status := BuildRows(node, param, params);
      case FilterNode(_, _, _, _) => status := BuildFilter(node, params);
      case PaginationNode => BuildPagination(params);
      case UpsertNode(param, _, _, _) => status := BuildRows(node, param, params);
      case JoinByNode(_, _, _) => status := BuildJoinBy(node, params);
      case TextOnlyNode(emit, refuses) =>
        if dialect == TransactSql && refuses(params) {
          return Failed(NotInTransactSql);
        }
        match emit(params) {
          case Ok(text) => Write([Text(text)]);
          case Err(reason) => status := Failed(TextNodeFailed(reason));
        }
    }

    /** The nodes that write the rows of a parameter: no parameter, no output. */
    method BuildRows(node: Node, param: string, params: Params) returns (status: Status)
      requires Valid()
      requires (node.InsertNode? || node.InsertColsNode? || node.InsertValuesNode? || node.UpsertNode?) && node.param == param
      modifies this
      ensures Valid() && Adds(status, old(items), items, NodeItems(node, params, dialect))
    {
      var rows := CoerceRows(param, params);
      if rows.Err? {
        return Failed(rows.error);
      }
      if rows.value == [] {
        assert items + [] == items;
        return Done;
      }
      match node {
        case InsertNode(_, columns) => BuildInsert(columns, rows.value);
        case InsertColsNode(_, columns) =>
          var keys := CanonicalKeys(columns.keys, rows.value[0]);
          WriteColumns(columns, keys);
        case InsertValuesNode(_, declared) =>
          var keys := CanonicalKeys(declared, rows.value[0]);
          WriteTuples(keys, rows.value);
        case UpsertNode(_, _, _, _) => BuildUpsert(node, rows.value);
      }
      status := Done;
    }

    method BuildParam(name: string, isArray: bool, params: Params)
      requires Valid()
      modifies this
      ensures Valid() && items == old(items) + ParamItems(name, isArray, params)
    {
      var value := if name in params then params[name] else Nil;
      if isArray && value.List? {
        BindAll(value.items);
      } else {
        Bind(value);
      }
    }

    method BindAll(list: seq<Value>)
      requires Valid()
      modifies this
      ensures Valid() && items == old(items) + Join(COMMA, ArgParts(list))
    {
      ghost var start := items;
      assert items == start + Join(COMMA, ArgParts(list[..0]));
      for i := 0 to |list|
        invariant Valid() && items == start + Join(COMMA, ArgParts(list[..i]))
      {
        Separate(COMMA, i);
        Bind(list[i]);
        TakeNext(list, i);
        Grow(start, COMMA, ArgParts(list[..i]), [Arg(list[i])], items);
      }
      TakeAll(list);
    }

    method BuildPagination(params: Params)
      requires Valid()
      modifies this
      ensures Valid() && items == old(items) + PaginationItems(params)
    {
      ghost var start := items;
      var hasLimit := "limit" in params && params["limit"] != Nil;
      var hasOffset := "offset" in params && params["offset"] != Nil;
      if hasLimit {
        Write([Text("limit ")]);
        Bind(params["limit"]);
      }
      if hasOffset {
        if hasLimit {
          Write([Text(" ")]);
        }
        Write([Text("offset ")]);
        Bind(params["offset"]);
      }
      assert items == start + PaginationItems(params);
    }

    method BuildSet(node: Node, params: Params) returns (status: Status)
      requires Valid() && node.SetNode?
      modifies this
      ensures Valid() && Adds(status, old(items), items, SetItems(node, params))
    {
      if node.param !in params {
        return Failed(SetNeedsObject);
      }
      var order: seq<string>, given: Row;
      match params[node.param] {
        case Dict(keys, entries) =>
          if |keys| == 0 {
            return Failed(SetNeedsColumn);
          }
          order, given := keys, entries;
        case Map(m) =>
          if |m| == 0 {
            return Failed(SetNeedsColumn);
          }
          order, given := node.columns.keys, m;
        case _ =>
          return Failed(SetNeedsObject);
      }
      ghost var start := items;
      Write([Text("set ")]);
      WriteAssignments(node.columns, order, given);
      Regroup(start, [Text("set ")], Join(COMMA, SetParts(node.columns, order, given)));
      status := Done;
    }

    method WriteAssignments(columns: OrderedMap, order: seq<string>, given: Row)
      requires Valid()
      modifies this
      ensures Valid() && items == old(items) + Join(COMMA, SetParts(columns, order, given))
    {
      ghost var start := items;
      var emitted := 0;
      assert items == start + Join(COMMA, SetParts(columns, order[..0], given));
      for i := 0 to |order|
        invariant Valid()
        invariant emitted == |SetParts(columns, order[..i], given)|
        invariant items == start + Join(COMMA, SetParts(columns, order[..i], given))
      {
        var key := order[i];
        ghost var parts := SetParts(columns, order[..i], given);
        TakeNext(order, i);
        if key in given && key in columns.values {
          Separate(COMMA, emitted);
          WriteAssignment(columns.values[key], given[key]);
          emitted := emitted + 1;
          Grow(start, COMMA, parts, SetPart(columns.values[key], given[key]), items);
        } else {
          assert parts + [] == parts;
        }
      }
      TakeAll(order);
    }

    method WriteAssignment(colSql: string, value: Value)
      requires Valid()
      modifies this
      ensures Valid() && items == old(items) + SetPart(colSql, value)
    {
      ghost var start := items;
      Write([Name(colSql), Text(" = ")]);
      Bind(value);
      Regroup(start, [Name(colSql), Text(" = ")], [Arg(value)]);
    }

    // ---------------------------------------------------- rows and tuples

    method CoerceRows(param: string, params: Params) returns (r: Result<seq<Row>, Error>)
      ensures r == RowsFor(params, param)
    {
      if param !in params {
        return Ok([]);
      }
      var rows: seq<Row> := [];
      match params[param] {
        case Rows(given) =>
          rows := given;
        case List(list) =>
          for i := 0 to |list|
            invariant rows == RowsIn(list[..i])
          {
            TakeNext(list, i);
            match list[i] {
              case Map(m) => rows := rows + [m];
              case Dict(_, entries) => rows := rows + [entries];
              case _ =>
            }
          }
          TakeAll(list);
        case _ =>
      }
      if |rows| == 0 {
        return Err(NeedsRows);
      }
      r := Ok(rows);
    }

    method CanonicalKeys(declared: seq<string>, first: Row) returns (keys: seq<string>)
      ensures keys == KeysIn(declared, first)
    {
      keys := [];
      for i := 0 to |declared|
        invariant keys == KeysIn(declared[..i], first)
      {
        TakeNext(declared, i);
        if declared[i] in first {
          keys := keys + [declared[i]];
        }
      }
      TakeAll(declared);
    }

    method WriteColumns(columns: OrderedMap, keys: seq<string>)
      requires Valid()
      modifies this
      ensures Valid() && items == old(items) + ColumnList(columns, keys)
    {
      ghost var start := items;
      assert items == start + Join(COMMA, NameParts(columns, keys[..0]));
      for i := 0 to |keys|
        invariant Valid() && items == start + Join(COMMA, NameParts(columns, keys[..i]))
      {
        Separate(COMMA, i);
        Write([Name(columns.Sql(keys[i]))]);
        TakeNext(keys, i);
        Grow(start, COMMA, NameParts(columns, keys[..i]), [Name(columns.Sql(keys[i]))], items);
      }
      TakeAll(keys);
    }

    method WriteCells(keys: seq<string>, row: Row)
      requires Valid()
      modifies this
      ensures Valid() && items == old(items) + Join(COMMA, CellParts(keys, row))
    {
      ghost var start := items;
      assert items == start + Join(COMMA, CellParts(keys[..0], row));
      for i := 0 to |keys|
        invariant Valid() && items == start + Join(COMMA, CellParts(keys[..i], row))
      {
        Separate(COMMA, i);
        Bind(Lookup(row, keys[i]));
        TakeNext(keys, i);
        Grow(start, COMMA, CellParts(keys[..i], row), [Arg(Lookup(row, keys[i]))], items);
      }
      TakeAll(keys);
    }

    method WriteTuple(keys: seq<string>, row: Row)
      requires Valid()
      modifies this
      ensures Valid() && items == old(items) + TupleItems(keys, row)
    {
      ghost var start := items;
      ghost var cells := Join(COMMA, CellParts(keys, row));
      Write([Text("(")]);
      WriteCells(keys, row);
      Regroup(start, [Text("(")], cells);
      Write([Text(")")]);
      Regroup(start, [Text("(")] + cells, [Text(")")]);
    }

    method WriteTuples(keys: seq<string>, rows: seq<Row>)
      requires Valid()
      modifies this
      ensures Valid() && items == old(items) + TupleList(keys, rows)
    {
      ghost var start := items;
      assert items == start + Join(COMMA, TupleParts(keys, rows[..0]));
      for r := 0 to |rows|
        invariant Valid() && items == start + Join(COMMA, TupleParts(keys, rows[..r]))
      {
        Separate(COMMA, r);
        WriteTuple(keys, rows[r]);
        TakeNext(rows, r);
        Grow(start, COMMA, TupleParts(keys, rows[..r]), TupleItems(keys, rows[r]), items);
      }
      TakeAll(rows);
    }

    method BuildInsert(columns: OrderedMap, rows: seq<Row>)
      requires Valid() && rows != []
      modifies this
      ensures Valid() && items == old(items) + InsertItems(columns, rows)
    {
      ghost var start := items;
      var keys := CanonicalKeys(columns.keys, rows[0]);
      Write([Text("(")]);
      ghost var acc: seq<Item> := [Text("(")];
      WriteColumns(columns, keys);
      Regroup(start, acc, ColumnList(columns, keys));
      acc := acc + ColumnList(columns, keys);
      Write([Text(") values ")]);
      Regroup(start, acc, [Text(") values ")]);
      acc := acc + [Text(") values ")];
      WriteTuples(keys, rows);
      Regroup(start, acc, TupleList(keys, rows));
      acc := acc + TupleList(keys, rows);
    }

    // -------------------------------------------------------------- upsert

    method BuildUpsert(node: Node, rows: seq<Row>)
      requires Valid() && node.UpsertNode? && rows != []
      modifies this
      ensures Valid() && items == old(items) + UpsertItems(node, rows, dialect)
    {
      var keys := CanonicalKeys(node.columns.keys, rows[0]);
      if dialect == TransactSql {
        BuildUpsertMssql(node, keys, rows);
      } else {
        BuildUpsertPgSqlite(node, keys, rows);
      }
    }

    method WriteUpdates(columns: OrderedMap, keys: seq<string>, conflict: set<string>, source: string)
      requires Valid()
      modifies this
      ensures Valid() && items == old(items) + Join(COMMA, UpdateParts(columns, keys, conflict, source))
    {
      ghost var start := items;
      var emitted := 0;
      assert items == start + Join(COMMA, UpdateParts(columns, keys[..0], conflict, source));
      for i := 0 to |keys|
        invariant Valid()
        invariant emitted == |UpdateParts(columns, keys[..i], conflict, source)|
        invariant items == start + Join(COMMA, UpdateParts(columns, keys[..i], conflict, source))
      {
        var key := keys[i];
        ghost var parts := UpdateParts(columns, keys[..i], conflict, source);
        TakeNext(keys, i);
        if key in conflict {
          assert parts + [] == parts;
        } else {
          Separate(COMMA, emitted);
          var col := columns.Sql(key);
          Write([Name(col), Text(source), Name(col)]);
          emitted := emitted + 1;
          Grow(start, COMMA, parts, [Name(col), Text(source), Name(col)], items);
        }
      }
      TakeAll(keys);
    }

    method BuildUpsertPgSqlite(node: Node, keys: seq<string>, rows: seq<Row>)
      requires Valid() && node.UpsertNode?
      modifies this
      ensures Valid() && items == old(items) + UpsertConflict(node, keys, rows)
    {
      ghost var start := items;
      Write([Text("(")]);
      ghost var acc: seq<Item> := [Text("(")];
      WriteColumns(node.columns, keys);
      Regroup(start, acc, ColumnList(node.columns, keys));
      acc := acc + ColumnList(node.columns, keys);
      Write([Text(") values ")]);
      Regroup(start, acc, [Text(") values ")]);
      acc := acc + [Text(") values ")];
      WriteTuples(keys, rows);
      Regroup(start, acc, TupleList(keys, rows));
      acc := acc + TupleList(keys, rows);
      Write([Text(ON_CONFLICT)]);
      Regroup(start, acc, [Text(ON_CONFLICT)]);
      acc := acc + [Text(ON_CONFLICT)];
      WriteColumns(node.columns, node.conflictKeys);
      Regroup(start, acc, ColumnList(node.columns, node.conflictKeys));
      acc := acc + ColumnList(node.columns, node.conflictKeys);
      Write([Text(DO_UPDATE)]);
      Regroup(start, acc, [Text(DO_UPDATE)]);
      acc := acc + [Text(DO_UPDATE)];
      WriteUpdates(node.columns, keys, ConflictSet(node), " = excluded.");
      Regroup(start, acc, Join(COMMA, UpdateParts(node.columns, keys, ConflictSet(node), " = excluded.")));
      acc := acc + Join(COMMA, UpdateParts(node.columns, keys, ConflictSet(node), " = excluded."));
    }

    method WriteMatches(columns: OrderedMap, table: string, keys: seq<string>)
      requires Valid()
      modifies this
      ensures Valid() && items == old(items) + Join(Text(" and "), MatchParts(columns, table, keys))
    {
      ghost var start := items;
      assert items == start + Join(Text(" and "), MatchParts(columns, table, keys[..0]));
      for i := 0 to |keys|
        invariant Valid() && items == start + Join(Text(" and "), MatchParts(columns, table, keys[..i]))
      {
        Separate(Text(" and "), i);
        var col := columns.Sql(keys[i]);
        Write(MatchPart(table, col));
        TakeNext(keys, i);
        Grow(start, Text(" and "), MatchParts(columns, table, keys[..i]), MatchPart(table, col), items);
      }
      TakeAll(keys);
    }

    method WriteSources(columns: OrderedMap, keys: seq<string>)
      requires Valid()
      modifies this
      ensures Valid() && items == old(items) + Join(COMMA, SourceParts(columns, keys))
    {
      ghost var start := items;
      assert items == start + Join(COMMA, SourceParts(columns, keys[..0]));
      for i := 0 to |keys|
        invariant Valid() && items == start + Join(COMMA, SourceParts(columns, keys[..i]))
      {
        Separate(COMMA, i);
        Write([Text("src."), Name(columns.Sql(keys[i]))]);
        TakeNext(keys, i);
        Grow(start, COMMA, SourceParts(columns, keys[..i]), [Text("src."), Name(columns.Sql(keys[i]))], items);
      }
      TakeAll(keys);
    }

    method BuildUpsertMssql(node: Node, keys: seq<string>, rows: seq<Row>)
      requires Valid() && node.UpsertNode?
      modifies this
      ensures Valid() && items == old(items) + UpsertMerge(node, keys, rows)
    {
      ghost var start := items;
      WriteMergeSource(node, keys, rows);
      WriteMergeActions(node, keys);
      Regroup(start, MergeSource(node, keys, rows), MergeActions(node, keys));
    }

    method WriteMergeSource(node: Node, keys: seq<string>, rows: seq<Row>)
      requires Valid() && node.UpsertNode?
      modifies this
      ensures Valid() && items == old(items) + MergeSource(node, keys, rows)
    {
      ghost var start := items;
      Write([Text("using (values ")]);
      ghost var acc: seq<Item> := [Text("using (values ")];
      WriteTuples(keys, rows);
      Regroup(start, acc, TupleList(keys, rows));
      acc := acc + TupleList(keys, rows);
      Write([Text(") as src(")]);
      Regroup(start, acc, [Text(") as src(")]);
      acc := acc + [Text(") as src(")];
      WriteColumns(node.columns, keys);
      Regroup(start, acc, ColumnList(node.columns, keys));
      acc := acc + ColumnList(node.columns, keys);
      Write([Text(") on (")]);
      Regroup(start, acc, [Text(") on (")]);
      acc := acc + [Text(") on (")];
      WriteMatches(node.columns, node.tableName, node.conflictKeys);
      Regroup(start, acc, Join(Text(" and "), MatchParts(node.columns, node.tableName, node.conflictKeys)));
      acc := acc + Join(Text(" and "), MatchParts(node.columns, node.tableName, node.conflictKeys));
    }

    method WriteMergeActions(node: Node, keys: seq<string>)
      requires Valid() && node.UpsertNode?
      modifies this
      ensures Valid() && items == old(items) + MergeActions(node, keys)
    {
      ghost var start := items;
      Write([Text(WHEN_MATCHED)]);
      ghost var acc: seq<Item> := [Text(WHEN_MATCHED)];
      WriteUpdates(node.columns, keys, ConflictSet(node), " = src.");
      Regroup(start, acc, Join(COMMA, UpdateParts(node.columns, keys, ConflictSet(node), " = src.")));
      acc := acc + Join(COMMA, UpdateParts(node.columns, keys, ConflictSet(node), " = src."));
      Write([Text(WHEN_NOT_MATCHED)]);
      Regroup(start, acc, [Text(WHEN_NOT_MATCHED)]);
      acc := acc + [Text(WHEN_NOT_MATCHED)];
      WriteColumns(node.columns, keys);
      Regroup(start, acc, ColumnList(node.columns, keys));
      acc := acc + ColumnList(node.columns, keys);
      Write([Text(") values (")]);
      Regroup(start, acc, [Text(") values (")]);
      acc := acc + [Text(") values (")];
      WriteSources(node.columns, keys);
      Regroup(start, acc, Join(COMMA, SourceParts(node.columns, keys)));
      acc := acc + Join(COMMA, SourceParts(node.columns, keys));
      Write([Text(")")]);
      Regroup(start, acc, [Text(")")]);
      acc := acc + [Text(")")];
    }

    // -------------------------------------------------------------- joins

    method BuildJoinBy(node: Node, params: Params) returns (status: Status)
      requires Valid() && node.JoinByNode?
      modifies this
      ensures Valid() && Adds(status, old(items), items, JoinByItems(node, params))
    {
      ghost var start := items;
      var value := Lookup(params, node.param);
      var aliases := OrderedAliases(value);
      ghost var clauses: seq<JoinClause> := [];
      status := Done;
      for i := 0 to |aliases|
        invariant Valid() && status == Done && items == start + AllItems(clauses)
        invariant Clauses(node, value, aliases[..i]) == Ok(clauses)
      {
        TakeNext(aliases, i);
        var entry := EntryOf(value, aliases[i]);
        if entry.None? {
          continue;
        }
        status := WriteJoin(node, aliases[i], entry.value);
        if status.Failed? {
          ClausesFail(node, value, aliases, i + 1);
          return;
        }
        ghost var clause := ClauseOf(node, aliases[i], entry.value).value;
        Regroup(start, AllItems(clauses), ClauseItems(clause));
        AllItemsNext(clauses, clause);
        clauses := clauses + [clause];
      }
      TakeAll(aliases);
    }

    method OrderedAliases(value: Value) returns (aliases: seq<string>)
      ensures aliases == Aliases(value)
    {
      match value {
        case Dict(order, _) => aliases := order;
        case Map(m) => aliases := Strings.SortKeys(m.Keys);
        case _ => aliases := [];
      }
    }

    /** One turn of the loop in `buildJoinBy`. */
    method WriteJoin(node: Node, alias: string, entry: Row) returns (status: Status)
      requires Valid() && node.JoinByNode?
      modifies this
      ensures Valid()
      ensures match ClauseOf(node, alias, entry)
              case Ok(clause) => status == Done && items == old(items) + ClauseItems(clause)
              case Err(e) => status == Failed(InvalidJoin(e))
    {
      ghost var start := items;
      if alias !in node.joinMap {
        return Failed(InvalidJoin(UnknownAlias));
      }
      var tableDef := node.joinMap[alias];
      var joinType := JoinType(node, alias, entry);
      var keyword := Keyword(joinType);
      if keyword.Err? {
        return Failed(InvalidJoin(keyword.error));
      }
      var head := [Text(" " + keyword.value + " " + QualifiedTable(tableDef) + " as " + AliasText(tableDef.columns, alias))];
      Write(head);
      if joinType == "cross" {
        assert head + OnItems([]) == head;
        return Done;
      }
      if "on" !in entry {
        return Failed(InvalidJoin(NeedsOn));
      }
      if !entry["on"].List? {
        return Failed(InvalidJoin(OnMustBeList));
      }
      if entry["on"].items == [] {
        return Failed(InvalidJoin(OnNeedsCondition));
      }
      Write([ON]);
      status := WriteOn(node.joinMap, entry["on"].items);
      if status == Done {
        ghost var on := ConditionsOf(entry["on"].items, node.joinMap).value;
        Regroup(start + head, [ON], Join(AND, OnParts(on)));
        Regroup(start, head, OnItems(on));
      }
    }

    method WriteOnClause(joinMap: map<string, JoinTable>, condition: Value, i: nat, ghost start: seq<Item>,
                         ghost on: seq<OnClause>)
      returns (status: Status)
      requires Valid() && i == |on| && Wrote(items, start, on)
      modifies this
      ensures Valid()
      ensures match ConditionOf(condition, joinMap)
              case Ok(clause) => status == Done && Wrote(items, start, on + [clause])
              case Err(e) => status == Failed(InvalidJoin(e))
    {
      Separate(AND, i);
      var clause := ConditionOf(condition, joinMap);
      if clause.Err? {
        return Failed(InvalidJoin(clause.error));
      }
      var part := OnPart(clause.value);
      Write(part);
      Grow(start, AND, OnParts(on), part, items);
      OnPartsNext(on, clause.value);
      status := Done;
    }

    method WriteOn(joinMap: map<string, JoinTable>, conditions: seq<Value>) returns (status: Status)
      requires Valid()
      modifies this
      ensures Valid()
      ensures match ConditionsOf(conditions, joinMap)
              case Ok(on) => status == Done && items == old(items) + Join(AND, OnParts(on)) && |on| == |conditions|
              case Err(e) => status == Failed(InvalidJoin(e))
    {
      ghost var start := items;
      ghost var on: seq<OnClause> := [];
      assert Wrote(items, start, on);
      for i := 0 to |conditions|
        invariant Valid() && |on| == i && Wrote(items, start, on)
        invariant ConditionsOf(conditions[..i], joinMap) == Ok(on)
      {
        ConditionsNext(conditions, joinMap, i, on);
        status := WriteOnClause(joinMap, conditions[i], i, start, on);
        if status.Failed? {
          return;
        }
        on := on + [ConditionOf(conditions[i], joinMap).value];
      }
      TakeAll(conditions);
      status := Done;
    }

    // -------------------------------------------------------------- filter

    method BuildFilter(node: Node, params: Params) returns (status: Status)
      requires Valid() && node.FilterNode?
      modifies this
      ensures Valid() && Adds(status, old(items), items, FilterItems(node, params))
    {
      ghost var start := items;
      if node.param !in params || params[node.param] == Nil {
        assert items + [] == items;
        return Done;
      }
      var conditions := CollectConditions(node.columns, params[node.param]);
      if |conditions| == 0 {
        assert items + [] == items;
        return Done;
      }
      WriteOptional(node.prefix);
      status := WriteConditions(node.columns, conditions, " and ");
      if status.Failed? {
        return;
      }
      ghost var body := Join(Text(" and "), Entries(node.columns, conditions).value);
      Regroup(start, OptionalText(node.prefix), body);
      WriteOptional(node.suffix);
      Regroup(start, OptionalText(node.prefix) + body, OptionalText(node.suffix));
    }

    method WriteOptional(text: Option<string>)
      requires Valid()
      modifies this
      ensures Valid() && items == old(items) + OptionalText(text)
    {
      if text.Some? {
        Write([Text(text.value)]);
      }
    }

    method CollectConditions(columns: OrderedMap, value: Value) returns (conditions: seq<Condition>)
      ensures conditions == FilterConditions(columns, value)
    {
      conditions := [];
      match value {
        case Dict(order, entries) => conditions := CollectFromObject(order, entries);
        case Map(m) => conditions := CollectFromObject(columns.keys, m);
        case List(list) => conditions := CollectFromList(list);
        case _ =>
      }
    }

    method CollectFromObject(keys: seq<string>, m: Row) returns (conditions: seq<Condition>)
      ensures conditions == ObjectConditions(keys, m)
    {
      conditions := [];
      for i := 0 to |keys|
        invariant conditions == ObjectConditions(keys[..i], m)
      {
        TakeNext(keys, i);
        if keys[i] in m && m[keys[i]] != Nil {
          conditions := conditions + [Map(map[keys[i] := m[keys[i]]])];
        }
      }
      TakeAll(keys);
    }

    method CollectFromList(list: seq<Value>) returns (conditions: seq<Condition>)
      ensures conditions == Conditions(list)
    {
      conditions := [];
      for i := 0 to |list|
        invariant conditions == Conditions(list[..i])
      {
        TakeNext(list, i);
        match list[i] {
          case Map(m) => conditions := conditions + [Map(m)];
          case Dict(_, entries) => conditions := conditions + [Map(entries)];
          case _ =>
        }
      }
      TakeAll(list);
    }

    method WriteConditions(columns: OrderedMap, conditions: seq<Condition>, joiner: string) returns (status: Status)
      requires Valid()
      modifies this
      ensures Valid()
      ensures match Entries(columns, conditions)
              case Ok(parts) => status == Done && items == old(items) + Join(Text(joiner), parts)
              case Err(e) => status == Failed(e)
      decreases OrDepth(conditions), 1
    {
      ghost var start := items;
      ghost var done: seq<seq<Item>> := [];
      var emitted := 0;
      assert conditions[0..] == conditions;
      PrependNothing(Entries(columns, conditions));
      for i := 0 to |conditions|
        invariant Valid() && items == start + Join(Text(joiner), done) && emitted == |done|
        invariant Entries(columns, conditions) == Prepend(done, Entries(columns, conditions[i..]))
      {
        OrDepthAt(conditions, i);
        assert conditions[i..][0] == conditions[i] && conditions[i..][1..] == conditions[i + 1..];
        status, emitted := WriteCondition(columns, conditions[i], joiner, emitted, start, done);
        if status.Failed? {
          return;
        }
        PrependAssociative(done, ConditionEntries(columns, conditions[i]).value, Entries(columns, conditions[i + 1..]));
        done := done + ConditionEntries(columns, conditions[i]).value;
      }
      assert done + [] == done;
      status := Done;
    }

    /** One turn of the loop in `writeConditions`. */
    method WriteCondition(columns: OrderedMap, condition: Condition, joiner: string, already: nat,
                          ghost start: seq<Item>, ghost done: seq<seq<Item>>)
      returns (status: Status, emitted: nat)
      requires Valid() && items == start + Join(Text(joiner), done) && already == |done|
      modifies this
      ensures Valid()
      ensures match ConditionEntries(columns, condition)
              case Ok(parts) => status == Done && emitted == already + |parts|
                                && items == start + Join(Text(joiner), done + parts)
              case Err(e) => status == Failed(e)
      decreases OrDepthOf(condition), 0
    {
      emitted, status := already, Done;
      if "or" in condition.m {
        assert done + [] == done;
        if condition.m["or"].List? {
          OrDepthOfConditions(condition.m["or"].items);
          var alternatives := CollectFromList(condition.m["or"].items);
          if |alternatives| == 0 {
            return;
          }
          Separate(Text(joiner), emitted);
          status := WriteGroup(columns, alternatives);
          if status.Failed? {
            return;
          }
          emitted := emitted + 1;
          Grow(start, Text(joiner), done, ConditionEntries(columns, condition).value[0], items);
        }
      } else {
        status, emitted := WriteColumnEntries(columns, condition.m, joiner, already, start, done);
      }
    }

    method WriteGroup(columns: OrderedMap, alternatives: seq<Condition>) returns (status: Status)
      requires Valid()
      modifies this
      ensures Valid()
      ensures match Entries(columns, alternatives)
              case Ok(parts) => status == Done
                                && items == old(items) + ([Text("(")] + Join(Text(" or "), parts) + [Text(")")])
              case Err(e) => status == Failed(e)
      decreases OrDepth(alternatives), 2
    {
      ghost var start := items;
      Write([Text("(")]);
      status := WriteConditions(columns, alternatives, " or ");
      if status.Failed? {
        return;
      }
      ghost var inner := Join(Text(" or "), Entries(columns, alternatives).value);
      Regroup(start, [Text("(")], inner);
      Write([Text(")")]);
      Regroup(start, [Text("(")] + inner, [Text(")")]);
    }

    method WriteColumnEntries(columns: OrderedMap, m: Row, joiner: string, already: nat,
                              ghost start: seq<Item>, ghost done: seq<seq<Item>>)
      returns (status: Status, emitted: nat)
      requires Valid() && items == start + Join(Text(joiner), done) && already == |done|
      modifies this
      ensures Valid()
      ensures match ColumnEntries(columns, columns.keys, m)
              case Ok(parts) => status == Done && emitted == already + |parts|
                                && items == start + Join(Text(joiner), done + parts)
              case Err(e) => status == Failed(e)
    {
      emitted := already;
      ghost var written: seq<seq<Item>> := [];
      assert done + [] == done;
      assert columns.keys[0..] == columns.keys;
      PrependNothing(ColumnEntries(columns, columns.keys, m));
      for i := 0 to |columns.keys|
        invariant Valid() && items == start + Join(Text(joiner), done + written)
        invariant emitted == already + |written|
        invariant ColumnEntries(columns, columns.keys, m) ==
                  Prepend(written, ColumnEntries(columns, columns.keys[i..], m))
      {
        var key := columns.keys[i];
        assert columns.keys[i..][1..] == columns.keys[i + 1..];
        if key !in m || m[key] == Nil {
          continue;
        }
        Separate(Text(joiner), emitted);
        status := WriteEntry(columns.Sql(key), m[key]);
        if status.Failed? {
          return;
        }
        emitted := emitted + 1;
        ghost var entry := EntryItems(columns.Sql(key), m[key]).value;
        Grow(start, Text(joiner), done + written, entry, items);
        PrependAssociative(written, [entry], ColumnEntries(columns, columns.keys[i + 1..], m));
        assert (done + written) + [entry] == done + (written + [entry]);
        written := written + [entry];
      }
      assert written + [] == written;
      status := Done;
    }

    method WriteEntry(colSql: string, value: Value) returns (status: Status)
      requires Valid()
      modifies this
      ensures Valid() && Adds(status, old(items), items, EntryItems(colSql, value))
    {
      if value.List? && |value.items| >= 1 && value.items[0].Str? {
        var op := FilterOp(value.items[0].s);
        if op.None? {
          return Failed(InvalidOperator(value.items[0].s));
        }
        status := WriteOp(colSql, op.value, value.items[1..]);
        return;
      }
      Write([Name(colSql), Text(" = ")]);
      Bind(value);
      status := Done;
    }

    method WriteOp(colSql: string, op: Op, args: seq<Value>) returns (status: Status)
      requires Valid()
      modifies this
      ensures Valid() && Adds(status, old(items), items, OpItems(colSql, op, args))
    {
      status := Done;
      match op
      case Eq => status := WriteBinary(colSql, " = ", args);
      case Not => status := WriteBinary(colSql, " <> ", args);
      case Ne => status := WriteBinary(colSql, " <> ", args);
      case Gt => status := WriteBinary(colSql, " > ", args);
      case Ge => status := WriteBinary(colSql, " >= ", args);
      case Lt => status := WriteBinary(colSql, " < ", args);
      case Le => status := WriteBinary(colSql, " <= ", args);
      case Between =>
        if |args| < 2 {
          return Failed(BetweenNeedsTwo(|args|));
        }
        Write([Name(colSql), Text(" between ")]);
        Bind(args[0]);
        Write([Text(" and ")]);
        Bind(args[1]);
      case In =>
        var list := if |args| > 0 && args[0].List? then args[0].items else args;
        if |list| == 0 {
          Write([Text("1=0")]);
          return;
        }
        WriteList(colSql, " in (", list);
      case NotIn =>
        var list := if |args| > 0 && args[0].List? then args[0].items else args;
        if |list| == 0 {
          assert items + [] == items;
          return;
        }
        WriteList(colSql, " not in (", list);
      case Like => status := WriteBinary(colSql, " like ", args);
      case NotLike => status := WriteBinary(colSql, " not like ", args);
      case IsNull =>
        Write([Name(colSql), Text(" is null")]);
      case IsNotNull =>
        Write([Name(colSql), Text(" is not null")]);
    }

    method WriteBinary(colSql: string, text: string, args: seq<Value>) returns (status: Status)
      requires Valid()
      modifies this
      ensures Valid()
      ensures if args == [] then status == Failed(MissingArgument(text))
              else status == Done && items == old(items) + [Name(colSql), Text(text), Arg(args[0])]
    {
      if |args| == 0 {
        return Failed(MissingArgument(text));  // args[0] panics here
      }
      Write([Name(colSql), Text(text)]);
      Bind(args[0]);
      status := Done;
    }

    method WriteList(colSql: string, open: string, list: seq<Value>)
      requires Valid()
      modifies this
      ensures Valid()
      ensures items == old(items) + ([Name(colSql), Text(open)] + Join(COMMA, ArgParts(list)) + [Text(")")])
    {
      ghost var start := items;
      ghost var inner := Join(COMMA, ArgParts(list));
      Write([Name(colSql), Text(open)]);
      BindAll(list);
      Regroup(start, [Name(colSql), Text(open)], inner);
      Write([Text(")")]);
      Regroup(start, [Name(colSql), Text(open)] + inner, [Text(")")]);
    }
  }

  ghost function After(done: seq<Item>, rest: ItemsResult): ItemsResult {
    match rest
    case Ok(items) => Ok(done + items)
    case Err(e) => Err(e)
  }

  lemma AfterNothing(rest: ItemsResult)
    ensures After([], rest) == rest
  {
    if rest.Ok? {
      assert [] + rest.value == rest.value;
    }
  }

  lemma PrependNothing(rest: PartsResult)
    ensures Prepend([], rest) == rest
  {
    if rest.Ok? {
      assert [] + rest.value == rest.value;
    }
  }

  lemma AfterAssociative(a: seq<Item>, b: seq<Item>, rest: ItemsResult)
    ensures After(a, After(b, rest)) == After(a + b, rest)
  {
    if rest.Ok? {
      assert a + (b + rest.value) == (a + b) + rest.value;
    }
  }

  lemma PrependAssociative(a: seq<seq<Item>>, b: seq<seq<Item>>, rest: PartsResult)
    ensures Prepend(a, Prepend(b, rest)) == Prepend(a + b, rest)
  {
    if rest.Ok? {
      assert a + (b + rest.value) == (a + b) + rest.value;
    }
  }

  ghost predicate Wrote(items: seq<Item>, start: seq<Item>, on: seq<OnClause>) {
    items == start + Join(AND, OnParts(on))
  }

  lemma AllItemsNext(clauses: seq<JoinClause>, clause: JoinClause)
    ensures AllItems(clauses + [clause]) == AllItems(clauses) + ClauseItems(clause)
  {
    assert (clauses + [clause])[..|clauses|] == clauses;
  }

  lemma OnPartsNext(on: seq<OnClause>, clause: OnClause)
    ensures OnParts(on + [clause]) == OnParts(on) + [OnPart(clause)]
  {
    assert (on + [clause])[..|on|] == on;
  }

  /** The first failure is the failure of the whole. */
  lemma {:induction false} ClausesFail(node: Node, value: Value, aliases: seq<string>, i: nat)
    requires node.JoinByNode? && i <= |aliases| && Clauses(node, value, aliases[..i]).Err?
    ensures Clauses(node, value, aliases) == Clauses(node, value, aliases[..i])
  {
    if i < |aliases| {
      assert aliases[..|aliases| - 1][..i] == aliases[..i];
      ClausesFail(node, value, aliases[..|aliases| - 1], i);
    } else {
      assert aliases[..i] == aliases;
    }
  }

  /** One more condition decides, or joins those before it. */
  lemma ConditionsNext(list: seq<Value>, joinMap: map<string, JoinTable>, i: nat, on: seq<OnClause>)
    requires i < |list| && ConditionsOf(list[..i], joinMap) == Ok(on)
    ensures match ConditionOf(list[i], joinMap)
            case Ok(clause) => ConditionsOf(list[..i + 1], joinMap) == Ok(on + [clause])
            case Err(e) => ConditionsOf(list, joinMap) == Err(e)
  {
    TakeNext(list, i);
    if ConditionOf(list[i], joinMap).Err? {
      ConditionsFail(list, joinMap, i + 1);
    }
  }

  lemma {:induction false} ConditionsFail(list: seq<Value>, joinMap: map<string, JoinTable>, i: nat)
    requires i <= |list| && ConditionsOf(list[..i], joinMap).Err?
    ensures ConditionsOf(list, joinMap) == ConditionsOf(list[..i], joinMap)
  {
    if i < |list| {
      assert list[..|list| - 1][..i] == list[..i];
      ConditionsFail(list[..|list| - 1], joinMap, i);
    } else {
      assert list[..i] == list;
    }
  }
}
