/** Inserts and upserts read back: which columns, rows, matches and assignments their text holds. */
module SqlUpserts {
  import opened Wrappers
  import opened Seqs
  import opened SqlTemplate
  import opened SqlParts
  import opened SqlSpec
  import opened SqlReading

  datatype Insert = Insert(columns: seq<string>, rows: seq<seq<Value>>)

  datatype Upsert =
    | OnConflict(insert: Insert, conflict: seq<string>, updates: seq<(string, string)>)
      // the table's column and the source's column that must match; the columns to insert and the
      // source's columns they are taken from
    | Merge(source: Insert, matches: seq<(string, string, string)>, updates: seq<(string, string)>,
            inserted: seq<string>, from: seq<string>)

  /** `(columns) values rows`. */
  function ReadInsert(items: seq<Item>): Option<(Insert, seq<Item>)> {
    match Skip("(", items)
    case None => None
    case Some(a) =>
      var (columns, b) := ReadList(OneName(), COMMA, a);
      match Skip(") values ", b)
      case None => None
      case Some(c) =>
        var (rows, rest) := ReadList(OneRow(), COMMA, c);
        Some((Insert(columns, rows), rest))
  }

  /** An insert, `on conflict (columns) do update set assignments`. */
  function ReadOnConflict(items: seq<Item>): Option<Upsert> {
    match ReadInsert(items)
    case None => None
    case Some((insert, a)) =>
      match Skip(" on conflict (", a)
      case None => None
      case Some(b) =>
        var (conflict, c) := ReadList(OneName(), COMMA, b);
        match Skip(") do update set ", c)
        case None => None
        case Some(d) =>
          var (updates, rest) := ReadList(OneAssignment(" = excluded."), COMMA, d);
          if rest == [] then Some(OnConflict(insert, conflict, updates)) else None
  }

  /** `using (values rows) as src(columns) on (matches)`, what to do when matched and when not. */
  function ReadMerge(items: seq<Item>): Option<Upsert> {
    match Skip("using (values ", items)
    case None => None
    case Some(a) =>
      var (rows, b) := ReadList(OneRow(), COMMA, a);
      match Skip(") as src(", b)
      case None => None
      case Some(c) =>
        var (columns, d) := ReadList(OneName(), COMMA, c);
        match Skip(") on (", d)
        case None => None
        case Some(e) =>
          var (matches, f) := ReadList(OneMatch(), Text(" and "), e);
          match Skip(") when matched then update set ", f)
          case None => None
          case Some(g) =>
            var (updates, h) := ReadList(OneAssignment(" = src."), COMMA, g);
            ReadNotMatched(Insert(columns, rows), matches, updates, h)
  }

  function ReadNotMatched(source: Insert, matches: seq<(string, string, string)>, updates: seq<(string, string)>,
                          items: seq<Item>): Option<Upsert>
  {
    match Skip(" when not matched then insert (", items)
    case None => None
    case Some(a) =>
      var (inserted, b) := ReadList(OneName(), COMMA, a);
      match Skip(") values (", b)
      case None => None
      case Some(c) =>
        var (from, d) := ReadList(OneSource(), COMMA, c);
        if d == [Text(")")] then Some(Merge(source, matches, updates, inserted, from)) else None
  }

  /** The present keys that are no conflict keys, in declared order. */
  function UpdatedKeys(keys: seq<string>, conflict: seq<string>): (updated: seq<string>)
    ensures forall key :: key in updated <==> key in keys && key !in conflict
  {
    if keys == [] then []
    else
      var front, key := keys[..|keys| - 1], keys[|keys| - 1];
      assert keys == front + [key];
      UpdatedKeys(front, conflict) + if key in conflict then [] else [key]
  }

  /** Each column with itself: a column is always set from, or matched with, its namesake. */
  function Paired(columns: OrderedMap, keys: seq<string>): (pairs: seq<(string, string)>)
    ensures |pairs| == |keys| && forall i | 0 <= i < |keys| :: pairs[i] == (columns.Sql(keys[i]), columns.Sql(keys[i]))
  {
    seq(|keys|, i requires 0 <= i < |keys| => (columns.Sql(keys[i]), columns.Sql(keys[i])))
  }

  function Matched(columns: OrderedMap, table: string, keys: seq<string>): (matches: seq<(string, string, string)>)
    ensures |matches| == |keys|
    ensures forall i | 0 <= i < |keys| :: matches[i] == (table, columns.Sql(keys[i]), columns.Sql(keys[i]))
  {
    seq(|keys|, i requires 0 <= i < |keys| => (table, columns.Sql(keys[i]), columns.Sql(keys[i])))
  }

  // ------------------------------------------------------- the lists of an upsert

  lemma {:induction false} UpdatesAre(columns: OrderedMap, keys: seq<string>, conflict: seq<string>, source: string)
    ensures var parts := UpdateParts(columns, keys, (set key | key in conflict), source);
            var updated := UpdatedKeys(keys, conflict);
            |parts| == |updated| &&
            forall i | 0 <= i < |parts| ::
              parts[i] == [Name(columns.Sql(updated[i])), Text(source), Name(columns.Sql(updated[i]))]
  {
    if keys != [] {
      UpdatesAre(columns, keys[..|keys| - 1], conflict, source);
    }
  }

  lemma AssignmentReads(col: string, source: string)
    ensures Reads(OneAssignment(source), [Name(col), Text(source), Name(col)], (col, col))
  {
    forall tail: seq<Item>
      ensures OneAssignment(source)([Name(col), Text(source), Name(col)] + tail) == Some(((col, col), 3))
    {
      var all := [Name(col), Text(source), Name(col)] + tail;
      assert all[0] == Name(col) && all[1] == Text(source) && all[2] == Name(col);
    }
  }

  lemma UpdatesRead(columns: OrderedMap, keys: seq<string>, conflict: seq<string>, source: string, rest: seq<Item>)
    requires Ended(rest)
    ensures ReadList(OneAssignment(source), COMMA,
                     Join(COMMA, UpdateParts(columns, keys, (set key | key in conflict), source)) + rest) ==
            (Paired(columns, UpdatedKeys(keys, conflict)), rest)
  {
    var parts := UpdateParts(columns, keys, (set key | key in conflict), source);
    var updated := UpdatedKeys(keys, conflict);
    UpdatesAre(columns, keys, conflict, source);
    forall i | 0 <= i < |parts|
      ensures Reads(OneAssignment(source), parts[i], Paired(columns, updated)[i])
    {
      AssignmentReads(columns.Sql(updated[i]), source);
    }
    ReadJoined(OneAssignment(source), COMMA, parts, Paired(columns, updated), rest);
  }

  lemma {:induction false} SourcesAre(columns: OrderedMap, keys: seq<string>)
    ensures forall i | 0 <= i < |keys| :: SourceParts(columns, keys)[i] == [Text("src."), Name(columns.Sql(keys[i]))]
  {
    if keys != [] {
      SourcesAre(columns, keys[..|keys| - 1]);
    }
  }

  lemma SourceReads(col: string)
    ensures Reads(OneSource(), [Text("src."), Name(col)], col)
  {
    forall tail: seq<Item>
      ensures OneSource()([Text("src."), Name(col)] + tail) == Some((col, 2))
    {
      var all := [Text("src."), Name(col)] + tail;
      assert all[0] == Text("src.") && all[1] == Name(col);
    }
  }

  lemma SourcesRead(columns: OrderedMap, keys: seq<string>, rest: seq<Item>)
    requires Ended(rest)
    ensures ReadList(OneSource(), COMMA, Join(COMMA, SourceParts(columns, keys)) + rest) == (Sqls(columns, keys), rest)
  {
    SourcesAre(columns, keys);
    forall i | 0 <= i < |keys|
      ensures Reads(OneSource(), SourceParts(columns, keys)[i], Sqls(columns, keys)[i])
    {
      SourceReads(columns.Sql(keys[i]));
    }
    ReadJoined(OneSource(), COMMA, SourceParts(columns, keys), Sqls(columns, keys), rest);
  }

  lemma {:induction false} MatchesAre(columns: OrderedMap, table: string, keys: seq<string>)
    ensures forall i | 0 <= i < |keys| :: MatchParts(columns, table, keys)[i] == MatchPart(table, columns.Sql(keys[i]))
  {
    if keys != [] {
      MatchesAre(columns, table, keys[..|keys| - 1]);
    }
  }

  lemma MatchReads(table: string, col: string)
    ensures Reads(OneMatch(), MatchPart(table, col), (table, col, col))
  {
    forall tail: seq<Item>
      ensures OneMatch()(MatchPart(table, col) + tail) == Some(((table, col, col), 5))
    {
      var all := MatchPart(table, col) + tail;
      assert all[0] == Name(table) && all[1] == Text(".") && all[2] == Name(col) && all[3] == Text(" = src.");
      assert all[4] == Name(col);
    }
  }

  lemma MatchesRead(columns: OrderedMap, table: string, keys: seq<string>, rest: seq<Item>)
    requires Ended(rest)
    ensures ReadList(OneMatch(), Text(" and "), Join(Text(" and "), MatchParts(columns, table, keys)) + rest) ==
            (Matched(columns, table, keys), rest)
  {
    MatchesAre(columns, table, keys);
    forall i | 0 <= i < |keys|
      ensures Reads(OneMatch(), MatchParts(columns, table, keys)[i], Matched(columns, table, keys)[i])
    {
      MatchReads(table, columns.Sql(keys[i]));
    }
    ReadJoined(OneMatch(), Text(" and "), MatchParts(columns, table, keys), Matched(columns, table, keys), rest);
  }

  // -------------------------------------------------------------- main results

  lemma InsertReadsBefore(columns: OrderedMap, keys: seq<string>, rows: seq<Row>, rest: seq<Item>)
    requires Ended(rest)
    ensures ReadInsert([Text("(")] + (ColumnList(columns, keys) + ([Text(") values ")] + (TupleList(keys, rows) + rest)))) ==
            Some((Insert(Sqls(columns, keys), Cells(keys, rows)), rest))
  {
    var c := TupleList(keys, rows) + rest;
    var b := [Text(") values ")] + c;
    SkipHere("(", ColumnList(columns, keys) + b);
    NamesRead(columns, keys, b);
    SkipHere(") values ", c);
    RowsRead(keys, rows, rest);
  }

  /** An insert lists the present declared keys' columns and, row by row, their values. */
  lemma InsertReads(columns: OrderedMap, rows: seq<Row>)
    requires rows != []
    ensures var keys := KeysIn(columns.keys, rows[0]);
            ReadInsert(InsertItems(columns, rows)) == Some((Insert(Sqls(columns, keys), Cells(keys, rows)), []))
  {
    var keys := KeysIn(columns.keys, rows[0]);
    var tuples := TupleList(keys, rows);
    InsertReadsBefore(columns, keys, rows, []);
    assert tuples + [] == tuples;
    Nest4([Text("(")], ColumnList(columns, keys), [Text(") values ")], tuples);
  }

  lemma Nest4(a: seq<Item>, b: seq<Item>, c: seq<Item>, d: seq<Item>)
    ensures a + b + c + d == a + (b + (c + d))
  {
  }

  lemma Nest8(a: seq<Item>, b: seq<Item>, c: seq<Item>, d: seq<Item>, e: seq<Item>, f: seq<Item>, g: seq<Item>, h: seq<Item>)
    ensures a + b + c + d + e + f + g + h == a + (b + (c + (d + (e + (f + (g + h))))))
  {
    Nest4(e, f, g, h);
    Nest4(a, b, c, d);
    Nest4(a + b + c + d, e, f, g + h);
    Nest4(a + b + c + d, e, f, g);
    Regroup(a + b + c + d + e + f, g, h);
    Nest4(b, c, d, e + (f + (g + h)));
    Regroup(a, b + (c + d), e + (f + (g + h)));
    Regroup(b, c + d, e + (f + (g + h)));
    Regroup(c, d, e + (f + (g + h)));
  }

  /** ON CONFLICT: the insert, the conflict keys' columns, and an assignment for each present key that
      is no conflict key, from the incoming row's column of the same name. */
  lemma OnConflictReads(node: Node, rows: seq<Row>, d: Dialect)
    requires node.UpsertNode? && rows != [] && d != TransactSql
    ensures var keys := KeysIn(node.columns.keys, rows[0]);
            ReadOnConflict(UpsertItems(node, rows, d)) ==
            Some(OnConflict(Insert(Sqls(node.columns, keys), Cells(keys, rows)), Sqls(node.columns, node.conflictKeys),
                            Paired(node.columns, UpdatedKeys(keys, node.conflictKeys))))
  {
    var keys := KeysIn(node.columns.keys, rows[0]);
    var updates := Join(COMMA, UpdateParts(node.columns, keys, ConflictSet(node), " = excluded."));
    var conflict := ColumnList(node.columns, node.conflictKeys);
    var c := [Text(ON_CONFLICT)] + (conflict + ([Text(DO_UPDATE)] + updates));
    Nest8([Text("(")], ColumnList(node.columns, keys), [Text(") values ")], TupleList(keys, rows), [Text(ON_CONFLICT)],
          conflict, [Text(DO_UPDATE)], updates);
    InsertReadsBefore(node.columns, keys, rows, c);
    SkipHere(ON_CONFLICT, conflict + ([Text(DO_UPDATE)] + updates));
    NamesRead(node.columns, node.conflictKeys, [Text(DO_UPDATE)] + updates);
    SkipHere(DO_UPDATE, updates);
    UpdatesRead(node.columns, keys, node.conflictKeys, " = excluded.", []);
    assert updates + [] == updates;
  }

  lemma NotMatchedReads(source: Insert, matches: seq<(string, string, string)>, updates: seq<(string, string)>,
                        columns: OrderedMap, keys: seq<string>)
    ensures ReadNotMatched(source, matches, updates,
                           [Text(WHEN_NOT_MATCHED)] + (ColumnList(columns, keys) +
                             ([Text(") values (")] + (Join(COMMA, SourceParts(columns, keys)) + [Text(")")])))) ==
            Some(Merge(source, matches, updates, Sqls(columns, keys), Sqls(columns, keys)))
  {
    var sources := Join(COMMA, SourceParts(columns, keys)) + [Text(")")];
    SkipHere(WHEN_NOT_MATCHED, ColumnList(columns, keys) + ([Text(") values (")] + sources));
    NamesRead(columns, keys, [Text(") values (")] + sources);
    SkipHere(") values (", sources);
    SourcesRead(columns, keys, [Text(")")]);
  }

  lemma MergeNests(node: Node, keys: seq<string>, rows: seq<Row>)
    requires node.UpsertNode?
    ensures UpsertMerge(node, keys, rows) ==
            [Text("using (values ")] + (TupleList(keys, rows) + ([Text(") as src(")] + (ColumnList(node.columns, keys) +
              ([Text(") on (")] + (Join(Text(" and "), MatchParts(node.columns, node.tableName, node.conflictKeys)) +
                ([Text(WHEN_MATCHED)] + (Join(COMMA, UpdateParts(node.columns, keys, ConflictSet(node), " = src.")) +
                  ([Text(WHEN_NOT_MATCHED)] + (ColumnList(node.columns, keys) + ([Text(") values (")] +
                    (Join(COMMA, SourceParts(node.columns, keys)) + [Text(")")])))))))))))
  {
    var u := Join(COMMA, UpdateParts(node.columns, keys, ConflictSet(node), " = src."));
    var n, s := ColumnList(node.columns, keys), Join(COMMA, SourceParts(node.columns, keys));
    var m := Join(Text(" and "), MatchParts(node.columns, node.tableName, node.conflictKeys));
    var actions := [Text(WHEN_MATCHED)] + (u + ([Text(WHEN_NOT_MATCHED)] + (n + ([Text(") values (")] + (s + [Text(")")])))));
    ActionsNest([Text(WHEN_MATCHED)], u, [Text(WHEN_NOT_MATCHED)], n, [Text(") values (")], s, [Text(")")]);
    SourceNests([Text("using (values ")], TupleList(keys, rows), [Text(") as src(")], n, [Text(") on (")], m, actions);
  }

  lemma ActionsNest(a: seq<Item>, b: seq<Item>, c: seq<Item>, d: seq<Item>, e: seq<Item>, f: seq<Item>, g: seq<Item>)
    ensures a + b + c + d + e + f + g == a + (b + (c + (d + (e + (f + g)))))
  {
    Nest4(a, b, c, d);
    Nest4(a + b + c + d, e, f, g);
    Regroup(a, b + (c + d), e + (f + g));
    Regroup(b, c + d, e + (f + g));
    Regroup(c, d, e + (f + g));
  }

  lemma SourceNests(a: seq<Item>, b: seq<Item>, c: seq<Item>, d: seq<Item>, e: seq<Item>, f: seq<Item>, g: seq<Item>)
    ensures (a + b + c + d + e + f) + g == a + (b + (c + (d + (e + (f + g)))))
  {
    ActionsNest(a, b, c, d, e, f, g);
  }

  /** MERGE: the rows as a source with the present keys' columns, matched on each conflict key's column;
      the same assignments as ON CONFLICT makes; and otherwise each present key's column inserted
      from the source's column of the same name. */
  lemma MergeReads(node: Node, rows: seq<Row>)
    requires node.UpsertNode? && rows != []
    ensures var keys := KeysIn(node.columns.keys, rows[0]);
            ReadMerge(UpsertItems(node, rows, TransactSql)) ==
            Some(Merge(Insert(Sqls(node.columns, keys), Cells(keys, rows)),
                       Matched(node.columns, node.tableName, node.conflictKeys),
                       Paired(node.columns, UpdatedKeys(keys, node.conflictKeys)),
                       Sqls(node.columns, keys), Sqls(node.columns, keys)))
  {
    var keys := KeysIn(node.columns.keys, rows[0]);
    var n, s := ColumnList(node.columns, keys), Join(COMMA, SourceParts(node.columns, keys));
    var u := Join(COMMA, UpdateParts(node.columns, keys, ConflictSet(node), " = src."));
    var m := Join(Text(" and "), MatchParts(node.columns, node.tableName, node.conflictKeys));
    var h := [Text(WHEN_NOT_MATCHED)] + (n + ([Text(") values (")] + (s + [Text(")")])));
    var f := [Text(WHEN_MATCHED)] + (u + h);
    var d := [Text(") on (")] + (m + f);
    var b := [Text(") as src(")] + (n + d);
    MergeNests(node, keys, rows);
    SkipHere("using (values ", TupleList(keys, rows) + b);
    RowsRead(keys, rows, b);
    SkipHere(") as src(", n + d);
    NamesRead(node.columns, keys, d);
    SkipHere(") on (", m + f);
    MatchesRead(node.columns, node.tableName, node.conflictKeys, f);
    SkipHere(WHEN_MATCHED, u + h);
    UpdatesRead(node.columns, keys, node.conflictKeys, " = src.", h);
    NotMatchedReads(Insert(Sqls(node.columns, keys), Cells(keys, rows)),
                    Matched(node.columns, node.tableName, node.conflictKeys),
                    Paired(node.columns, UpdatedKeys(keys, node.conflictKeys)), node.columns, keys);
  }
}
