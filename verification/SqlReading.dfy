/** Reading statements back from the emitted fragments: lists of columns, rows and assignments. */
module SqlReading {
  import opened Wrappers
  import opened Seqs
  import opened SqlTemplate
  import opened SqlParts
  import opened SqlSpec
  import opened SqlLayout

  /** Reads one element and says how many fragments it took. */
  type Reader<!T> = seq<Item> -> Option<(T, nat)>

  /** A list with separators, as long as elements follow. */
  function ReadList<T>(one: Reader<T>, sep: Item, items: seq<Item>): (r: (seq<T>, seq<Item>))
    ensures |r.1| <= |items|
    decreases |items|
  {
    match one(items)
    case None => ([], items)
    case Some((x, n)) =>
      if n == 0 || n > |items| then ([], items)
      else if n < |items| && items[n] == sep then
        var (xs, rest) := ReadList(one, sep, items[n + 1..]);
        ([x] + xs, rest)
      else ([x], items[n..])
  }

  /** The reader reads the part as `x`, whatever follows. */
  ghost predicate Reads<T>(one: Reader<T>, part: seq<Item>, x: T) {
    part != [] && forall tail :: one(part + tail) == Some((x, |part|))
  }

  /** What follows a list: neither an element nor a separator. */
  ghost predicate Closes<T>(one: Reader<T>, sep: Item, rest: seq<Item>) {
    one(rest) == None && (rest != [] ==> rest[0] != sep)
  }

  lemma ReadsOne<T>(one: Reader<T>, sep: Item, part: seq<Item>, x: T, rest: seq<Item>)
    requires Reads(one, part, x) && Closes(one, sep, rest)
    ensures ReadList(one, sep, part + rest) == ([x], rest)
  {
    assert (part + rest)[|part|..] == rest;
  }

  lemma ReadsMore<T>(one: Reader<T>, sep: Item, part: seq<Item>, x: T, tail: seq<Item>)
    requires Reads(one, part, x)
    ensures var (xs, rest) := ReadList(one, sep, tail);
            ReadList(one, sep, part + ([sep] + tail)) == ([x] + xs, rest)
  {
    var all := part + ([sep] + tail);
    assert all[|part|] == sep && all[|part| + 1..] == tail;
  }

  /** Parts joined by separators read back as the list of what each reads as. */
  lemma {:induction false} ReadJoined<T>(one: Reader<T>, sep: Item, parts: seq<seq<Item>>, xs: seq<T>, rest: seq<Item>)
    requires |parts| == |xs| && forall i | 0 <= i < |parts| :: Reads(one, parts[i], xs[i])
    requires Closes(one, sep, rest)
    ensures ReadList(one, sep, Join(sep, parts) + rest) == (xs, rest)
    decreases |parts|
  {
    if parts == [] {
      assert Join(sep, parts) + rest == rest;
    } else if |parts| == 1 {
      ReadsOne(one, sep, parts[0], xs[0], rest);
      assert xs == [xs[0]];
    } else {
      var tail := Join(sep, parts[1..]);
      JoinCons(sep, parts);
      ReadJoined(one, sep, parts[1..], xs[1..], rest);
      ReadsMore(one, sep, parts[0], xs[0], tail + rest);
      Regroup(parts[0] + [sep], tail, rest);
      Regroup(parts[0], [sep], tail + rest);
      assert [xs[0]] + xs[1..] == xs;
    }
  }

  // ----------------------------------------------------------------- elements

  function OneName(): Reader<string> {
    (items: seq<Item>) => if items != [] && items[0].Name? then Some((items[0].sql, 1)) else None
  }

  function OneValue(): Reader<Value> {
    (items: seq<Item>) => if items != [] && items[0].Arg? then Some((items[0].arg, 1)) else None
  }

  /** `column = source.column`, the target and the source. */
  function OneAssignment(source: string): Reader<(string, string)> {
    (items: seq<Item>) =>
      if |items| >= 3 && items[0].Name? && items[1] == Text(source) && items[2].Name?
      then Some(((items[0].sql, items[2].sql), 3)) else None
  }

  function OneSource(): Reader<string> {
    (items: seq<Item>) =>
      if |items| >= 2 && items[0] == Text("src.") && items[1].Name? then Some((items[1].sql, 2)) else None
  }

  /** `table.column = src.column`. */
  function OneMatch(): Reader<(string, string, string)> {
    (items: seq<Item>) =>
      if |items| >= 5 && items[0].Name? && items[1] == Text(".") && items[2].Name? && items[3] == Text(" = src.")
         && items[4].Name?
      then Some(((items[0].sql, items[2].sql, items[4].sql), 5)) else None
  }

  /** A row of values in parentheses. */
  function OneRow(): Reader<seq<Value>> {
    (items: seq<Item>) =>
      if items == [] || items[0] != Text("(") then None
      else
        var (values, rest) := ReadList(OneValue(), COMMA, items[1..]);
        if rest != [] && rest[0] == Text(")") then Some((values, |items| - |rest| + 1)) else None
  }

  /** What stands behind a literal. */
  function Skip(text: string, items: seq<Item>): Option<seq<Item>> {
    if items != [] && items[0] == Text(text) then Some(items[1..]) else None
  }

  lemma SkipHere(text: string, rest: seq<Item>)
    ensures Skip(text, [Text(text)] + rest) == Some(rest)
  {
  }

  // -------------------------------------------------- the lists of the builder

  function Sqls(columns: OrderedMap, keys: seq<string>): (sqls: seq<string>)
    ensures |sqls| == |keys| && forall i | 0 <= i < |keys| :: sqls[i] == columns.Sql(keys[i])
  {
    seq(|keys|, i requires 0 <= i < |keys| => columns.Sql(keys[i]))
  }

  /** The rows' values for the keys; a missing cell is nil. */
  function Cells(keys: seq<string>, rows: seq<Row>): (cells: seq<seq<Value>>)
    ensures |cells| == |rows| && forall r | 0 <= r < |rows| :: cells[r] == RowValues(keys, rows[r])
  {
    seq(|rows|, r requires 0 <= r < |rows| => RowValues(keys, rows[r]))
  }

  /** A literal ends any of these lists. */
  ghost predicate Ended(rest: seq<Item>) {
    rest == [] || (rest[0].Text? && rest[0] !in {COMMA, Text("("), Text("src."), Text(" and ")})
  }

  lemma {:induction false} NamesAre(columns: OrderedMap, keys: seq<string>)
    ensures forall i | 0 <= i < |keys| :: NameParts(columns, keys)[i] == [Name(columns.Sql(keys[i]))]
  {
    if keys != [] {
      NamesAre(columns, keys[..|keys| - 1]);
    }
  }

  lemma NamesRead(columns: OrderedMap, keys: seq<string>, rest: seq<Item>)
    requires Ended(rest)
    ensures ReadList(OneName(), COMMA, ColumnList(columns, keys) + rest) == (Sqls(columns, keys), rest)
  {
    NamesAre(columns, keys);
    forall i | 0 <= i < |keys|
      ensures Reads(OneName(), NameParts(columns, keys)[i], Sqls(columns, keys)[i])
    {
    }
    ReadJoined(OneName(), COMMA, NameParts(columns, keys), Sqls(columns, keys), rest);
  }

  lemma {:induction false} CellsAre(keys: seq<string>, row: Row)
    ensures forall i | 0 <= i < |keys| :: CellParts(keys, row)[i] == [Arg(Lookup(row, keys[i]))]
  {
    if keys != [] {
      CellsAre(keys[..|keys| - 1], row);
    }
  }

  lemma ValuesRead(keys: seq<string>, row: Row, rest: seq<Item>)
    requires Closes(OneValue(), COMMA, rest)
    ensures ReadList(OneValue(), COMMA, Join(COMMA, CellParts(keys, row)) + rest) == (RowValues(keys, row), rest)
  {
    CellsAre(keys, row);
    forall i | 0 <= i < |keys|
      ensures Reads(OneValue(), CellParts(keys, row)[i], RowValues(keys, row)[i])
    {
    }
    ReadJoined(OneValue(), COMMA, CellParts(keys, row), RowValues(keys, row), rest);
  }

  lemma RowReads(keys: seq<string>, row: Row)
    ensures Reads(OneRow(), TupleItems(keys, row), RowValues(keys, row))
  {
    forall tail: seq<Item>
      ensures OneRow()(TupleItems(keys, row) + tail) == Some((RowValues(keys, row), |TupleItems(keys, row)|))
    {
      RowBefore(keys, row, tail);
    }
  }

  lemma RowBefore(keys: seq<string>, row: Row, tail: seq<Item>)
    ensures OneRow()(TupleItems(keys, row) + tail) == Some((RowValues(keys, row), |TupleItems(keys, row)|))
  {
    var inner, rest := Join(COMMA, CellParts(keys, row)), [Text(")")] + tail;
    ValuesRead(keys, row, rest);
    Enclosed(inner, tail);
  }

  lemma Enclosed(inner: seq<Item>, tail: seq<Item>)
    ensures var all := [Text("(")] + inner + [Text(")")] + tail;
            all[0] == Text("(") && all[1..] == inner + ([Text(")")] + tail)
  {
  }

  lemma {:induction false} TuplesAre(keys: seq<string>, rows: seq<Row>)
    ensures forall r | 0 <= r < |rows| :: TupleParts(keys, rows)[r] == TupleItems(keys, rows[r])
  {
    if rows != [] {
      TuplesAre(keys, rows[..|rows| - 1]);
    }
  }

  lemma RowsRead(keys: seq<string>, rows: seq<Row>, rest: seq<Item>)
    requires Ended(rest)
    ensures ReadList(OneRow(), COMMA, TupleList(keys, rows) + rest) == (Cells(keys, rows), rest)
  {
    TuplesAre(keys, rows);
    forall r | 0 <= r < |rows|
      ensures Reads(OneRow(), TupleParts(keys, rows)[r], Cells(keys, rows)[r])
    {
      RowReads(keys, rows[r]);
    }
    ReadJoined(OneRow(), COMMA, TupleParts(keys, rows), Cells(keys, rows), rest);
  }
}
