/** What the simple template nodes come to, and how templates are put together. */
module SqlNodes {
  import opened Wrappers
  import opened Seqs
  import opened SqlTemplate
  import opened SqlParts
  import opened SqlSpec
  import opened SqlReading

  /** The items of one template behind those of another; the first error counts. */
  ghost function Both(a: ItemsResult, b: ItemsResult): ItemsResult {
    match a
    case Err(e) => Err(e)
    case Ok(items) => match b case Err(e) => Err(e) case Ok(more) => Ok(items + more)
  }

  lemma OneNode(node: Node, params: Params, d: Dialect)
    ensures TemplateItems([node], params, d) == NodeItems(node, params, d)
  {
    assert [node][1..] == [];
    assert TemplateItems([], params, d) == Ok([]);
    if NodeItems(node, params, d).Ok? {
      assert NodeItems(node, params, d).value + [] == NodeItems(node, params, d).value;
    }
  }

  /** Templates in a row are evaluated in a row. */
  lemma {:induction false} TemplatesInRow(a: seq<Node>, b: seq<Node>, params: Params, d: Dialect)
    ensures TemplateItems(a + b, params, d) == Both(TemplateItems(a, params, d), TemplateItems(b, params, d))
  {
    if a == [] {
      assert a + b == b;
      if TemplateItems(b, params, d).Ok? {
        assert [] + TemplateItems(b, params, d).value == TemplateItems(b, params, d).value;
      }
    } else {
      assert (a + b)[0] == a[0] && (a + b)[1..] == a[1..] + b;
      TemplatesInRow(a[1..], b, params, d);
      var first, rest, more := NodeItems(a[0], params, d), TemplateItems(a[1..], params, d), TemplateItems(b, params, d);
      if first.Ok? && rest.Ok? && more.Ok? {
        Regroup(first.value, rest.value, more.value);
      }
    }
  }

  /** `when` takes its first branch for a parameter that is there and neither nil nor false, its other
      branch otherwise; a negated one does the opposite. */
  lemma WhenChooses(param: string, onTrue: seq<Node>, onFalse: seq<Node>, params: Params, d: Dialect)
    ensures var there := param in params && params[param] !in {Nil, Bool(false)};
            && NodeItems(WhenNode(param, false, onTrue, onFalse), params, d) ==
               TemplateItems(if there then onTrue else onFalse, params, d)
            && NodeItems(WhenNode(param, true, onTrue, onFalse), params, d) ==
               TemplateItems(if there then onFalse else onTrue, params, d)
  {
  }

  /** Text is written as it is, a value is bound; a frame that Transact-SQL does not know is refused
      there and nowhere else. */
  lemma LiteralNodes(text: string, value: Value, emit: Params -> Result<string, string>, refuses: Params -> bool,
                     params: Params, d: Dialect)
    ensures NodeItems(TextNode(text), params, d) == Ok([Text(text)])
    ensures NodeItems(ValueNode(value), params, d) == Ok([Arg(value)])
    ensures NodeItems(TextOnlyNode(emit, refuses), params, d) ==
            if d == TransactSql && refuses(params) then Err(NotInTransactSql)
            else if emit(params).Ok? then Ok([Text(emit(params).value)])
            else Err(TextNodeFailed(emit(params).error))
  {
  }

  /** A parameter binds its value, nil when it is missing; a list parameter reads back as its elements. */
  lemma ParamReads(name: string, params: Params, d: Dialect)
    ensures var value := if name in params then params[name] else Nil;
            && NodeItems(ParamNode(name, false), params, d) == Ok([Arg(value)])
            && NodeItems(ParamNode(name, true), params, d).Ok?
            && ReadList(OneValue(), COMMA, NodeItems(ParamNode(name, true), params, d).value) ==
               (if value.List? then value.items else [value], [])
  {
    var value := if name in params then params[name] else Nil;
    if value.List? {
      ArgsRead(value.items);
    } else {
      assert [Arg(value)][1..] == [];
    }
  }

  lemma {:induction false} ArgsAre(values: seq<Value>)
    ensures forall i | 0 <= i < |values| :: ArgParts(values)[i] == [Arg(values[i])]
  {
    if values != [] {
      ArgsAre(values[..|values| - 1]);
    }
  }

  lemma ArgsRead(values: seq<Value>)
    ensures ReadList(OneValue(), COMMA, Join(COMMA, ArgParts(values))) == (values, [])
  {
    ArgsAre(values);
    forall i | 0 <= i < |values|
      ensures Reads(OneValue(), ArgParts(values)[i], values[i])
    {
    }
    ReadJoined(OneValue(), COMMA, ArgParts(values), values, []);
    assert Join(COMMA, ArgParts(values)) + [] == Join(COMMA, ArgParts(values));
  }

  /** A limit and an offset are written when they are there, in this order, each with its value. */
  lemma PaginationReads(limit: Value, offset: Value, d: Dialect)
    requires limit != Nil && offset != Nil
    ensures NodeItems(PaginationNode, map["limit" := limit, "offset" := offset], d) ==
            Ok([Text("limit "), Arg(limit), Text(" "), Text("offset "), Arg(offset)])
    ensures NodeItems(PaginationNode, map["limit" := limit], d) == Ok([Text("limit "), Arg(limit)])
    ensures NodeItems(PaginationNode, map["offset" := offset], d) == Ok([Text("offset "), Arg(offset)])
    ensures NodeItems(PaginationNode, map["limit" := Nil, "offset" := Nil], d) == Ok([])
  {
    var l, o: seq<Item> := [Text("limit "), Arg(limit)], [Text("offset "), Arg(offset)];
    var none: seq<Item> := [];
    assert l + [Text(" ")] + o == [Text("limit "), Arg(limit), Text(" "), Text("offset "), Arg(offset)];
    assert l + none + none == l && none + none + o == o;
  }

  // ------------------------------------------------------------ rows and keys

  /** The rows of a list are its objects, in order. */
  lemma {:induction false} RowsOfList(a: seq<Value>, b: seq<Value>)
    ensures RowsIn(a + b) == RowsIn(a) + RowsIn(b)
  {
    if b == [] {
      assert a + b == a;
    } else {
      var front, last := b[..|b| - 1], b[|b| - 1];
      RowsOfList(a, front);
      assert (a + b)[..|a + b| - 1] == a + front;
      Regroup(RowsIn(a), RowsIn(front), RowOf(last));
    }
  }

  function RowOf(item: Value): seq<Row> {
    if item.Map? then [item.m] else if item.Dict? then [item.entries] else []
  }

  lemma RowOfItem(item: Value)
    ensures RowsIn([item]) == RowOf(item)
  {
    assert [item][..0] == [];
  }

  /** Rows come from a list of rows or of values; without any row an insert is refused, without the
      parameter it is left out. */
  lemma RowsGiven(params: Params, param: string)
    ensures RowsFor(params, param) ==
            if param !in params then Ok([])
            else if params[param].Rows? && params[param].rows != [] then Ok(params[param].rows)
            else if params[param].List? && RowsIn(params[param].items) != [] then Ok(RowsIn(params[param].items))
            else Err(NeedsRows)
  {
  }

  /** Keys keep their declared order. */
  lemma {:induction false} KeysInOrder(a: seq<string>, b: seq<string>, row: Row)
    ensures KeysIn(a + b, row) == KeysIn(a, row) + KeysIn(b, row)
  {
    if b == [] {
      assert a + b == a;
    } else {
      var front, last := b[..|b| - 1], b[|b| - 1];
      KeysInOrder(a, front, row);
      assert (a + b)[..|a + b| - 1] == a + front;
      Regroup(KeysIn(a, row), KeysIn(front, row), if last in row then [last] else []);
    }
  }
}
