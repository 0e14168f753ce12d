/** What each template node contributes to the output, with its bound values in place.

    These functions know nothing of placeholder indices, of counters or of how far
    the output has grown; `SqlBuilder` is proved to append exactly these items. */
module SqlSpec {
  import opened Wrappers
  import opened SqlTemplate
  import opened SqlParts
  import opened SqlJoins

  // ---------------------------------------------------------------- filters

  datatype Op =
    | Eq | Not | Ne | Gt | Ge | Lt | Le | Between | In | NotIn | Like | NotLike | IsNull | IsNotNull

  function FilterOp(op: string): Option<Op> {
    match op
    case "=" => Some(Eq)
    case "not" => Some(Not)
    case "!=" => Some(Ne)
    case ">" => Some(Gt)
    case ">=" => Some(Ge)
    case "<" => Some(Lt)
    case "<=" => Some(Le)
    case "between" => Some(Between)
    case "in" => Some(In)
    case "notIn" => Some(NotIn)
    case "like" => Some(Like)
    case "notLike" => Some(NotLike)
    case "isNull" => Some(IsNull)
    case "isNotNull" => Some(IsNotNull)
    case _ => None
  }

  predicate IsBinary(op: Op) {
    op in {Eq, Not, Ne, Gt, Ge, Lt, Le, Like, NotLike}
  }

  function OpText(op: Op): string {
    match op
    case Eq => " = "
    case Not => " <> "
    case Ne => " <> "
    case Gt => " > "
    case Ge => " >= "
    case Lt => " < "
    case Le => " <= "
    case Between => " between "
    case In => " in ("
    case NotIn => " not in ("
    case Like => " like "
    case NotLike => " not like "
    case IsNull => " is null"
    case IsNotNull => " is not null"
  }

  /** `["in", [a, b]]` and `["in", a, b]` name the same list. */
  function ListOf(args: seq<Value>): seq<Value> {
    if |args| > 0 && args[0].List? then args[0].items else args
  }

  function ArgParts(values: seq<Value>): (parts: seq<seq<Item>>)
    ensures |parts| == |values|
  {
    if values == [] then []
    else ArgParts(values[..|values| - 1]) + [[Arg(values[|values| - 1])]]
  }

  function OpItems(col: string, op: Op, args: seq<Value>): ItemsResult {
    if IsBinary(op) then
      if args == [] then Err(MissingArgument(OpText(op)))
      else Ok([Name(col), Text(OpText(op)), Arg(args[0])])
    else match op
      case Between =>
        if |args| < 2 then Err(BetweenNeedsTwo(|args|))
        else Ok([Name(col), Text(" between "), Arg(args[0]), Text(" and "), Arg(args[1])])
      case In =>
        if ListOf(args) == [] then Ok([Text("1=0")])
        else Ok([Name(col), Text(" in (")] + Join(COMMA, ArgParts(ListOf(args))) + [Text(")")])
      case NotIn =>
        if ListOf(args) == [] then Ok([])
        else Ok([Name(col), Text(" not in (")] + Join(COMMA, ArgParts(ListOf(args))) + [Text(")")])
      case _ => Ok([Name(col), Text(OpText(op))])
  }

  /** A condition value read as an operator with arguments: a bare value is an equality. */
  datatype Reading = Operator(op: Op, args: seq<Value>) | NoSuchOperator(name: string)

  function Read(value: Value): Reading {
    if value.List? && |value.items| >= 1 && value.items[0].Str? then
      match FilterOp(value.items[0].s)
      case Some(op) => Operator(op, value.items[1..])
      case None => NoSuchOperator(value.items[0].s)
    else
      Operator(Eq, [value])
  }

  function EntryItems(col: string, value: Value): ItemsResult {
    match Read(value)
    case Operator(op, args) => OpItems(col, op, args)
    case NoSuchOperator(name) => Err(InvalidOperator(name))
  }

  /** The map conditions among the elements of a list. */
  function Conditions(items: seq<Value>): seq<Condition> {
    if items == [] then [] else Conditions(items[..|items| - 1]) + AsCondition(items[|items| - 1])
  }

  function AsCondition(item: Value): seq<Condition> {
    match item
    case Map(m) => [Map(m)]
    case Dict(_, entries) => [Map(entries)]
    case _ => []
  }

  /** How deeply or-groups nest below a list of values. */
  ghost function OrDepth(items: seq<Value>): nat {
    if items == [] then 0
    else Max(OrDepthOf(items[|items| - 1]), OrDepth(items[..|items| - 1]))
  }

  ghost function OrDepthOf(item: Value): nat {
    match item
    case Map(m) => if "or" in m && m["or"].List? then 1 + OrDepth(m["or"].items) else 0
    case Dict(_, m) => if "or" in m && m["or"].List? then 1 + OrDepth(m["or"].items) else 0
    case _ => 0
  }

  function Max(a: nat, b: nat): nat { if a < b then b else a }

  lemma OrDepthAppend(items: seq<Value>, item: Value)
    ensures OrDepth(items + [item]) == Max(OrDepthOf(item), OrDepth(items))
  {
    var all := items + [item];
    assert all[..|all| - 1] == items && all[|all| - 1] == item;
  }

  /** A value read as a condition has the depth of the value. */
  lemma OrDepthOfCondition(before: seq<Value>, item: Value)
    ensures OrDepth(before + AsCondition(item)) <= Max(OrDepthOf(item), OrDepth(before))
  {
    match item
    case Map(m) => OrDepthAppend(before, Map(m));
    case Dict(_, entries) => OrDepthAppend(before, Map(entries));
    case _ => assert before + [] == before;
  }

  lemma {:induction false} OrDepthOfConditions(items: seq<Value>)
    ensures OrDepth(Conditions(items)) <= OrDepth(items)
  {
    if items != [] {
      var front, item := items[..|items| - 1], items[|items| - 1];
      OrDepthOfConditions(front);
      OrDepthOfCondition(Conditions(front), item);
    }
  }

  lemma {:induction false} OrDepthAt(conditions: seq<Value>, i: nat)
    requires i < |conditions|
    ensures OrDepthOf(conditions[i]) <= OrDepth(conditions)
  {
    if i < |conditions| - 1 {
      OrDepthAt(conditions[..|conditions| - 1], i);
    }
  }

  function Prepend(done: seq<seq<Item>>, rest: PartsResult): PartsResult {
    match rest
    case Ok(parts) => Ok(done + parts)
    case Err(e) => Err(e)
  }

  /** The conditions one plain object stands for, in the declared column order. */
  function ColumnEntries(columns: OrderedMap, keys: seq<string>, m: Row): PartsResult {
    if keys == [] then Ok([])
    else if Lookup(m, keys[0]) == Nil then ColumnEntries(columns, keys[1..], m)
    else
      var entry :- EntryItems(columns.Sql(keys[0]), m[keys[0]]);
      Prepend([entry], ColumnEntries(columns, keys[1..], m))
  }

  function ConditionEntries(columns: OrderedMap, condition: Condition): PartsResult
    decreases OrDepthOf(condition), 0, 1
  {
    if "or" in condition.m then
      if !condition.m["or"].List? then Ok([])
      else
        var alternatives := Conditions(condition.m["or"].items);
        OrDepthOfConditions(condition.m["or"].items);
        if alternatives == [] then Ok([])
        else
          var parts :- Entries(columns, alternatives);
          Ok([[Text("(")] + Join(Text(" or "), parts) + [Text(")")]])
    else
      ColumnEntries(columns, columns.keys, condition.m)
  }

  /** The joined parts of a list of conditions; an or-group is one part. */
  function Entries(columns: OrderedMap, conditions: seq<Condition>): PartsResult
    decreases OrDepth(conditions), |conditions|, 2
  {
    if conditions == [] then Ok([])
    else
      OrDepthAt(conditions, 0);
      OrDepthTail(conditions);
      var first :- ConditionEntries(columns, conditions[0]);
      Prepend(first, Entries(columns, conditions[1..]))
  }

  lemma {:induction false} OrDepthTail(conditions: seq<Value>)
    requires conditions != []
    ensures OrDepth(conditions[1..]) <= OrDepth(conditions)
  {
    if |conditions| > 1 {
      OrDepthTail(conditions[..|conditions| - 1]);
      assert conditions[1..][..|conditions| - 2] == conditions[..|conditions| - 1][1..];
    }
  }

  /** The conditions of a filter parameter: a list, or the legacy object form. */
  function FilterConditions(columns: OrderedMap, value: Value): seq<Condition> {
    match value
    case Dict(order, entries) => ObjectConditions(order, entries)
    case Map(m) => ObjectConditions(columns.keys, m)
    case List(items) => Conditions(items)
    case _ => []
  }

  function ObjectConditions(keys: seq<string>, m: Row): seq<Condition> {
    if keys == [] then []
    else
      var key := keys[|keys| - 1];
      ObjectConditions(keys[..|keys| - 1], m)
      + if Lookup(m, key) != Nil then [Map(map[key := m[key]])] else []
  }

  function OptionalText(text: Option<string>): seq<Item> {
    if text.Some? then [Text(text.value)] else []
  }

  function FilterItems(node: Node, params: Params): ItemsResult
    requires node.FilterNode?
  {
    var conditions := FilterConditions(node.columns, Lookup(params, node.param));
    if conditions == [] then Ok([])
    else
      var parts :- Entries(node.columns, conditions);
      Ok(OptionalText(node.prefix) + Join(Text(" and "), parts) + OptionalText(node.suffix))
  }

  // ------------------------------------------------------- set, insert, upsert

  /** `set` assignments: the keys, in order, that are both given and declared. */
  function SetParts(columns: OrderedMap, order: seq<string>, m: Row): seq<seq<Item>> {
    if order == [] then []
    else
      var key := order[|order| - 1];
      SetParts(columns, order[..|order| - 1], m)
      + if key in m && key in columns.values
        then [SetPart(columns.values[key], m[key])]
        else []
  }

  function SetPart(colSql: string, value: Value): seq<Item> {
    [Name(colSql), Text(" = "), Arg(value)]
  }

  function SetItems(node: Node, params: Params): ItemsResult
    requires node.SetNode?
  {
    match Lookup(params, node.param)
    case Dict(order, entries) =>
      if order == [] then Err(SetNeedsColumn)
      else Ok([Text("set ")] + Join(COMMA, SetParts(node.columns, order, entries)))
    case Map(m) =>
      if m == map[] then Err(SetNeedsColumn)
      else Ok([Text("set ")] + Join(COMMA, SetParts(node.columns, node.columns.keys, m)))
    case _ => Err(SetNeedsObject)
  }

  function RowsIn(items: seq<Value>): seq<Row> {
    if items == [] then []
    else RowsIn(items[..|items| - 1]) + match items[|items| - 1]
      case Map(m) => [m]
      case Dict(_, entries) => [entries]
      case _ => []
  }

  function RowList(value: Value): seq<Row> {
    match value
    case Rows(rows) => rows
    case List(items) => RowsIn(items)
    case _ => []
  }

  /** The keys, in order, that the first row has. */
  function KeysIn(keys: seq<string>, row: Row): seq<string> {
    if keys == [] then []
    else KeysIn(keys[..|keys| - 1], row)
         + if keys[|keys| - 1] in row then [keys[|keys| - 1]] else []
  }

  function NameParts(columns: OrderedMap, keys: seq<string>): (parts: seq<seq<Item>>)
    ensures |parts| == |keys|
  {
    if keys == [] then []
    else NameParts(columns, keys[..|keys| - 1]) + [[Name(columns.Sql(keys[|keys| - 1]))]]
  }

  function CellParts(keys: seq<string>, row: Row): (parts: seq<seq<Item>>)
    ensures |parts| == |keys|
  {
    if keys == [] then []
    else CellParts(keys[..|keys| - 1], row) + [[Arg(Lookup(row, keys[|keys| - 1]))]]
  }

  function TupleItems(keys: seq<string>, row: Row): seq<Item> {
    [Text("(")] + Join(COMMA, CellParts(keys, row)) + [Text(")")]
  }

  function TupleParts(keys: seq<string>, rows: seq<Row>): (parts: seq<seq<Item>>)
    ensures |parts| == |rows|
  {
    if rows == [] then []
    else TupleParts(keys, rows[..|rows| - 1]) + [TupleItems(keys, rows[|rows| - 1])]
  }

  function ColumnList(columns: OrderedMap, keys: seq<string>): seq<Item> {
    Join(COMMA, NameParts(columns, keys))
  }

  function TupleList(keys: seq<string>, rows: seq<Row>): seq<Item> {
    Join(COMMA, TupleParts(keys, rows))
  }

  function InsertItems(columns: OrderedMap, rows: seq<Row>): seq<Item>
    requires rows != []
  {
    var keys := KeysIn(columns.keys, rows[0]);
    [Text("(")] + ColumnList(columns, keys) + [Text(") values ")] + TupleList(keys, rows)
  }

  function UpdateParts(columns: OrderedMap, keys: seq<string>, conflict: set<string>, source: string)
    : seq<seq<Item>>
  {
    if keys == [] then []
    else
      var col := columns.Sql(keys[|keys| - 1]);
      UpdateParts(columns, keys[..|keys| - 1], conflict, source)
      + if keys[|keys| - 1] in conflict then [] else [[Name(col), Text(source), Name(col)]]
  }

  function MatchParts(columns: OrderedMap, table: string, keys: seq<string>): (parts: seq<seq<Item>>)
    ensures |parts| == |keys|
  {
    if keys == [] then []
    else
      var col := columns.Sql(keys[|keys| - 1]);
      MatchParts(columns, table, keys[..|keys| - 1])
      + [MatchPart(table, col)]
  }

  function MatchPart(table: string, col: string): (part: seq<Item>)
    ensures Literal(part)
  {
    [Name(table), Text("."), Name(col), Text(" = src."), Name(col)]
  }

  function SourceParts(columns: OrderedMap, keys: seq<string>): (parts: seq<seq<Item>>)
    ensures |parts| == |keys|
  {
    if keys == [] then []
    else SourceParts(columns, keys[..|keys| - 1])
         + [[Text("src."), Name(columns.Sql(keys[|keys| - 1]))]]
  }

  const ON_CONFLICT := " on conflict ("
  const DO_UPDATE := ") do update set "
  const WHEN_MATCHED := ") when matched then update set "
  const WHEN_NOT_MATCHED := " when not matched then insert ("

  function UpsertConflict(node: Node, keys: seq<string>, rows: seq<Row>): seq<Item>
    requires node.UpsertNode?
  {
    [Text("(")] + ColumnList(node.columns, keys) + [Text(") values ")] + TupleList(keys, rows)
    + [Text(ON_CONFLICT)] + ColumnList(node.columns, node.conflictKeys) + [Text(DO_UPDATE)]
    + Join(COMMA, UpdateParts(node.columns, keys, ConflictSet(node), " = excluded."))
  }

  function MergeSource(node: Node, keys: seq<string>, rows: seq<Row>): seq<Item>
    requires node.UpsertNode?
  {
    [Text("using (values ")] + TupleList(keys, rows) + [Text(") as src(")] + ColumnList(node.columns, keys)
    + [Text(") on (")] + Join(Text(" and "), MatchParts(node.columns, node.tableName, node.conflictKeys))
  }

  function MergeActions(node: Node, keys: seq<string>): seq<Item>
    requires node.UpsertNode?
  {
    [Text(WHEN_MATCHED)] + Join(COMMA, UpdateParts(node.columns, keys, ConflictSet(node), " = src."))
    + [Text(WHEN_NOT_MATCHED)] + ColumnList(node.columns, keys)
    + [Text(") values (")] + Join(COMMA, SourceParts(node.columns, keys)) + [Text(")")]
  }

  function UpsertMerge(node: Node, keys: seq<string>, rows: seq<Row>): seq<Item>
    requires node.UpsertNode?
  {
    MergeSource(node, keys, rows) + MergeActions(node, keys)
  }

  function ConflictSet(node: Node): set<string>
    requires node.UpsertNode?
  {
    set key | key in node.conflictKeys
  }

  function UpsertItems(node: Node, rows: seq<Row>, dialect: Dialect): seq<Item>
    requires node.UpsertNode? && rows != []
  {
    var keys := KeysIn(node.columns.keys, rows[0]);
    if dialect == TransactSql then UpsertMerge(node, keys, rows) else UpsertConflict(node, keys, rows)
  }

  // ------------------------------------------------------------- whole templates

  function ParamItems(name: string, isArray: bool, params: Params): seq<Item> {
    var value := Lookup(params, name);
    if isArray && value.List? then Join(COMMA, ArgParts(value.items)) else [Arg(value)]
  }

  predicate IsPresent(params: Params, param: string) {
    param in params && params[param] != Nil && params[param] != Bool(false)
  }

  function PaginationItems(params: Params): seq<Item> {
    var limit, offset := Lookup(params, "limit"), Lookup(params, "offset");
    (if limit == Nil then [] else [Text("limit "), Arg(limit)])
    + (if limit == Nil || offset == Nil then [] else [Text(" ")])
    + (if offset == Nil then [] else [Text("offset "), Arg(offset)])
  }

  /** The rows of an insert-like node; without the parameter it emits nothing. */
  function RowsFor(params: Params, param: string): Result<seq<Row>, Error> {
    if param !in params then Ok([])
    else if RowList(params[param]) == [] then Err(NeedsRows)
    else Ok(RowList(params[param]))
  }

  ghost function NodeItems(node: Node, params: Params, dialect: Dialect): ItemsResult {
    match node
    case TextNode(text) => Ok([Text(text)])
    case ParamNode(name, isArray) => Ok(ParamItems(name, isArray, params))
    case ValueNode(value) => Ok([Arg(value)])
    case WhenNode(param, negate, onTrue, onFalse) =>
      TemplateItems(if IsPresent(params, param) != negate then onTrue else onFalse, params, dialect)
    case SetNode(_, _) => SetItems(node, params)
    case InsertNode(param, columns) =>
      var rows :- RowsFor(params, param);
      Ok(if rows == [] then [] else InsertItems(columns, rows))
    case InsertColsNode(param, columns) =>
      var rows :- RowsFor(params, param);
      Ok(if rows == [] then [] else ColumnList(columns, KeysIn(columns.keys, rows[0])))
    case InsertValuesNode(param, keys) =>
      var rows :- RowsFor(params, param);
      Ok(if rows == [] then [] else TupleList(KeysIn(keys, rows[0]), rows))
    case FilterNode(_, _, _, _) => FilterItems(node, params)
    case PaginationNode => Ok(PaginationItems(params))
    case UpsertNode(param, _, _, _) =>
      var rows :- RowsFor(params, param);
      Ok(if rows == [] then [] else UpsertItems(node, rows, dialect))
    case JoinByNode(_, _, _) => JoinByItems(node, params)
    case TextOnlyNode(emit, refuses) =>
      if dialect == TransactSql && refuses(params) then Err(NotInTransactSql)
      else
        match emit(params)
        case Ok(text) => Ok([Text(text)])
        case Err(reason) => Err(TextNodeFailed(reason))
  }

  ghost function TemplateItems(nodes: seq<Node>, params: Params, dialect: Dialect): ItemsResult {
    if nodes == [] then Ok([])
    else
      var first :- NodeItems(nodes[0], params, dialect);
      var rest :- TemplateItems(nodes[1..], params, dialect);
      Ok(first + rest)
  }
}
