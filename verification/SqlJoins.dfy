/** What a `joinBy` parameter asks for, and the fragments it is written as. */
module SqlJoins {
  import opened Wrappers
  import opened SqlTemplate
  import opened SqlParts
  import Strings

  datatype OnClause = OnClause(left: string, op: string, right: string)

  /** One join; a cross join has no conditions. */
  datatype JoinClause = JoinClause(keyword: string, table: string, alias: string, on: seq<OnClause>)

  type Joined<T> = Result<T, JoinError>

  /** The aliases in the order they are joined: as given, or sorted when the order is lost. */
  ghost function Aliases(value: Value): seq<string> {
    match value
    case Dict(order, _) => order
    case Map(m) => Strings.SortedKeys(m.Keys)
    case _ => []
  }

  /** The entry of an alias, if it is an object. */
  function EntryOf(value: Value, alias: string): Option<map<string, Value>> {
    var found := if value.Dict? then Lookup(value.entries, alias) else if value.Map? then Lookup(value.m, alias) else Nil;
    match found
    case Map(m) => Some(m)
    case Dict(_, entries) => Some(entries)
    case _ => None
  }

  function LowerChar(c: char): char {
    if 'A' <= c <= 'Z' then (c as int + 32) as char else c
  }

  function Lower(s: string): string {
    seq(|s|, i requires 0 <= i < |s| => LowerChar(s[i]))
  }

  function JoinType(node: Node, alias: string, entry: map<string, Value>): string
    requires node.JoinByNode?
  {
    if "type" in entry then
      if entry["type"].Str? && entry["type"].s != "" then Lower(entry["type"].s) else "inner"
    else if alias in node.joinTypes then Lower(node.joinTypes[alias])
    else "inner"
  }

  function Keyword(joinType: string): Joined<string> {
    match joinType
    case "inner" => Ok("JOIN")
    case "left" => Ok("LEFT JOIN")
    case "right" => Ok("RIGHT JOIN")
    case "full" => Ok("FULL JOIN")
    case "cross" => Ok("CROSS JOIN")
    case _ => Err(UnknownType)
  }

  const OPERATORS: set<string> := {"=", "<", "<=", ">", ">=", "<>"}

  function Quoted(name: string): string {
    "\"" + name + "\""
  }

  function QualifiedTable(t: JoinTable): string {
    if t.schema != "" then Quoted(t.schema) + "." + Quoted(t.table) else Quoted(t.table)
  }

  /** The alias in front of the first column's SQL text. */
  function AliasText(columns: OrderedMap, fallback: string): string {
    if columns.keys == [] then Quoted(fallback)
    else
      var first := columns.Sql(columns.keys[0]);
      var dot := Strings.FirstDot(first);
      if 0 < dot < |first| then first[..dot] else Quoted(fallback)
  }

  /** `prefix.column`, looked up in the tables that may be joined. */
  function ResolveColumn(ref: string, joinMap: map<string, JoinTable>): Joined<string> {
    var dot := Strings.FirstDot(ref);
    if dot == |ref| then Err(NotQualified)
    else if ref[..dot] !in joinMap then Err(UnknownPrefix)
    else
      match joinMap[ref[..dot]].columns.Get(ref[dot + 1..])
      case Some(sql) => Ok(sql)
      case None => Err(UnknownColumn)
  }

  function TextOf(value: Value): string {
    if value.Str? then value.s else ""
  }

  function ConditionOf(value: Value, joinMap: map<string, JoinTable>): Joined<OnClause> {
    if !value.List? || |value.items| < 3 then Err(NotATriple)
    else if TextOf(value.items[1]) !in OPERATORS then Err(UnknownOperator)
    else
      var left :- ResolveColumn(TextOf(value.items[0]), joinMap);
      var right :- ResolveColumn(TextOf(value.items[2]), joinMap);
      Ok(OnClause(left, TextOf(value.items[1]), right))
  }

  function ConditionsOf(list: seq<Value>, joinMap: map<string, JoinTable>): Joined<seq<OnClause>> {
    if list == [] then Ok([])
    else
      var before :- ConditionsOf(list[..|list| - 1], joinMap);
      var last :- ConditionOf(list[|list| - 1], joinMap);
      Ok(before + [last])
  }

  function OnOf(entry: map<string, Value>, joinMap: map<string, JoinTable>): Joined<seq<OnClause>> {
    if "on" !in entry then Err(NeedsOn)
    else if !entry["on"].List? then Err(OnMustBeList)
    else if entry["on"].items == [] then Err(OnNeedsCondition)
    else ConditionsOf(entry["on"].items, joinMap)
  }

  function ClauseOf(node: Node, alias: string, entry: map<string, Value>): Joined<JoinClause>
    requires node.JoinByNode?
  {
    if alias !in node.joinMap then Err(UnknownAlias)
    else
      var table := node.joinMap[alias];
      var joinType := JoinType(node, alias, entry);
      var keyword :- Keyword(joinType);
      var on :- if joinType == "cross" then Ok([]) else OnOf(entry, node.joinMap);
      Ok(JoinClause(keyword, QualifiedTable(table), AliasText(table.columns, alias), on))
  }

  /** One clause per alias whose entry is an object. */
  function Clauses(node: Node, value: Value, aliases: seq<string>): Joined<seq<JoinClause>>
    requires node.JoinByNode?
  {
    if aliases == [] then Ok([])
    else
      var alias := aliases[|aliases| - 1];
      var before :- Clauses(node, value, aliases[..|aliases| - 1]);
      match EntryOf(value, alias)
      case None => Ok(before)
      case Some(entry) =>
        var clause :- ClauseOf(node, alias, entry);
        Ok(before + [clause])
  }

  // ------------------------------------------------------------- as fragments

  const ON: Item := Text(" ON ")
  const AND: Item := Text(" AND ")

  function Head(c: JoinClause): string {
    " " + c.keyword + " " + c.table + " as " + c.alias
  }

  function OnPart(o: OnClause): seq<Item> {
    [Name(o.left), Text(" " + o.op + " "), Name(o.right)]
  }

  function OnParts(on: seq<OnClause>): (parts: seq<seq<Item>>)
    ensures |parts| == |on|
  {
    if on == [] then [] else OnParts(on[..|on| - 1]) + [OnPart(on[|on| - 1])]
  }

  function OnItems(on: seq<OnClause>): seq<Item> {
    if on == [] then [] else [ON] + Join(AND, OnParts(on))
  }

  function ClauseItems(c: JoinClause): seq<Item> {
    [Text(Head(c))] + OnItems(c.on)
  }

  function AllItems(clauses: seq<JoinClause>): seq<Item> {
    if clauses == [] then [] else AllItems(clauses[..|clauses| - 1]) + ClauseItems(clauses[|clauses| - 1])
  }

  ghost function JoinByItems(node: Node, params: Params): ItemsResult
    requires node.JoinByNode?
  {
    var value := Lookup(params, node.param);
    match Clauses(node, value, Aliases(value))
    case Ok(clauses) => Ok(AllItems(clauses))
    case Err(e) => Err(InvalidJoin(e))
  }
}
