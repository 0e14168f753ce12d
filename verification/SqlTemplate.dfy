/** Template nodes, runtime values and output fragments of the Go query builder.

    A builder's output is kept as a sequence of fragments instead of one string.
    An `Item` carries the bound value in place; a `Token` carries a placeholder index. */
module SqlTemplate {
  import opened Seqs
  import opened Wrappers

  /** The dynamic values (`any`) a template is evaluated against. */
  datatype Value =
    | Nil
    | Bool(b: bool)
    | Str(s: string)
    | Scalar(id: int)
    | List(items: seq<Value>)
    | Map(m: map<string, Value>)
    | Dict(order: seq<string>, entries: map<string, Value>)
    | Rows(rows: seq<map<string, Value>>)

  type Params = map<string, Value>
  type Row = map<string, Value>
  type Condition = v: Value | v.Map? witness Map(map[])

  /** A Go map read: the zero value `nil` for a missing key. */
  function Lookup(m: map<string, Value>, key: string): Value {
    if key in m then m[key] else Nil
  }

  /** The manifest's column map: declared order and SQL text of each column. */
  datatype OrderedMap = OrderedMap(keys: seq<string>, values: map<string, string>) {
    function Get(key: string): Option<string> {
      if key in values then Some(values[key]) else None
    }

    /** `colSQL, _ := columns.Get(key)`: the empty string for an unknown key. */
    function Sql(key: string): string {
      if key in values then values[key] else ""
    }
  }

  datatype Error =
    | SetNeedsObject
    | SetNeedsColumn
    | NeedsRows
    | InvalidOperator(op: string)
    | BetweenNeedsTwo(got: nat)
    | MissingArgument(op: string)  // an index out of range panic in the original
    | InvalidJoin(join: JoinError)
    | NotInTransactSql
    | TextNodeFailed(reason: string)

  /** Why `joinBy` refuses an entry. */
  datatype JoinError =
    | UnknownAlias | UnknownType | NeedsOn | OnMustBeList | OnNeedsCondition | NotATriple | UnknownOperator
    | NotQualified | UnknownPrefix | UnknownColumn

  datatype Node =
    | TextNode(text: string)
    | ParamNode(name: string, isArray: bool)
    | ValueNode(value: Value)
    | WhenNode(param: string, negate: bool, onTrue: seq<Node>, onFalse: seq<Node>)
    | SetNode(param: string, columns: OrderedMap)
    | InsertNode(param: string, columns: OrderedMap)
    | InsertColsNode(param: string, columns: OrderedMap)
    | InsertValuesNode(param: string, keys: seq<string>)
    | FilterNode(param: string, columns: OrderedMap, prefix: Option<string>, suffix: Option<string>)
    | PaginationNode
    | UpsertNode(param: string, columns: OrderedMap, conflictKeys: seq<string>, tableName: string)
    | JoinByNode(param: string, joinMap: map<string, JoinTable>, joinTypes: map<string, string>)
      // order by, projection and window nodes only append text; the window node refuses a
      // numeric RANGE frame in Transact-SQL
    | TextOnlyNode(emit: Params -> Result<string, string>, refuses: Params -> bool)

  /** A table that a query may join at run time. */
  datatype JoinTable = JoinTable(schema: string, table: string, columns: OrderedMap)

  datatype Dialect = PostgreSql | DuckDb | TransactSql | Sqlite

  datatype Frag<+T> =
    | Text(text: string)
    | Name(sql: string)
    | Arg(arg: T)

  type Item = Frag<Value>
  type Token = Frag<nat>

  /** The bound values of `items`, in order. */
  function Args<T>(items: seq<Frag<T>>): seq<T> {
    if items == [] then [] else ArgOf(items[0]) + Args(items[1..])
  }

  function ArgOf<T>(item: Frag<T>): seq<T> {
    if item.Arg? then [item.arg] else []
  }

  /** `items` with each bound value replaced by the next placeholder index. */
  function Number(items: seq<Item>, base: nat): (tokens: seq<Token>)
    ensures |tokens| == |items|
  {
    if items == [] then []
    else [NumberOne(items[0], base)] + Number(items[1..], base + |ArgOf(items[0])|)
  }

  function NumberOne(item: Item, index: nat): Token {
    match item
    case Text(s) => Text(s)
    case Name(s) => Name(s)
    case Arg(_) => Arg(index)
  }

  /** What a driver runs: each placeholder `k` replaced by the `k`-th value. */
  function Resolve(tokens: seq<Token>, values: seq<Value>): (items: seq<Item>)
    ensures |items| == |tokens|
  {
    if tokens == [] then [] else [ResolveOne(tokens[0], values)] + Resolve(tokens[1..], values)
  }

  function ResolveOne(token: Token, values: seq<Value>): Item {
    match token
    case Text(s) => Text(s)
    case Name(s) => Name(s)
    case Arg(k) => Arg(if k < |values| then values[k] else Nil)
  }

  lemma {:induction false} ArgsConcat<T>(a: seq<Frag<T>>, b: seq<Frag<T>>)
    ensures Args(a + b) == Args(a) + Args(b)
  {
    if a == [] {
      assert a + b == b;
    } else {
      ArgsConcat(a[1..], b);
      HeadOfConcat(a, b);
      JoinThree(ArgOf(a[0]), Args(a[1..]), Args(b), Args(a), Args(a + b));
    }
  }

  lemma {:induction false} NumberConcat(a: seq<Item>, b: seq<Item>, base: nat)
    ensures Number(a + b, base) == Number(a, base) + Number(b, base + |Args(a)|)
  {
    if a == [] {
      assert a + b == b;
    } else {
      var next := base + |ArgOf(a[0])|;
      NumberConcat(a[1..], b, next);
      HeadOfConcat(a, b);
      assert next + |Args(a[1..])| == base + |Args(a)|;
      JoinThree([NumberOne(a[0], base)], Number(a[1..], next), Number(b, base + |Args(a)|), Number(a, base), Number(a + b, base));
    }
  }

  predicate Literal(items: seq<Item>) {
    forall i | 0 <= i < |items| :: !items[i].Arg?
  }

  /** Text without bound values is not touched by the numbering. */
  lemma {:induction false} LiteralTokens(items: seq<Item>, base: nat, other: nat)
    requires Literal(items)
    ensures Args(items) == [] && Number(items, base) == Number(items, other)
  {
    if items != [] {
      LiteralTokens(items[1..], base, other);
    }
  }

  /** Literal text behind some items: numbered as it is anywhere, and no further values. */
  lemma LiteralAppend(items: seq<Item>, part: seq<Item>)
    requires Literal(part)
    ensures Number(items + part, 0) == Number(items, 0) + Number(part, 0) && Args(items + part) == Args(items)
  {
    NumberConcat(items, part, 0);
    ArgsConcat(items, part);
    LiteralTokens(part, 0, |Args(items)|);
    assert Args(items) + Args(part) == Args(items);
  }

  /** Placeholders are numbered consecutively: the k-th placeholder has index `base + k`. */
  lemma {:induction false} PlaceholdersInOrder(items: seq<Item>, base: nat)
    ensures |Args(Number(items, base))| == |Args(items)|
    ensures forall k | 0 <= k < |Args(items)| :: Args(Number(items, base))[k] == base + k
  {
    if items != [] {
      var next := base + |ArgOf(items[0])|;
      PlaceholdersInOrder(items[1..], next);
      var first, rest := NumberOne(items[0], base), Number(items[1..], next);
      assert Number(items, base) == [first] + rest;
      assert ([first] + rest)[1..] == rest;
      assert Args(Number(items, base)) == ArgOf(first) + Args(rest);
    }
  }

  lemma ResolveCons(first: Token, rest: seq<Token>, values: seq<Value>)
    ensures Resolve([first] + rest, values) == [ResolveOne(first, values)] + Resolve(rest, values)
  {
    assert ([first] + rest)[0] == first && ([first] + rest)[1..] == rest;
  }

  /** The next value is where the next placeholder looks for it. */
  lemma NextValue(item: Item, args: seq<Value>, rest: seq<Value>, before: seq<Value>, after: seq<Value>)
    requires args == ArgOf(item) + rest
    ensures before + args + after == before + ArgOf(item) + rest + after
    ensures ResolveOne(NumberOne(item, |before|), before + args + after) == item
  {
    assert item.Arg? ==> (before + args + after)[|before|] == item.arg;
  }

  /** A placeholder resolves to its own value wherever the numbered text sits. */
  lemma {:induction false} ResolveNumberAt(items: seq<Item>, before: seq<Value>, after: seq<Value>)
    ensures Resolve(Number(items, |before|), before + Args(items) + after) == items
  {
    if items != [] {
      var before' := before + ArgOf(items[0]);
      NextValue(items[0], Args(items), Args(items[1..]), before, after);
      ResolveNumberAt(items[1..], before', after);
      ResolveCons(NumberOne(items[0], |before|), Number(items[1..], |before'|), before + Args(items) + after);
      assert items == [items[0]] + items[1..];
    }
  }

  /** Every placeholder meets the value it was emitted for. */
  lemma ResolveNumber(items: seq<Item>)
    ensures Resolve(Number(items, 0), Args(items)) == items
  {
    ResolveNumberAt(items, [], []);
    assert [] + Args(items) + [] == Args(items);
  }
}
