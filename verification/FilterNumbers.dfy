/** What single conditions say, operator by operator: the text that is emitted, and its truth on rows
    whose columns hold integers or nothing. */
module FilterNumbers {
  import opened Wrappers
  import opened SqlTemplate
  import opened SqlParts
  import opened SqlSpec
  import opened Seqs
  import opened SearchCondition
  import opened FilterMeaning

  type Cells = string -> Option<int>

  function Numbers(ns: seq<int>): (values: seq<Value>)
    ensures |values| == |ns| && forall i | 0 <= i < |ns| :: values[i] == Scalar(ns[i])
  {
    seq(|ns|, i requires 0 <= i < |ns| => Scalar(ns[i]))
  }

  function Integers(values: seq<Value>): (ns: seq<int>)
    requires forall value | value in values :: value.Scalar?
    ensures |ns| == |values| && forall i | 0 <= i < |ns| :: ns[i] == values[i].id
  {
    seq(|values|, i requires 0 <= i < |values| => values[i].id)
  }

  function Truth(b: bool): Tri {
    if b then True else False
  }

  function CompareOne(op: Op, x: int, n: int): Tri {
    match op
    case Eq => Truth(x == n)
    case Ne => Truth(x != n)
    case Gt => Truth(x > n)
    case Ge => Truth(x >= n)
    case Lt => Truth(x < n)
    case Le => Truth(x <= n)
    case _ => Unknown
  }

  /** SQL's comparisons of an integer; those of texts are left open. */
  function Compare(op: Op, x: int, ns: seq<int>): Tri {
    if op == Between then if |ns| == 2 then Truth(ns[0] <= x && x <= ns[1]) else Unknown
    else if op == In then Truth(x in ns)
    else if op == NotIn then Truth(x !in ns)
    else if |ns| == 1 then CompareOne(op, x, ns[0])
    else Unknown
  }

  /** The truth of SQL's predicates on a row of integers: nothing compares with an absent value. */
  function On(cells: Cells): World {
    (col: string, op: Op, args: seq<Value>) =>
      if op == IsNull then Truth(cells(col) == None)
      else if op == IsNotNull then Truth(cells(col) != None)
      else if cells(col) == None || exists value | value in args :: !value.Scalar? then Unknown
      else Compare(op, cells(col).value, Integers(args))
  }

  /** What a filter's operator asks of an integer. */
  predicate Meets(name: string, x: int, ns: seq<int>) {
    match name
    case "=" => ns != [] && x == ns[0]
    case "not" => ns != [] && x != ns[0]
    case "!=" => ns != [] && x != ns[0]
    case ">" => ns != [] && x > ns[0]
    case ">=" => ns != [] && x >= ns[0]
    case "<" => ns != [] && x < ns[0]
    case "<=" => ns != [] && x <= ns[0]
    case "between" => |ns| == 2 && ns[0] <= x <= ns[1]
    case "in" => x in ns
    case "notIn" => x !in ns
    case _ => false
  }

  /** The operator has the arguments it needs. */
  predicate Complete(name: string, ns: seq<int>) {
    if name in {"=", "not", "!=", ">", ">=", "<", "<="} then |ns| == 1
    else if name == "between" then |ns| == 2
    else name in {"in", "notIn"} && ns != []
  }

  function Condition(name: string, ns: seq<int>): Value {
    List([Str(name)] + Numbers(ns))
  }

  lemma ConditionTruth(col: string, name: string, ns: seq<int>, cells: Cells)
    requires Complete(name, ns)
    ensures EntryTruth(col, Condition(name, ns), Coded(On(cells))) ==
            if cells(col) == None then Unknown else Truth(Meets(name, cells(col).value, ns))
  {
    var args := Numbers(ns);
    assert Condition(name, ns).items[1..] == args && Members(args) == args;
    OnNumbers(col, cells, ns);
    if |ns| == 1 && name != "in" && name != "notIn" {
      assert Leading(args, 1) == args;
      ComparisonTruth(col, name, ns, cells);
    } else if name == "between" {
      assert Leading(args, 2) == args;
    }
  }

  lemma ComparisonTruth(col: string, name: string, ns: seq<int>, cells: Cells)
    requires Complete(name, ns) && name !in {"in", "notIn", "between"}
    ensures OperatorTruth(col, name, Numbers(ns), Coded(On(cells))) ==
            if cells(col) == None then Unknown else Truth(Meets(name, cells(col).value, ns))
  {
    assert Leading(Numbers(ns), 1) == Numbers(ns);
    OnNumbers(col, cells, ns);
  }

  lemma OnNumbers(col: string, cells: Cells, ns: seq<int>)
    ensures forall op | op != IsNull && op != IsNotNull ::
              On(cells)(col, op, Numbers(ns)) == if cells(col) == None then Unknown else Compare(op, cells(col).value, ns)
  {
    assert Integers(Numbers(ns)) == ns;
  }

  /** One condition is one search condition, as true as it means. */
  lemma EntryParses(col: string, value: Value, w: World)
    requires EntryItems(col, value).Ok? && CleanValue(value)
    ensures var e := ParseAll(EntryItems(col, value).value);
            e.Some? && Eval(e.value, w) == EntryTruth(col, value, Coded(w))
  {
    var part, t := EntryItems(col, value).value, EntryTruth(col, value, Coded(w));
    EntrySolid(col, value, w);
    LevelMeans(true, [part], [t], true, w, []);
    assert Join(Joiner(true), [part]) + [] == part;
    assert Conj([t]) == t;
  }

  /** On a row of integers the text of a condition is true exactly when the column's value meets it,
      and unknown when there is none. */
  lemma ConditionOnNumbers(col: string, name: string, ns: seq<int>, cells: Cells)
    requires Complete(name, ns)
    ensures EntryItems(col, Condition(name, ns)).Ok?
    ensures var e := ParseAll(EntryItems(col, Condition(name, ns)).value);
            e.Some? &&
            Eval(e.value, On(cells)) == if cells(col) == None then Unknown else Truth(Meets(name, cells(col).value, ns))
  {
    var args := Numbers(ns);
    assert Condition(name, ns).items[1..] == args;
    EntryParses(col, Condition(name, ns), On(cells));
    ConditionTruth(col, name, ns, cells);
  }

  // ------------------------------------------------------------ documented texts

  /** The SQL the documentation lists for each operator with one argument. */
  function Documented1(name: string): Option<string> {
    match name
    case "=" => Some(" = ")
    case "not" => Some(" <> ")
    case "!=" => Some(" <> ")
    case ">" => Some(" > ")
    case ">=" => Some(" >= ")
    case "<" => Some(" < ")
    case "<=" => Some(" <= ")
    case "like" => Some(" like ")
    case "notLike" => Some(" not like ")
    case _ => None
  }

  lemma OperatorText(col: string, name: string, v: Value)
    requires Documented1(name).Some?
    ensures EntryItems(col, List([Str(name), v])) == Ok([Name(col), Text(Documented1(name).value), Arg(v)])
  {
    assert List([Str(name), v]).items[1..] == [v];
  }

  lemma OtherTexts(col: string, v: Value, w: Value)
    ensures !v.List? ==> EntryItems(col, v) == Ok([Name(col), Text(" = "), Arg(v)])
    ensures EntryItems(col, List([Str("isNull")])) == Ok([Name(col), Text(" is null")])
    ensures EntryItems(col, List([Str("isNotNull")])) == Ok([Name(col), Text(" is not null")])
    ensures EntryItems(col, List([Str("between"), v, w])) ==
            Ok([Name(col), Text(" between "), Arg(v), Text(" and "), Arg(w)])
  {
    assert List([Str("between"), v, w]).items[1..] == [v, w];
  }

  /** A list is written with commas between its members, whether given as one list or one by one. */
  lemma ListTexts(col: string, v: Value, w: Value, args: seq<Value>)
    requires (args == [v, w] && !v.List?) || args == [List([v, w])]
    ensures EntryItems(col, List([Str("in")] + args)) ==
            Ok([Name(col), Text(" in (")] + [Arg(v), COMMA, Arg(w)] + [Text(")")])
    ensures EntryItems(col, List([Str("notIn")] + args)) ==
            Ok([Name(col), Text(" not in (")] + [Arg(v), COMMA, Arg(w)] + [Text(")")])
  {
    assert ListOf(args) == [v, w];
    TwoArgs(v, w);
    assert OpItems(col, In, args) == Ok([Name(col), Text(" in (")] + [Arg(v), COMMA, Arg(w)] + [Text(")")]);
    assert OpItems(col, NotIn, args) == Ok([Name(col), Text(" not in (")] + [Arg(v), COMMA, Arg(w)] + [Text(")")]);
    OperatorOf("in", args);
    OperatorOf("notIn", args);
  }

  lemma OperatorOf(name: string, args: seq<Value>)
    requires FilterOp(name).Some?
    ensures Read(List([Str(name)] + args)) == Operator(FilterOp(name).value, args)
  {
    assert ([Str(name)] + args)[1..] == args;
  }

  lemma TwoArgs(v: Value, w: Value)
    ensures Join(COMMA, ArgParts([v, w])) == [Arg(v), COMMA, Arg(w)]
  {
    var args := [v, w];
    assert args[..1] == [v] && [v][..0] == [];
    assert ArgParts([v]) == [[Arg(v)]];
    assert ArgParts(args) == [[Arg(v)], [Arg(w)]];
    var parts: seq<seq<Item>> := [[Arg(v)], [Arg(w)]];
    assert parts[..1] == [[Arg(v)]];
  }

  /** The text tests name the operator that is asked for. */
  lemma TextTests(col: string, v: Value)
    ensures ParseAll([Name(col), Text(" like "), Arg(v)]) == Some(Pred(col, Like, [v]))
    ensures ParseAll([Name(col), Text(" not like "), Arg(v)]) == Some(Pred(col, NotLike, [v]))
    ensures ParseAll([Name(col), Text(" is null")]) == Some(Pred(col, IsNull, []))
    ensures ParseAll([Name(col), Text(" is not null")]) == Some(Pred(col, IsNotNull, []))
  {
    LikeParses(col, Like, v);
    LikeParses(col, NotLike, v);
    NullTestParses(col, IsNull);
    NullTestParses(col, IsNotNull);
  }

  lemma LikeParses(col: string, op: Op, v: Value)
    requires op == Like || op == NotLike
    ensures ParseAll([Name(col), Text(OpText(op)), Arg(v)]) == Some(Pred(col, op, [v]))
  {
    BinarySolid(col, op, v);
    OnePartParses([Name(col), Text(OpText(op)), Arg(v)]);
  }

  lemma NullTestParses(col: string, op: Op)
    requires op == IsNull || op == IsNotNull
    ensures ParseAll([Name(col), Text(OpText(op))]) == Some(Pred(col, op, []))
  {
    NullTestSolid(col, op);
    OnePartParses([Name(col), Text(OpText(op))]);
  }

  lemma OnePartParses(part: seq<Item>)
    requires Solid(part)
    ensures ParseAll(part) == Some(ExprOf(part))
  {
    SolidNotBroken(part);
    assert [part][0] == part;
    LevelParses(true, [part], []);
    assert Join(Joiner(true), [part]) + [] == part;
  }

  // ------------------------------------------------------- conditions of a filter

  /** A list's conditions are its objects, in order; anything else in it is passed over. */
  lemma {:induction false} ConditionsOfList(a: seq<Value>, b: seq<Value>)
    ensures Conditions(a + b) == Conditions(a) + Conditions(b)
  {
    if b == [] {
      assert a + b == a;
    } else {
      var front, last := b[..|b| - 1], b[|b| - 1];
      ConditionsOfList(a, front);
      assert (a + b)[..|a + b| - 1] == a + front;
      Regroup(Conditions(a), Conditions(front), AsCondition(last));
    }
  }

  lemma ConditionOfItem(item: Value)
    ensures Conditions([item]) == if item.Map? then [item] else if item.Dict? then [Map(item.entries)] else []
  {
    assert [item][..0] == [];
  }

  /** The object form stands for the conjunction of its columns, in the object's own order or in the
      declared one; absent values ask for nothing. */
  lemma ObjectForm(columns: OrderedMap, value: Value, w: World)
    requires AllDifferent(columns.keys) && "or" !in columns.keys
    requires value.Map? || (value.Dict? && forall key | key in value.order :: key in columns.keys)
    ensures FilterTruth(columns, FilterConditions(columns, value), w) ==
            Conj(if value.Map? then ColumnTruths(columns, columns.keys, value.m, Coded(w))
                 else ColumnTruths(columns, value.order, value.entries, Coded(w)))
  {
    if value.Map? {
      ObjectTruths(columns, columns.keys, value.m, w);
    } else {
      ObjectTruths(columns, value.order, value.entries, w);
    }
  }

  lemma {:induction false} ObjectTruths(columns: OrderedMap, keys: seq<string>, m: Row, w: World)
    requires AllDifferent(columns.keys) && "or" !in columns.keys && forall key | key in keys :: key in columns.keys
    ensures Truths(columns, ObjectConditions(keys, m), Coded(w)) == ColumnTruths(columns, keys, m, Coded(w))
  {
    if keys == [] {
      assert Truths(columns, [], Coded(w)) == [];
    } else {
      var front, key := keys[..|keys| - 1], keys[|keys| - 1];
      ObjectTruths(columns, front, m, w);
      assert keys == front + [key];
      ColumnTruthsAppend(columns, front, key, m, w);
      var before := ObjectConditions(front, m);
      if Lookup(m, key) != Nil {
        var one: Condition := Map(map[key := m[key]]);
        TruthsAppend(columns, before, one, w);
        OneKey(columns, columns.keys, key, m[key], w);
        assert ObjectConditions(keys, m) == before + [one];
      } else {
        assert ObjectConditions(keys, m) == before + [] == before;
      }
    }
  }

  lemma {:induction false} ColumnTruthsAppend(columns: OrderedMap, keys: seq<string>, key: string, m: Row, w: World)
    ensures ColumnTruths(columns, keys + [key], m, Coded(w)) ==
            ColumnTruths(columns, keys, m, Coded(w))
            + if Lookup(m, key) == Nil then [] else [EntryTruth(columns.Sql(key), m[key], Coded(w))]
  {
    if keys == [] {
      assert [key][1..] == [] && keys + [key] == [key];
    } else {
      assert (keys + [key])[1..] == keys[1..] + [key] && (keys + [key])[0] == keys[0];
      ColumnTruthsAppend(columns, keys[1..], key, m, w);
    }
  }

  lemma {:induction false} TruthsAppend(columns: OrderedMap, conditions: seq<Condition>, last: Condition, w: World)
    ensures Truths(columns, conditions + [last], Coded(w)) ==
            Truths(columns, conditions, Coded(w)) + ConditionTruths(columns, last, Coded(w))
  {
    if conditions == [] {
      var one: seq<Condition> := [last];
      assert one[1..] == [] && conditions + [last] == one;
      assert Truths(columns, one[1..], Coded(w)) == [];
    } else {
      assert (conditions + [last])[1..] == conditions[1..] + [last] && (conditions + [last])[0] == conditions[0];
      TruthsAppend(columns, conditions[1..], last, w);
    }
  }

  /** An object of one declared column asks for that column only. */
  lemma {:induction false} OneKey(columns: OrderedMap, keys: seq<string>, key: string, value: Value, w: World)
    requires AllDifferent(keys) && value != Nil
    ensures ColumnTruths(columns, keys, map[key := value], Coded(w)) ==
            if key in keys then [EntryTruth(columns.Sql(key), value, Coded(w))] else []
  {
    if keys != [] {
      assert keys == [keys[0]] + keys[1..];
      OneKey(columns, keys[1..], key, value, w);
      assert forall i | 0 <= i < |keys| - 1 :: keys[1..][i] == keys[i + 1] != keys[0];
    }
  }
}
