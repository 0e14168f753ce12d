/** What a runtime filter means, and that the emitted SQL says exactly that. */
module FilterMeaning {
  import opened Wrappers
  import opened SqlTemplate
  import opened SqlParts
  import opened SqlSpec
  import opened Seqs
  import opened SearchCondition

  /** SQL conjunction of any number of truth values. */
  function Conj(ts: seq<Tri>): Tri {
    if False in ts then False else if Unknown in ts then Unknown else True
  }

  function Disj(ts: seq<Tri>): Tri {
    if True in ts then True else if Unknown in ts then Unknown else False
  }

  /** The code's reading of empty lists: nothing is in one. */
  function Coded(w: World): World {
    (col: string, op: Op, args: seq<Value>) =>
      if args == [] && op == In then False
      else if args == [] && op == NotIn then True
      else w(col, op, args)
  }

  /** The documentation's reading: an empty list asks whether the value is absent. */
  function Documented(w: World): World {
    (col: string, op: Op, args: seq<Value>) =>
      if args == [] && (op == In || op == Between) then w(col, IsNull, [])
      else if args == [] && op == NotIn then w(col, IsNotNull, [])
      else w(col, op, args)
  }

  function Leading(args: seq<Value>, n: nat): seq<Value> {
    if |args| < n then args else args[..n]
  }

  /** The members of a list, given as one list or one by one. */
  function Members(args: seq<Value>): seq<Value> {
    if args != [] && args[0].List? then args[0].items else args
  }

  /** What a filter's operator asks of a column. */
  function OperatorTruth(col: string, name: string, args: seq<Value>, w: World): Tri {
    match name
    case "=" => w(col, Eq, Leading(args, 1))
    case "not" => w(col, Ne, Leading(args, 1))
    case "!=" => w(col, Ne, Leading(args, 1))
    case ">" => w(col, Gt, Leading(args, 1))
    case ">=" => w(col, Ge, Leading(args, 1))
    case "<" => w(col, Lt, Leading(args, 1))
    case "<=" => w(col, Le, Leading(args, 1))
    case "between" => w(col, Between, Leading(args, 2))
    case "in" => w(col, In, Members(args))
    case "notIn" => w(col, NotIn, Members(args))
    case "like" => w(col, Like, Leading(args, 1))
    case "notLike" => w(col, NotLike, Leading(args, 1))
    case "isNull" => w(col, IsNull, [])
    case "isNotNull" => w(col, IsNotNull, [])
    case _ => Unknown
  }

  /** A list led by a text is an operator with its arguments, any other value asks for equality. */
  function EntryTruth(col: string, value: Value, w: World): Tri {
    if value.List? && value.items != [] && value.items[0].Str?
    then OperatorTruth(col, value.items[0].s, value.items[1..], w)
    else w(col, Eq, [value])
  }

  function ColumnTruths(columns: OrderedMap, keys: seq<string>, m: Row, w: World): seq<Tri> {
    if keys == [] then []
    else (if Lookup(m, keys[0]) == Nil then [] else [EntryTruth(columns.Sql(keys[0]), m[keys[0]], w)])
         + ColumnTruths(columns, keys[1..], m, w)
  }

  /** The truth values one condition adds to the connective it stands under. */
  function ConditionTruths(columns: OrderedMap, condition: Condition, w: World): seq<Tri>
    decreases OrDepthOf(condition), 0, 1
  {
    if "or" in condition.m then
      if !condition.m["or"].List? then []
      else
        var alternatives := Conditions(condition.m["or"].items);
        OrDepthOfConditions(condition.m["or"].items);
        if alternatives == [] then [] else [Disj(Truths(columns, alternatives, w))]
    else
      ColumnTruths(columns, columns.keys, condition.m, w)
  }

  function Truths(columns: OrderedMap, conditions: seq<Condition>, w: World): seq<Tri>
    decreases OrDepth(conditions), |conditions|, 2
  {
    if conditions == [] then []
    else
      OrDepthAt(conditions, 0);
      OrDepthTail(conditions);
      ConditionTruths(columns, conditions[0], w) + Truths(columns, conditions[1..], w)
  }

  /** A row passes a filter when all its conditions and or-groups hold. */
  function FilterTruth(columns: OrderedMap, conditions: seq<Condition>, w: World): Tri {
    Conj(Truths(columns, conditions, Coded(w)))
  }

  /** When it should pass by the documentation. */
  function DocumentedTruth(columns: OrderedMap, conditions: seq<Condition>, w: World): Tri {
    Conj(Truths(columns, conditions, Documented(w)))
  }

  // ---------------------------------------------- which filters compile well

  /** Not an exclusion list that excludes nothing. */
  predicate CleanValue(value: Value) {
    value.List? && value.items != [] && value.items[0] == Str("notIn") ==> Members(value.items[1..]) != []
  }

  predicate CleanColumns(keys: seq<string>, m: Row) {
    forall key | key in keys && Lookup(m, key) != Nil :: CleanValue(m[key])
  }

  predicate CleanCondition(columns: OrderedMap, condition: Condition)
    decreases OrDepthOf(condition), 0, 1
  {
    if "or" in condition.m then
      if !condition.m["or"].List? then true
      else
        var alternatives := Conditions(condition.m["or"].items);
        OrDepthOfConditions(condition.m["or"].items);
        alternatives != [] ==> Clean(columns, alternatives)
    else CleanColumns(columns.keys, condition.m)
  }

  predicate CleanAll(columns: OrderedMap, conditions: seq<Condition>)
    decreases OrDepth(conditions), |conditions|, 2
  {
    if conditions == [] then true
    else
      OrDepthAt(conditions, 0);
      OrDepthTail(conditions);
      CleanCondition(columns, conditions[0]) && CleanAll(columns, conditions[1..])
  }

  /** Some condition writes something: a nonempty or-group, or a known column with a value. */
  predicate Emits(columns: OrderedMap, conditions: seq<Condition>) {
    exists condition | condition in conditions ::
      if "or" in condition.m
      then condition.m["or"].List? && Conditions(condition.m["or"].items) != []
      else exists key | key in columns.keys :: Lookup(condition.m, key) != Nil
  }

  /** No empty `notIn`, and no level of the filter that emits nothing. */
  predicate Clean(columns: OrderedMap, conditions: seq<Condition>)
    decreases OrDepth(conditions), |conditions|, 3
  {
    Emits(columns, conditions) && CleanAll(columns, conditions)
  }

  // ------------------------------------------------------- single conditions

  lemma {:induction false} ListParses(values: seq<Value>, post: seq<Item>)
    requires values != []
    ensures ParseList(Join(COMMA, ArgParts(values)) + [Text(")")] + post) == Some((values, post))
    decreases |values|
  {
    ArgPartsCons(values);
    JoinIsTail(COMMA, ArgParts(values));
    if |values| == 1 {
      assert Join(COMMA, ArgParts(values)) == [Arg(values[0])];
      ListEnds(values[0], post);
      assert values == [values[0]];
    } else {
      var rest := values[1..];
      var inner := Join(COMMA, ArgParts(rest));
      ArgPartsCons(rest);
      JoinIsTail(COMMA, ArgParts(rest));
      Regroup([COMMA], [Arg(rest[0])], Tail(COMMA, ArgParts(rest)[1..]));
      assert Join(COMMA, ArgParts(values)) == [Arg(values[0])] + ([COMMA] + inner);
      ListParses(rest, post);
      ListStep(values[0], inner, post);
      assert [values[0]] + rest == values;
    }
  }

  lemma ListEnds(value: Value, post: seq<Item>)
    ensures ParseList([Arg(value)] + [Text(")")] + post) == Some(([value], post))
  {
    var ts := [Arg(value)] + [Text(")")] + post;
    assert ts[0] == Arg(value) && ts[1] == Text(")") && ts[2..] == post;
  }

  lemma ListStep(value: Value, inner: seq<Item>, post: seq<Item>)
    requires ParseList(inner + [Text(")")] + post).Some?
    ensures var r := ParseList(inner + [Text(")")] + post).value;
            ParseList([Arg(value)] + ([COMMA] + inner) + [Text(")")] + post) == Some(([value] + r.0, r.1))
  {
    var ts := [Arg(value)] + ([COMMA] + inner) + [Text(")")] + post;
    assert ts[0] == Arg(value) && ts[1] == COMMA && ts[2..] == inner + [Text(")")] + post;
  }

  lemma {:induction false} ArgPartsCons(values: seq<Value>)
    requires values != []
    ensures ArgParts(values)[0] == [Arg(values[0])] && ArgParts(values)[1..] == ArgParts(values[1..])
  {
    if |values| > 1 {
      var front := values[..|values| - 1];
      ArgPartsCons(front);
      assert values[1..][..|values| - 2] == front[1..];
    }
  }

  lemma PredicateSolid(part: seq<Item>, e: Expr)
    requires part != [] && part[0] != Text("(")
    requires forall post :: ParsePredicate(part + post) == Some((e, post))
    ensures Solid(part) && ExprOf(part) == e
  {
    forall post
      ensures ParsePrimary(part + post) == Some((e, post))
    {
      assert (part + post)[0] == part[0];
      assert ParsePredicate(part + post) == Some((e, post));
    }
    assert part + [] == part;
    assert ParsePrimary(part + []) == Some((e, []));
  }

  lemma BinarySolid(col: string, op: Op, value: Value)
    requires IsBinary(op)
    ensures Solid([Name(col), Text(OpText(op)), Arg(value)])
    ensures ExprOf([Name(col), Text(OpText(op)), Arg(value)]) == Pred(col, if op == Not then Ne else op, [value])
  {
    var part: seq<Item> := [Name(col), Text(OpText(op)), Arg(value)];
    var e := Pred(col, if op == Not then Ne else op, [value]);
    forall post
      ensures ParsePredicate(part + post) == Some((e, post))
    {
      var ts := part + post;
      assert ts[0] == Name(col) && ts[1] == Text(OpText(op)) && ts[2] == Arg(value) && ts[3..] == post;
      assert BinaryOp(OpText(op)) == Some(if op == Not then Ne else op);
    }
    PredicateSolid(part, e);
  }

  lemma BetweenSolid(col: string, low: Value, high: Value)
    ensures Solid([Name(col), Text(" between "), Arg(low), Text(" and "), Arg(high)])
    ensures ExprOf([Name(col), Text(" between "), Arg(low), Text(" and "), Arg(high)]) == Pred(col, Between, [low, high])
  {
    var part: seq<Item> := [Name(col), Text(" between "), Arg(low), Text(" and "), Arg(high)];
    forall post
      ensures ParsePredicate(part + post) == Some((Pred(col, Between, [low, high]), post))
    {
      var ts := part + post;
      assert ts[..5] == part && ts[5..] == post;
      assert ts[0] == part[0] && ts[1] == part[1] && ts[2] == part[2] && ts[3] == part[3] && ts[4] == part[4];
    }
    PredicateSolid(part, Pred(col, Between, [low, high]));
  }

  lemma NullTestSolid(col: string, op: Op)
    requires op == IsNull || op == IsNotNull
    ensures Solid([Name(col), Text(OpText(op))]) && ExprOf([Name(col), Text(OpText(op))]) == Pred(col, op, [])
  {
    var part: seq<Item> := [Name(col), Text(OpText(op))];
    forall post
      ensures ParsePredicate(part + post) == Some((Pred(col, op, []), post))
    {
      var ts := part + post;
      assert ts[0] == part[0] && ts[1] == part[1] && ts[2..] == post;
    }
    PredicateSolid(part, Pred(col, op, []));
  }

  lemma ListSolid(col: string, op: Op, values: seq<Value>)
    requires values != [] && (op == In || op == NotIn)
    ensures var part := [Name(col), Text(OpText(op))] + Join(COMMA, ArgParts(values)) + [Text(")")];
            Solid(part) && ExprOf(part) == Pred(col, op, values)
  {
    var inner: seq<Item> := Join(COMMA, ArgParts(values));
    var part := [Name(col), Text(OpText(op))] + inner + [Text(")")];
    forall post
      ensures ParsePredicate(part + post) == Some((Pred(col, op, values), post))
    {
      var ts := part + post;
      assert ts[0] == Name(col) && ts[1] == Text(OpText(op));
      assert ts[2..] == inner + [Text(")")] + post;
      ListParses(values, post);
    }
    PredicateSolid(part, Pred(col, op, values));
  }

  lemma NeverSolid()
    ensures Solid([Text("1=0")]) && ExprOf([Text("1=0")]) == Never
  {
    forall post
      ensures ParsePredicate([Text("1=0")] + post) == Some((Never, post))
    {
      assert ([Text("1=0")] + post)[1..] == post;
    }
    PredicateSolid([Text("1=0")], Never);
  }

  lemma NothingBroken()
    ensures Broken([])
  {
    forall post | Stops(post)
      ensures ParsePrimary([] + post) == None
    {
      assert [] + post == post;
    }
  }

  /** The truth of an operator as the compiler names it. */
  function OpTruth(col: string, op: Op, args: seq<Value>, w: World): Tri {
    match op
    case Between => w(col, Between, Leading(args, 2))
    case In => w(col, In, ListOf(args))
    case NotIn => w(col, NotIn, ListOf(args))
    case IsNull => w(col, IsNull, [])
    case IsNotNull => w(col, IsNotNull, [])
    case _ => w(col, if op == Not then Ne else op, Leading(args, 1))
  }

  /** The compiler reads an entry for what it means. */
  lemma EntryIsRead(col: string, value: Value, w: World)
    requires Read(value).Operator?
    ensures EntryTruth(col, value, w) == OpTruth(col, Read(value).op, Read(value).args, w)
    ensures CleanValue(value) <==> Read(value).op != NotIn || ListOf(Read(value).args) != []
  {
    if value.List? && value.items != [] && value.items[0].Str? {
      OperatorIsRead(col, value.items[0].s, value.items[1..], w);
    } else {
      assert Read(value) == Operator(Eq, [value]) && [value][..1] == [value];
    }
  }

  lemma OperatorIsRead(col: string, name: string, args: seq<Value>, w: World)
    requires FilterOp(name).Some?
    ensures OperatorTruth(col, name, args, w) == OpTruth(col, FilterOp(name).value, args, w)
    ensures name == "notIn" <==> FilterOp(name) == Some(NotIn)
  {
  }

  /** One operator entry is an operand with the intended truth, or is an empty `notIn`. */
  lemma OpSolid(col: string, op: Op, args: seq<Value>, w: World)
    requires OpItems(col, op, args).Ok?
    ensures var part := OpItems(col, op, args).value;
            if op == NotIn && ListOf(args) == [] then Broken(part)
            else Solid(part) && Eval(ExprOf(part), w) == OpTruth(col, op, args, Coded(w))
  {
    if IsBinary(op) {
      assert args[..1] == [args[0]];
      BinarySolid(col, op, args[0]);
    } else {
      match op
      case Between =>
        BetweenSolid(col, args[0], args[1]);
        assert args[..2] == [args[0], args[1]];
      case In =>
        if ListOf(args) == [] { NeverSolid(); } else { ListSolid(col, op, ListOf(args)); }
      case NotIn =>
        if ListOf(args) == [] { NothingBroken(); } else { ListSolid(col, op, ListOf(args)); }
      case _ => NullTestSolid(col, op);
    }
  }

  // ------------------------------------------------------------ whole levels

  /** The parts of a level are known, are all sound exactly when `clean`, and then
      have the truth values `ts`. */
  ghost predicate Faithful(parts: seq<seq<Item>>, ts: seq<Tri>, clean: bool, w: World) {
    && |parts| == |ts|
    && AllKnown(parts)
    && (clean <==> AllSolid(parts))
    && (clean ==> Evals(parts, ts, w))
  }

  ghost predicate Evals(parts: seq<seq<Item>>, ts: seq<Tri>, w: World)
    requires |parts| == |ts|
  {
    forall i | 0 <= i < |parts| :: Eval(ExprOf(parts[i]), w) == ts[i]
  }

  lemma EvalsConcat(p: seq<seq<Item>>, q: seq<seq<Item>>, ts: seq<Tri>, us: seq<Tri>, w: World)
    requires |p| == |ts| && |q| == |us| && Evals(p, ts, w) && Evals(q, us, w)
    ensures Evals(p + q, ts + us, w)
  {
  }

  lemma AllSolidConcat(p: seq<seq<Item>>, q: seq<seq<Item>>)
    ensures AllSolid(p + q) <==> AllSolid(p) && AllSolid(q)
  {
    var all := p + q;
    assert forall i | 0 <= i < |p| :: p[i] == all[i];
    assert forall i | 0 <= i < |q| :: q[i] == all[|p| + i];
  }

  lemma AllKnownConcat(p: seq<seq<Item>>, q: seq<seq<Item>>)
    requires AllKnown(p) && AllKnown(q)
    ensures AllKnown(p + q)
  {
  }

  lemma FaithfulConcat(p: seq<seq<Item>>, q: seq<seq<Item>>, ts: seq<Tri>, us: seq<Tri>, c: bool, d: bool, w: World)
    requires Faithful(p, ts, c, w) && Faithful(q, us, d, w)
    ensures Faithful(p + q, ts + us, c && d, w)
  {
    AllSolidConcat(p, q);
    AllKnownConcat(p, q);
    if c && d {
      EvalsConcat(p, q, ts, us, w);
    }
  }

  lemma {:induction false} ChainTruth(isAnd: bool, e: Expr, done: seq<Tri>, parts: seq<seq<Item>>, ts: seq<Tri>, w: World)
    requires done != [] && Eval(e, w) == (if isAnd then Conj(done) else Disj(done))
    requires |parts| == |ts| && forall i | 0 <= i < |parts| :: Eval(ExprOf(parts[i]), w) == ts[i]
    ensures Eval(Chain(isAnd, e, parts), w) == if isAnd then Conj(done + ts) else Disj(done + ts)
    decreases |parts|
  {
    if parts == [] {
      assert done + ts == done;
    } else {
      assert done + ts == (done + [ts[0]]) + ts[1..];
      ChainTruth(isAnd, Link(isAnd, e, ExprOf(parts[0])), done + [ts[0]], parts[1..], ts[1..], w);
    }
  }

  /** A whole level of output: it parses exactly when clean and nonempty, to its meaning. */
  lemma LevelMeans(isAnd: bool, parts: seq<seq<Item>>, ts: seq<Tri>, clean: bool, w: World, post: seq<Item>)
    requires Faithful(parts, ts, clean, w) && Ends(post)
    ensures var r := ParseOr(Join(Joiner(isAnd), parts) + post);
            if parts != [] && clean
            then r.Some? && r.value.1 == post && Eval(r.value.0, w) == (if isAnd then Conj(ts) else Disj(ts))
            else r == None
  {
    LevelParses(isAnd, parts, post);
    if parts != [] && clean {
      LevelTruth(isAnd, parts, ts, w);
    }
  }

  /** Parts joined by one connective: the truth of all of them together. */
  lemma LevelTruth(isAnd: bool, parts: seq<seq<Item>>, ts: seq<Tri>, w: World)
    requires parts != [] && |parts| == |ts| && Evals(parts, ts, w)
    ensures Eval(Chain(isAnd, ExprOf(parts[0]), parts[1..]), w) == if isAnd then Conj(ts) else Disj(ts)
  {
    assert Conj([ts[0]]) == ts[0] == Disj([ts[0]]);
    ChainTruth(isAnd, ExprOf(parts[0]), [ts[0]], parts[1..], ts[1..], w);
    assert [ts[0]] + ts[1..] == ts;
  }

  function GroupExpr(parts: seq<seq<Item>>): Expr {
    if parts == [] then Never else Chain(false, ExprOf(parts[0]), parts[1..])
  }

  lemma GroupParses(parts: seq<seq<Item>>, group: seq<Item>, post: seq<Item>)
    requires AllKnown(parts)
    requires group == [Text("(")] + Join(Text(" or "), parts) + [Text(")")]
    ensures ParsePrimary(group + post) == if parts != [] && AllSolid(parts) then Some((GroupExpr(parts), post)) else None
  {
    var inner := Join(Text(" or "), parts);
    var tail := [Text(")")] + post;
    assert (group + post)[0] == Text("(") && (group + post)[1..] == inner + tail;
    LevelParses(false, parts, tail);
    assert tail[0] == Text(")") && tail[1..] == post;
  }

  /** A parenthesised or-group is an operand exactly when its inside is clean and nonempty. */
  lemma GroupFaithful(parts: seq<seq<Item>>, ts: seq<Tri>, clean: bool, w: World)
    requires Faithful(parts, ts, clean, w)
    ensures Faithful([[Text("(")] + Join(Text(" or "), parts) + [Text(")")]], [Disj(ts)], parts != [] && clean, w)
  {
    var group := [Text("(")] + Join(Text(" or "), parts) + [Text(")")];
    if parts != [] && clean {
      GroupParses(parts, group, []);
      assert group + [] == group;
      assert ExprOf(group) == GroupExpr(parts);
      forall post
        ensures ParsePrimary(group + post) == Some((ExprOf(group), post))
      {
        GroupParses(parts, group, post);
      }
      assert Eval(GroupExpr(parts), w) == Disj(ts) by {
        LevelParses(false, parts, []);
        LevelMeans(false, parts, ts, clean, w, []);
      }
      SingleFaithful(group, Disj(ts), true, w);
    } else {
      forall post | Stops(post)
        ensures ParsePrimary(group + post) == None
      {
        GroupParses(parts, group, post);
      }
      SingleFaithful(group, Disj(ts), false, w);
    }
  }

  lemma SingleFaithful(part: seq<Item>, t: Tri, clean: bool, w: World)
    requires if clean then Solid(part) && Eval(ExprOf(part), w) == t else Broken(part)
    ensures Faithful([part], [t], clean, w)
  {
    SolidNotBroken(part);
    assert [part][0] == part;
  }

  lemma {:induction false} ColumnsFaithful(columns: OrderedMap, keys: seq<string>, m: Row, w: World)
    requires ColumnEntries(columns, keys, m).Ok?
    ensures Faithful(ColumnEntries(columns, keys, m).value, ColumnTruths(columns, keys, m, Coded(w)), CleanColumns(keys, m), w)
    ensures ColumnEntries(columns, keys, m).value != [] <==> exists key | key in keys :: Lookup(m, key) != Nil
  {
    if keys != [] {
      var rest := keys[1..];
      ColumnsFaithful(columns, rest, m, w);
      assert keys == [keys[0]] + rest;
      if Lookup(m, keys[0]) == Nil {
        assert ColumnTruths(columns, keys, m, Coded(w)) == ColumnTruths(columns, rest, m, Coded(w));
      } else {
        var value := m[keys[0]];
        var part := EntryItems(columns.Sql(keys[0]), value).value;
        var t := EntryTruth(columns.Sql(keys[0]), value, Coded(w));
        EntrySolid(columns.Sql(keys[0]), value, w);
        FaithfulConcat([part], ColumnEntries(columns, rest, m).value, [t], ColumnTruths(columns, rest, m, Coded(w)),
                       CleanValue(value), CleanColumns(rest, m), w);
      }
    }
  }

  lemma EntrySolid(col: string, value: Value, w: World)
    requires EntryItems(col, value).Ok?
    ensures Faithful([EntryItems(col, value).value], [EntryTruth(col, value, Coded(w))], CleanValue(value), w)
  {
    var part := EntryItems(col, value).value;
    OpSolid(col, Read(value).op, Read(value).args, w);
    EntryIsRead(col, value, Coded(w));
    SingleFaithful(part, EntryTruth(col, value, Coded(w)), CleanValue(value), w);
  }

  lemma {:induction false} ConditionFaithful(columns: OrderedMap, condition: Condition, w: World)
    requires ConditionEntries(columns, condition).Ok?
    ensures Faithful(ConditionEntries(columns, condition).value, ConditionTruths(columns, condition, Coded(w)),
                     CleanCondition(columns, condition), w)
    ensures ConditionEntries(columns, condition).value != [] <==> Emits(columns, [condition])
    decreases OrDepthOf(condition), 0, 1
  {
    assert condition in [condition];
    if "or" in condition.m {
      if condition.m["or"].List? {
        var alternatives := Conditions(condition.m["or"].items);
        OrDepthOfConditions(condition.m["or"].items);
        if alternatives != [] {
          EntriesFaithful(columns, alternatives, w);
          GroupFaithful(Entries(columns, alternatives).value, Truths(columns, alternatives, Coded(w)),
                        CleanAll(columns, alternatives), w);
        }
      }
    } else {
      ColumnsFaithful(columns, columns.keys, condition.m, w);
    }
  }

  lemma {:induction false} EntriesFaithful(columns: OrderedMap, conditions: seq<Condition>, w: World)
    requires Entries(columns, conditions).Ok?
    ensures Faithful(Entries(columns, conditions).value, Truths(columns, conditions, Coded(w)), CleanAll(columns, conditions), w)
    ensures Entries(columns, conditions).value != [] <==> Emits(columns, conditions)
    decreases OrDepth(conditions), |conditions|, 2
  {
    if conditions != [] {
      OrDepthAt(conditions, 0);
      OrDepthTail(conditions);
      var first, rest := conditions[0], conditions[1..];
      assert conditions == [first] + rest;
      ConditionFaithful(columns, first, w);
      EntriesFaithful(columns, rest, w);
      FaithfulConcat(ConditionEntries(columns, first).value, Entries(columns, rest).value,
                     ConditionTruths(columns, first, Coded(w)), Truths(columns, rest, Coded(w)),
                     CleanCondition(columns, first), CleanAll(columns, rest), w);
    }
  }

  // ------------------------------------------------------------ main results

  /** The text of a clean filter is a search condition that, on every row, is as true as
      the filter itself; the text of any other filter is no search condition at all. */
  lemma FilterMeans(columns: OrderedMap, conditions: seq<Condition>, w: World)
    requires Entries(columns, conditions).Ok?
    ensures var e := ParseAll(Join(Text(" and "), Entries(columns, conditions).value));
            if Clean(columns, conditions)
            then e.Some? && Eval(e.value, w) == FilterTruth(columns, conditions, w)
            else e == None
  {
    var parts := Entries(columns, conditions).value;
    EntriesFaithful(columns, conditions, w);
    LevelMeans(true, parts, Truths(columns, conditions, Coded(w)), CleanAll(columns, conditions), w, []);
    assert Join(Text(" and "), parts) + [] == Join(Text(" and "), parts);
  }

  /** The same inside a whole query: numbered by the builder, bound to its value list by
      the driver, the stretch of text between prefix and suffix means the filter. */
  lemma ExecutedFilterMeans(node: Node, params: Params, before: seq<Item>, after: seq<Item>, w: World)
    requires node.FilterNode? && FilterItems(node, params).Ok?
    requires FilterConditions(node.columns, Lookup(params, node.param)) != []
    ensures var all := before + FilterItems(node, params).value + after;
            var run := Resolve(Number(all, 0), Args(all));
            var conditions := FilterConditions(node.columns, Lookup(params, node.param));
            var lo := |before| + |OptionalText(node.prefix)|;
            var hi := |run| - |after| - |OptionalText(node.suffix)|;
            lo <= hi &&
            var e := ParseAll(run[lo..hi]);
            if Clean(node.columns, conditions)
            then e.Some? && Eval(e.value, w) == FilterTruth(node.columns, conditions, w)
            else e == None
  {
    var conditions := FilterConditions(node.columns, Lookup(params, node.param));
    var body := Join(Text(" and "), Entries(node.columns, conditions).value);
    var head, tail := before + OptionalText(node.prefix), OptionalText(node.suffix) + after;
    var all := before + FilterItems(node, params).value + after;
    assert all == head + body + tail;
    ResolveNumber(all);
    assert all[|head|..|all| - |tail|] == body;
    FilterMeans(node.columns, conditions, w);
  }

  /** An empty `notIn` leaves its connective behind: the text of `a notIn []` and `a = 1`
      is no search condition, although the filter itself holds wherever `a = 1` does. */
  lemma EmptyNotInDangles(w: World)
    ensures var columns := OrderedMap(["a"], map["a" := "a"]);
            var filter: seq<Condition> := [Map(map["a" := List([Str("notIn")])]), Map(map["a" := Scalar(1)])];
            && Entries(columns, filter) == Ok([[], [Name("a"), Text(" = "), Arg(Scalar(1))]])
            && ParseAll(Join(Text(" and "), Entries(columns, filter).value)) == None
            && FilterTruth(columns, filter, w) == w("a", Eq, [Scalar(1)])
  {
    var columns := OrderedMap(["a"], map["a" := "a"]);
    var none, one := List([Str("notIn")]), Scalar(1);
    var filter: seq<Condition> := [Map(map["a" := none]), Map(map["a" := one])];
    var entry: seq<Item> := [Name("a"), Text(" = "), Arg(one)];
    assert Read(none) == Operator(NotIn, []);
    SingleColumn(columns, none, w);
    SingleColumn(columns, one, w);
    TwoConditions(columns, filter[0], filter[1], w);
    assert Entries(columns, filter).value == [[], entry];
    assert Truths(columns, filter, Coded(w)) == [True, w("a", Eq, [one])];
    DanglingText(entry);
  }

  lemma DanglingText(entry: seq<Item>)
    ensures ParseAll(Join(Text(" and "), [[], entry])) == None
  {
    var parts: seq<seq<Item>> := [[], entry];
    assert |parts[..1]| == 1 && parts[..1][0] == [];
    assert Join(Text(" and "), parts) == [] + [Text(" and ")] + entry;
    var text := Join(Text(" and "), parts);
    assert text[0] == Text(" and ");
    assert ParsePredicate(text) == None;
    assert ParsePrimary(text) == None;
    assert ParseAnd(text) == None;
    assert ParseOr(text) == None;
  }

  lemma SingleColumn(columns: OrderedMap, value: Value, w: World)
    requires columns == OrderedMap(["a"], map["a" := "a"])
    requires value != Nil && EntryItems("a", value).Ok?
    ensures ConditionEntries(columns, Map(map["a" := value])) == Ok([EntryItems("a", value).value])
    ensures ConditionTruths(columns, Map(map["a" := value]), Coded(w)) == [EntryTruth("a", value, Coded(w))]
  {
    var m, part := map["a" := value], EntryItems("a", value).value;
    var rest: seq<string> := columns.keys[1..];
    assert rest == [];
    assert ColumnEntries(columns, rest, m) == Ok([]);
    assert Prepend([part], Ok([])) == Ok([part] + []);
    assert [part] + [] == [part];
    assert ColumnTruths(columns, rest, m, Coded(w)) == [];
    assert [EntryTruth("a", value, Coded(w))] + [] == [EntryTruth("a", value, Coded(w))];
  }

  lemma TwoConditions(columns: OrderedMap, first: Condition, second: Condition, w: World)
    requires ConditionEntries(columns, first).Ok? && ConditionEntries(columns, second).Ok?
    ensures Entries(columns, [first, second]) ==
            Ok(ConditionEntries(columns, first).value + ConditionEntries(columns, second).value)
    ensures Truths(columns, [first, second], Coded(w)) ==
            ConditionTruths(columns, first, Coded(w)) + ConditionTruths(columns, second, Coded(w))
  {
    var conditions: seq<Condition> := [first, second];
    var tail: seq<Condition> := [second];
    var parts := ConditionEntries(columns, second).value;
    assert conditions[1..] == tail && tail[1..] == [];
    assert Entries(columns, tail[1..]) == Ok([]);
    assert Prepend(parts, Ok([])) == Ok(parts + []);
    assert parts + [] == parts;
    assert Entries(columns, tail) == Ok(parts);
    assert Truths(columns, tail[1..], Coded(w)) == [];
    assert ConditionTruths(columns, second, Coded(w)) + [] == ConditionTruths(columns, second, Coded(w));
  }
}
