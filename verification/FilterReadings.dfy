/** Where the documented meaning of filters and the one of the code part: lists without elements. */
module FilterReadings {
  import opened Wrappers
  import opened SqlTemplate
  import opened SqlParts
  import opened SqlSpec
  import opened SearchCondition
  import opened FilterMeaning

  /** An `in`, `notIn` or `between` without arguments, or over an empty list. */
  predicate IsEmptyList(value: Value) {
    && value.List? && value.items != []
    && ((value.items[0] in {Str("in"), Str("notIn")} && Members(value.items[1..]) == []) || value.items == [Str("between")])
  }

  /** A row whose columns are all absent. */
  function Absent(): World {
    (col: string, op: Op, args: seq<Value>) => if op == IsNull then True else False
  }

  lemma EntryAgrees(col: string, value: Value, w: World)
    requires !IsEmptyList(value)
    ensures EntryTruth(col, value, Coded(w)) == EntryTruth(col, value, Documented(w))
  {
  }

  lemma EntryDisagrees(col: string, value: Value)
    requires IsEmptyList(value)
    ensures EntryTruth(col, value, Coded(Absent())) != EntryTruth(col, value, Documented(Absent()))
  {
  }

  /** The two readings of a condition agree on every row exactly when it has no empty list. */
  lemma EntryReadings(col: string, value: Value)
    ensures (forall w: World :: EntryTruth(col, value, Coded(w)) == EntryTruth(col, value, Documented(w))) <==>
            !IsEmptyList(value)
  {
    if IsEmptyList(value) {
      EntryDisagrees(col, value);
    } else {
      forall w: World
        ensures EntryTruth(col, value, Coded(w)) == EntryTruth(col, value, Documented(w))
      {
        EntryAgrees(col, value, w);
      }
    }
  }

  /** An empty `between` is no condition at all for the code. */
  lemma EmptyBetweenIsRefused(col: string)
    ensures EntryItems(col, List([Str("between")])) == Err(BetweenNeedsTwo(0))
  {
  }

  // ----------------------------------------------------------- whole filters

  predicate NoEmptyColumns(keys: seq<string>, m: Row) {
    forall key | key in keys && Lookup(m, key) != Nil :: !IsEmptyList(m[key])
  }

  predicate NoEmptyCondition(columns: OrderedMap, condition: Condition)
    decreases OrDepthOf(condition), 0, 1
  {
    if "or" in condition.m then
      if !condition.m["or"].List? then true
      else
        OrDepthOfConditions(condition.m["or"].items);
        NoEmptyLists(columns, Conditions(condition.m["or"].items))
    else NoEmptyColumns(columns.keys, condition.m)
  }

  /** No empty list anywhere in a filter. */
  predicate NoEmptyLists(columns: OrderedMap, conditions: seq<Condition>)
    decreases OrDepth(conditions), |conditions|, 2
  {
    if conditions == [] then true
    else
      OrDepthAt(conditions, 0);
      OrDepthTail(conditions);
      NoEmptyCondition(columns, conditions[0]) && NoEmptyLists(columns, conditions[1..])
  }

  lemma {:induction false} ColumnsAgree(columns: OrderedMap, keys: seq<string>, m: Row, w: World)
    requires NoEmptyColumns(keys, m)
    ensures ColumnTruths(columns, keys, m, Coded(w)) == ColumnTruths(columns, keys, m, Documented(w))
  {
    if keys != [] {
      assert keys == [keys[0]] + keys[1..];
      ColumnsAgree(columns, keys[1..], m, w);
      if Lookup(m, keys[0]) != Nil {
        EntryAgrees(columns.Sql(keys[0]), m[keys[0]], w);
      }
    }
  }

  lemma {:induction false} ConditionAgrees(columns: OrderedMap, condition: Condition, w: World)
    requires NoEmptyCondition(columns, condition)
    ensures ConditionTruths(columns, condition, Coded(w)) == ConditionTruths(columns, condition, Documented(w))
    decreases OrDepthOf(condition), 0, 1
  {
    if "or" !in condition.m {
      ColumnsAgree(columns, columns.keys, condition.m, w);
    } else if condition.m["or"].List? {
      OrDepthOfConditions(condition.m["or"].items);
      ConditionsAgree(columns, Conditions(condition.m["or"].items), w);
    }
  }

  lemma {:induction false} ConditionsAgree(columns: OrderedMap, conditions: seq<Condition>, w: World)
    requires NoEmptyLists(columns, conditions)
    ensures Truths(columns, conditions, Coded(w)) == Truths(columns, conditions, Documented(w))
    decreases OrDepth(conditions), |conditions|, 2
  {
    if conditions != [] {
      OrDepthAt(conditions, 0);
      OrDepthTail(conditions);
      ConditionAgrees(columns, conditions[0], w);
      ConditionsAgree(columns, conditions[1..], w);
    }
  }

  /** The SQL of a filter without empty lists means, on every row, what the documentation says. */
  lemma FilterMeansAsDocumented(columns: OrderedMap, conditions: seq<Condition>, w: World)
    requires Entries(columns, conditions).Ok? && Clean(columns, conditions) && NoEmptyLists(columns, conditions)
    ensures var e := ParseAll(Join(Text(" and "), Entries(columns, conditions).value));
            e.Some? && Eval(e.value, w) == DocumentedTruth(columns, conditions, w)
  {
    FilterMeans(columns, conditions, w);
    ConditionsAgree(columns, conditions, w);
  }
}
