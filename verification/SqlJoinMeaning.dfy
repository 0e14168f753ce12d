/** What the joins of a query mean, in terms of the parameter that asks for them. */
module SqlJoinMeaning {
  import opened Wrappers
  import opened Seqs
  import opened SqlTemplate
  import opened SqlJoins
  import opened SqlJoinReading
  import Strings

  /** `alias.key` names a column of a table that may be joined. */
  ghost predicate NamesColumn(joinMap: map<string, JoinTable>, ref: Value, sql: string) {
    ref.Str? && exists alias, key ::
      && '.' !in alias && ref.s == alias + "." + key
      && alias in joinMap && key in joinMap[alias].columns.values && joinMap[alias].columns.values[key] == sql
  }

  /** `[left, operator, right]`, read as the condition it asks for. */
  ghost predicate Asks(joinMap: map<string, JoinTable>, condition: Value, o: OnClause) {
    && condition.List? && |condition.items| >= 3
    && NamesColumn(joinMap, condition.items[0], o.left)
    && condition.items[1] == Str(o.op) && o.op in {"=", "<", "<=", ">", ">=", "<>"}
    && NamesColumn(joinMap, condition.items[2], o.right)
  }

  predicate KeywordFor(joinType: string, keyword: string) {
    (joinType, keyword) in {("inner", "JOIN"), ("left", "LEFT JOIN"), ("right", "RIGHT JOIN"), ("full", "FULL JOIN"),
                            ("cross", "CROSS JOIN")}
  }

  /** The type the entry gives, whatever its case; else the declared one; else an inner join. */
  ghost predicate KeywordAsked(node: Node, alias: string, entry: map<string, Value>, keyword: string)
    requires node.JoinByNode?
  {
    if "type" in entry then
      if entry["type"].Str? && entry["type"].s != "" then KeywordFor(Lower(entry["type"].s), keyword)
      else keyword == "JOIN"
    else if alias in node.joinTypes then KeywordFor(Lower(node.joinTypes[alias]), keyword)
    else keyword == "JOIN"
  }

  /** The table, quoted, with its schema if it has one. */
  predicate TableWritten(t: JoinTable, text: string) {
    text == if t.schema == "" then "\"" + t.table + "\"" else "\"" + t.schema + "\".\"" + t.table + "\""
  }

  /** The qualifier of the table's first column, or else the quoted alias. */
  ghost predicate AliasWritten(columns: OrderedMap, alias: string, text: string) {
    if columns.keys != [] && Qualified(columns.Sql(columns.keys[0]))
    then '.' !in text && text != "" && exists key :: columns.Sql(columns.keys[0]) == text + "." + key
    else text == "\"" + alias + "\""
  }

  ghost predicate Qualified(sql: string) {
    exists before, key :: before != "" && '.' !in before && sql == before + "." + key
  }

  /** A join as it reads, for an entry of the parameter. */
  ghost predicate Answers(node: Node, alias: string, entry: map<string, Value>, head: string, on: seq<OnClause>)
    requires node.JoinByNode?
  {
    && alias in node.joinMap
    && exists keyword, table, name ::
         && HeadReads(head, keyword, table, name)
         && KeywordAsked(node, alias, entry, keyword)
         && TableWritten(node.joinMap[alias], table)
         && AliasWritten(node.joinMap[alias].columns, alias, name)
         && (if keyword == "CROSS JOIN" then on == []
             else "on" in entry && entry["on"].List? && AllAsked(node.joinMap, entry["on"].items, on))
  }

  predicate HeadReads(head: string, keyword: string, table: string, name: string) {
    head == " " + keyword + " " + table + " as " + name
  }

  ghost predicate AllAsked(joinMap: map<string, JoinTable>, conditions: seq<Value>, on: seq<OnClause>) {
    |on| == |conditions| && on != [] && forall i | 0 <= i < |on| :: Asks(joinMap, conditions[i], on[i])
  }

  /** One join for each alias whose entry is an object, in the order of the aliases. */
  ghost predicate AnswersAll(node: Node, value: Value, aliases: seq<string>, joins: seq<(string, seq<OnClause>)>)
    requires node.JoinByNode?
  {
    if aliases == [] then joins == []
    else
      var alias, front := aliases[|aliases| - 1], aliases[..|aliases| - 1];
      var found := if value.Dict? then Lookup(value.entries, alias) else if value.Map? then Lookup(value.m, alias) else Nil;
      if found.Map? || found.Dict? then
        && joins != []
        && Answers(node, alias, if found.Map? then found.m else found.entries,
                   joins[|joins| - 1].0, joins[|joins| - 1].1)
        && AnswersAll(node, value, front, joins[..|joins| - 1])
      else AnswersAll(node, value, front, joins)
  }

  // ------------------------------------------------------------------- proofs

  lemma SplitAtDot(ref: string)
    requires Strings.FirstDot(ref) < |ref|
    ensures var dot := Strings.FirstDot(ref); '.' !in ref[..dot] && ref == ref[..dot] + "." + ref[dot + 1..]
  {
    SplitAt(ref, Strings.FirstDot(ref));
  }

  lemma ResolvedNames(ref: Value, joinMap: map<string, JoinTable>)
    requires ResolveColumn(TextOf(ref), joinMap).Ok?
    ensures NamesColumn(joinMap, ref, ResolveColumn(TextOf(ref), joinMap).value)
  {
    var dot := Strings.FirstDot(TextOf(ref));
    SplitAtDot(TextOf(ref));
    var alias, key := ref.s[..dot], ref.s[dot + 1..];
    assert alias in joinMap && key in joinMap[alias].columns.values;
  }

  lemma ConditionAsked(condition: Value, joinMap: map<string, JoinTable>)
    requires ConditionOf(condition, joinMap).Ok?
    ensures Asks(joinMap, condition, ConditionOf(condition, joinMap).value)
  {
    ResolvedNames(condition.items[0], joinMap);
    ResolvedNames(condition.items[2], joinMap);
  }

  lemma {:induction false} ConditionsAsked(conditions: seq<Value>, joinMap: map<string, JoinTable>)
    requires ConditionsOf(conditions, joinMap).Ok?
    ensures var on := ConditionsOf(conditions, joinMap).value;
            |on| == |conditions| && forall i | 0 <= i < |on| :: Asks(joinMap, conditions[i], on[i])
  {
    if conditions != [] {
      ConditionsAsked(conditions[..|conditions| - 1], joinMap);
      ConditionAsked(conditions[|conditions| - 1], joinMap);
    }
  }

  lemma {:induction false} DotIsFirst(before: string, key: string)
    requires '.' !in before
    ensures Strings.FirstDot(before + "." + key) == |before|
  {
    var s := before + "." + key;
    if before != "" {
      assert s[0] == before[0] && s[1..] == before[1..] + "." + key;
      DotIsFirst(before[1..], key);
    }
  }

  lemma AliasIsWritten(columns: OrderedMap, alias: string)
    ensures AliasWritten(columns, alias, AliasText(columns, alias))
  {
    if columns.keys != [] {
      var sql := columns.Sql(columns.keys[0]);
      var dot := Strings.FirstDot(sql);
      if 0 < dot < |sql| {
        SplitAtDot(sql);
      }
      if Qualified(sql) {
        var before, key :| before != "" && '.' !in before && sql == before + "." + key;
        DotIsFirst(before, key);
      }
    }
  }

  lemma ClauseAnswers(node: Node, alias: string, entry: map<string, Value>)
    requires node.JoinByNode? && ClauseOf(node, alias, entry).Ok?
    ensures var c := ClauseOf(node, alias, entry).value; Answers(node, alias, entry, Head(c), c.on)
  {
    var c := ClauseOf(node, alias, entry).value;
    ClauseWritten(node, alias, entry);
    AliasIsWritten(node.joinMap[alias].columns, alias);
    assert HeadReads(Head(c), c.keyword, c.table, c.alias);
  }

  lemma ClauseWritten(node: Node, alias: string, entry: map<string, Value>)
    requires node.JoinByNode? && ClauseOf(node, alias, entry).Ok?
    ensures var c := ClauseOf(node, alias, entry).value;
            && alias in node.joinMap && KeywordAsked(node, alias, entry, c.keyword)
            && TableWritten(node.joinMap[alias], c.table) && c.alias == AliasText(node.joinMap[alias].columns, alias)
            && (if c.keyword == "CROSS JOIN" then c.on == []
                else "on" in entry && entry["on"].List? && AllAsked(node.joinMap, entry["on"].items, c.on))
  {
    ClauseParts(node, alias, entry);
    KeywordWritten(node, alias, entry);
    TableIsWritten(node.joinMap[alias]);
    if JoinType(node, alias, entry) != "cross" {
      ConditionsAsked(entry["on"].items, node.joinMap);
    }
  }

  lemma KeywordWritten(node: Node, alias: string, entry: map<string, Value>)
    requires node.JoinByNode? && Keyword(JoinType(node, alias, entry)).Ok?
    ensures KeywordAsked(node, alias, entry, Keyword(JoinType(node, alias, entry)).value)
    ensures Keyword(JoinType(node, alias, entry)).value == "CROSS JOIN" <==> JoinType(node, alias, entry) == "cross"
  {
    KeywordIs(JoinType(node, alias, entry));
    KeywordIs("inner");
  }

  lemma KeywordIs(joinType: string)
    requires Keyword(joinType).Ok?
    ensures KeywordFor(joinType, Keyword(joinType).value)
    ensures Keyword(joinType).value == "CROSS JOIN" <==> joinType == "cross"
    ensures joinType == "inner" ==> Keyword(joinType).value == "JOIN"
  {
  }

  lemma TableIsWritten(t: JoinTable)
    ensures TableWritten(t, QualifiedTable(t))
  {
  }

  lemma AskedAppend(clauses: seq<JoinClause>, c: JoinClause)
    ensures Asked(clauses + [c]) == Asked(clauses) + [(Head(c), c.on)]
  {
    if clauses == [] {
      assert [c][1..] == [] && clauses + [c] == [c];
    } else {
      assert (clauses + [c])[0] == clauses[0] && (clauses + [c])[1..] == clauses[1..] + [c];
      AskedAppend(clauses[1..], c);
    }
  }

  lemma {:induction false} ClausesAnswer(node: Node, value: Value, aliases: seq<string>)
    requires node.JoinByNode? && Clauses(node, value, aliases).Ok?
    ensures AnswersAll(node, value, aliases, Asked(Clauses(node, value, aliases).value))
  {
    if aliases != [] {
      var front, alias := aliases[..|aliases| - 1], aliases[|aliases| - 1];
      ClausesAnswer(node, value, front);
      var before := Clauses(node, value, front).value;
      var entry := EntryOf(value, alias);
      if entry.Some? {
        var c := ClauseOf(node, alias, entry.value).value;
        ClauseAnswers(node, alias, entry.value);
        AskedAppend(before, c);
      }
    }
  }

  /** The text of a `joinBy` reads as one join per alias that has an entry, in the aliases' order:
      the table, the type and the conditions are those the entry asks for, side by side. */
  lemma JoinByAnswers(node: Node, params: Params)
    requires node.JoinByNode? && JoinByItems(node, params).Ok?
    ensures var value := if node.param in params then params[node.param] else Nil;
            var aliases := match value case Dict(order, _) => order
                                       case Map(m) => Strings.SortedKeys(m.Keys)
                                       case _ => [];
            var joins := ReadJoins(JoinByItems(node, params).value);
            joins.Some? && AnswersAll(node, value, aliases, joins.value)
  {
    JoinByMeans(node, params);
    ClausesAnswer(node, Lookup(params, node.param), Aliases(Lookup(params, node.param)));
  }

  // ---------------------------------------------------------------- refusals

  lemma NamedResolves(joinMap: map<string, JoinTable>, ref: Value, sql: string)
    requires NamesColumn(joinMap, ref, sql)
    ensures ResolveColumn(TextOf(ref), joinMap) == Ok(sql)
  {
    var alias, key :| '.' !in alias && ref.s == alias + "." + key && alias in joinMap
                      && key in joinMap[alias].columns.values && joinMap[alias].columns.values[key] == sql;
    DotIsFirst(alias, key);
    assert ref.s[..|alias|] == alias && ref.s[|alias| + 1..] == key;
  }

  lemma AskedResolves(joinMap: map<string, JoinTable>, condition: Value, o: OnClause)
    requires Asks(joinMap, condition, o)
    ensures ConditionOf(condition, joinMap) == Ok(o)
  {
    NamedResolves(joinMap, condition.items[0], o.left);
    NamedResolves(joinMap, condition.items[2], o.right);
  }

  lemma {:induction false} AllAskedResolve(joinMap: map<string, JoinTable>, conditions: seq<Value>, on: seq<OnClause>)
    requires |on| == |conditions| && forall i | 0 <= i < |on| :: Asks(joinMap, conditions[i], on[i])
    ensures ConditionsOf(conditions, joinMap) == Ok(on)
  {
    if conditions != [] {
      var n := |on| - 1;
      AllAskedResolve(joinMap, conditions[..n], on[..n]);
      AskedResolves(joinMap, conditions[n], on[n]);
      assert on == on[..n] + [on[n]];
    }
  }

  lemma AskedKeyword(node: Node, alias: string, entry: map<string, Value>, keyword: string)
    requires node.JoinByNode? && KeywordAsked(node, alias, entry, keyword)
    ensures Keyword(JoinType(node, alias, entry)) == Ok(keyword)
    ensures keyword == "CROSS JOIN" <==> JoinType(node, alias, entry) == "cross"
  {
    WordOf(JoinType(node, alias, entry), keyword);
  }

  lemma WordOf(joinType: string, keyword: string)
    ensures KeywordFor(joinType, keyword) ==>
              Keyword(joinType) == Ok(keyword) && (keyword == "CROSS JOIN" <==> joinType == "cross")
    ensures joinType == "inner" && keyword == "JOIN" ==> KeywordFor(joinType, keyword)
  {
  }

  /** An entry is refused exactly when no join answers it: for an alias that may not be joined, an
      unknown type, a condition that is no triple or names an unknown column or operator, or for
      having no condition where one is needed. */
  lemma RefusedUnanswered(node: Node, alias: string, entry: map<string, Value>)
    requires node.JoinByNode?
    ensures ClauseOf(node, alias, entry).Ok? <==> exists head, on :: Answers(node, alias, entry, head, on)
  {
    if ClauseOf(node, alias, entry).Ok? {
      ClauseAnswers(node, alias, entry);
    }
    if head, on :| Answers(node, alias, entry, head, on) {
      AnsweredIsClause(node, alias, entry, head, on);
    }
  }

  lemma AnsweredIsClause(node: Node, alias: string, entry: map<string, Value>, head: string, on: seq<OnClause>)
    requires node.JoinByNode? && Answers(node, alias, entry, head, on)
    ensures ClauseOf(node, alias, entry).Ok?
  {
    var keyword, table, name :|
      && HeadReads(head, keyword, table, name) && KeywordAsked(node, alias, entry, keyword)
      && (if keyword == "CROSS JOIN" then on == []
          else "on" in entry && entry["on"].List? && AllAsked(node.joinMap, entry["on"].items, on));
    AskedKeyword(node, alias, entry, keyword);
    if keyword != "CROSS JOIN" {
      AllAskedResolve(node.joinMap, entry["on"].items, on);
    }
  }

  /** Types are compared in lower case. */
  lemma LowerLetters(s: string)
    ensures Lower("ABCDEFGHIJKLMNOPQRSTUVWXYZ") == "abcdefghijklmnopqrstuvwxyz"
    ensures (forall c | c in s :: !('A' <= c <= 'Z')) ==> Lower(s) == s
  {
    assert forall i | 0 <= i < |s| :: s[i] in s;
  }
}
