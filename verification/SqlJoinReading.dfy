/** Reading join clauses back from the builder's output. */
module SqlJoinReading {
  import opened Wrappers
  import opened Seqs
  import opened SqlTemplate
  import opened SqlParts
  import opened SqlJoins
  import Strings

  /** The conditions behind an ON, and what follows them. */
  function ReadOn(items: seq<Item>): (r: Option<(seq<OnClause>, seq<Item>)>)
    ensures r.Some? ==> |r.value.1| < |items|
  {
    if |items| < 3 || !items[0].Name? || !items[1].Text? || !items[2].Name? || |items[1].text| < 2 then None
    else
      var one := OnClause(items[0].sql, items[1].text[1..|items[1].text| - 1], items[2].sql);
      var rest := items[3..];
      if rest != [] && rest[0] == AND then
        match ReadOn(rest[1..])
        case None => None
        case Some((more, end)) => Some(([one] + more, end))
      else Some(([one], rest))
  }

  /** Join clauses one after another: what is joined, and on which conditions. */
  function ReadJoins(items: seq<Item>): Option<seq<(string, seq<OnClause>)>>
    decreases |items|
  {
    if items == [] then Some([])
    else if !items[0].Text? then None
    else if |items| > 1 && items[1] == ON then
      match ReadOn(items[2..])
      case None => None
      case Some((on, rest)) =>
        match ReadJoins(rest)
        case None => None
        case Some(joins) => Some([(items[0].text, on)] + joins)
    else
      match ReadJoins(items[1..])
      case None => None
      case Some(joins) => Some([(items[0].text, [])] + joins)
  }

  function Asked(clauses: seq<JoinClause>): seq<(string, seq<OnClause>)> {
    if clauses == [] then [] else [(Head(clauses[0]), clauses[0].on)] + Asked(clauses[1..])
  }

  // ------------------------------------------------------------- front to back

  lemma {:induction false} OnPartsFront(on: seq<OnClause>)
    requires on != []
    ensures OnParts(on) == [OnPart(on[0])] + OnParts(on[1..])
  {
    if |on| > 1 {
      OnPartsFront(on[..|on| - 1]);
      assert on[1..][..|on| - 2] == on[..|on| - 1][1..];
    }
  }

  lemma {:induction false} AllItemsFront(clauses: seq<JoinClause>)
    requires clauses != []
    ensures AllItems(clauses) == ClauseItems(clauses[0]) + AllItems(clauses[1..])
  {
    var n := |clauses| - 1;
    if n > 0 {
      AllItemsFront(clauses[..n]);
      assert clauses[1..][..n - 1] == clauses[..n][1..];
      Regroup(ClauseItems(clauses[0]), AllItems(clauses[..n][1..]), ClauseItems(clauses[n]));
    }
  }

  // ------------------------------------------------------------------ reading

  lemma OpRead(op: string)
    ensures var text := " " + op + " "; |text| >= 2 && text[1..|text| - 1] == op
  {
  }

  /** What can follow a list of conditions. */
  predicate EndsOn(rest: seq<Item>) {
    rest == [] || rest[0] != AND
  }

  lemma ReadLast(o: OnClause, rest: seq<Item>)
    requires EndsOn(rest)
    ensures ReadOn(OnPart(o) + rest) == Some(([o], rest))
  {
    OpRead(o.op);
    assert (OnPart(o) + rest)[3..] == rest;
  }

  lemma ReadNext(o: OnClause, more: seq<Item>)
    ensures ReadOn(OnPart(o) + ([AND] + more)) ==
            match ReadOn(more) case None => None case Some((on, end)) => Some(([o] + on, end))
  {
    OpRead(o.op);
    assert (OnPart(o) + ([AND] + more))[3..] == [AND] + more;
    assert ([AND] + more)[1..] == more;
  }

  lemma OneCondition(on: seq<OnClause>)
    requires |on| == 1
    ensures Join(AND, OnParts(on)) == OnPart(on[0]) && on == [on[0]]
  {
    assert on[..0] == [];
  }

  lemma MoreConditions(on: seq<OnClause>, rest: seq<Item>)
    requires |on| > 1
    ensures Join(AND, OnParts(on)) + rest == OnPart(on[0]) + ([AND] + (Join(AND, OnParts(on[1..])) + rest))
    ensures on == [on[0]] + on[1..]
  {
    OnPartsFront(on);
    JoinCons(AND, OnParts(on));
    Regroup(OnPart(on[0]), [AND], Join(AND, OnParts(on[1..])));
    Regroup(OnPart(on[0]), [AND] + Join(AND, OnParts(on[1..])), rest);
    Regroup([AND], Join(AND, OnParts(on[1..])), rest);
  }

  lemma {:induction false} ConditionsRead(on: seq<OnClause>, rest: seq<Item>)
    requires on != [] && EndsOn(rest)
    ensures ReadOn(Join(AND, OnParts(on)) + rest) == Some((on, rest))
  {
    if |on| == 1 {
      OneCondition(on);
      ReadLast(on[0], rest);
    } else {
      MoreConditions(on, rest);
      ConditionsRead(on[1..], rest);
      ReadNext(on[0], Join(AND, OnParts(on[1..])) + rest);
    }
  }

  lemma HeadIsLong(c: JoinClause)
    ensures |Head(c)| >= 6 && Text(Head(c)) != ON && Text(Head(c)) != AND
  {
    assert |Head(c)| == 1 + |c.keyword| + 1 + |c.table| + 4 + |c.alias|;
  }

  lemma ItemsEnd(clauses: seq<JoinClause>)
    ensures AllItems(clauses) == [] || (AllItems(clauses)[0] != ON && AllItems(clauses)[0] != AND)
  {
    if clauses != [] {
      AllItemsFront(clauses);
      HeadIsLong(clauses[0]);
    }
  }

  lemma ReadBare(head: string, rest: seq<Item>)
    requires rest == [] || rest[0] != ON
    ensures ReadJoins([Text(head)] + rest) ==
            match ReadJoins(rest) case None => None case Some(joins) => Some([(head, [])] + joins)
  {
    assert ([Text(head)] + rest)[1..] == rest;
  }

  lemma ReadWithOn(head: string, body: seq<Item>, on: seq<OnClause>, rest: seq<Item>)
    requires ReadOn(body) == Some((on, rest))
    ensures ReadJoins([Text(head), ON] + body) ==
            match ReadJoins(rest) case None => None case Some(joins) => Some([(head, on)] + joins)
  {
    assert ([Text(head), ON] + body)[2..] == body;
  }

  lemma ClauseShape(c: JoinClause, rest: seq<Item>)
    ensures ClauseItems(c) + rest ==
            if c.on == [] then [Text(Head(c))] + rest else [Text(Head(c)), ON] + (Join(AND, OnParts(c.on)) + rest)
  {
  }

  lemma ClauseRead(c: JoinClause, rest: seq<Item>)
    requires EndsOn(rest) && (rest == [] || rest[0] != ON)
    ensures ReadJoins(ClauseItems(c) + rest) ==
            match ReadJoins(rest) case None => None case Some(joins) => Some([(Head(c), c.on)] + joins)
  {
    ClauseShape(c, rest);
    if c.on == [] {
      ReadBare(Head(c), rest);
    } else {
      ConditionsRead(c.on, rest);
      ReadWithOn(Head(c), Join(AND, OnParts(c.on)) + rest, c.on, rest);
    }
  }

  lemma {:induction false} JoinsRead(clauses: seq<JoinClause>)
    ensures ReadJoins(AllItems(clauses)) == Some(Asked(clauses))
  {
    if clauses != [] {
      AllItemsFront(clauses);
      ItemsEnd(clauses[1..]);
      JoinsRead(clauses[1..]);
      ClauseRead(clauses[0], AllItems(clauses[1..]));
    }
  }

  // ------------------------------------------------------------- what is let in

  /** A column of some table that may be joined. */
  ghost predicate KnownColumn(joinMap: map<string, JoinTable>, sql: string) {
    exists alias, key :: alias in joinMap && key in joinMap[alias].columns.values && joinMap[alias].columns.values[key] == sql
  }

  ghost predicate Allowed(joinMap: map<string, JoinTable>, o: OnClause) {
    KnownColumn(joinMap, o.left) && o.op in OPERATORS && KnownColumn(joinMap, o.right)
  }

  lemma ResolvedIsKnown(ref: string, joinMap: map<string, JoinTable>)
    requires ResolveColumn(ref, joinMap).Ok?
    ensures KnownColumn(joinMap, ResolveColumn(ref, joinMap).value)
  {
    var dot := Strings.FirstDot(ref);
    assert ref[..dot] in joinMap && ref[dot + 1..] in joinMap[ref[..dot]].columns.values;
  }

  lemma ConditionIsAllowed(value: Value, joinMap: map<string, JoinTable>)
    requires ConditionOf(value, joinMap).Ok?
    ensures Allowed(joinMap, ConditionOf(value, joinMap).value)
  {
    ResolvedIsKnown(TextOf(value.items[0]), joinMap);
    ResolvedIsKnown(TextOf(value.items[2]), joinMap);
  }

  lemma {:induction false} ConditionsAreAllowed(list: seq<Value>, joinMap: map<string, JoinTable>)
    requires ConditionsOf(list, joinMap).Ok?
    ensures var on := ConditionsOf(list, joinMap).value;
            |on| == |list| && forall i | 0 <= i < |on| :: Allowed(joinMap, on[i])
  {
    if list != [] {
      ConditionsAreAllowed(list[..|list| - 1], joinMap);
      ConditionIsAllowed(list[|list| - 1], joinMap);
    }
  }

  /** A clause joins a listed table, on listed columns only, and without conditions exactly when
      it is a cross join. */
  ghost predicate ClauseAllowed(node: Node, c: JoinClause)
    requires node.JoinByNode?
  {
    && (exists alias | alias in node.joinMap :: c.table == QualifiedTable(node.joinMap[alias]))
    && (forall i | 0 <= i < |c.on| :: Allowed(node.joinMap, c.on[i]))
    && (c.on == [] <==> c.keyword == "CROSS JOIN")
  }

  lemma OnlyCrossIsBare(joinType: string)
    ensures Keyword(joinType) == Ok("CROSS JOIN") <==> joinType == "cross"
  {
  }

  lemma ClauseParts(node: Node, alias: string, entry: map<string, Value>)
    requires node.JoinByNode? && ClauseOf(node, alias, entry).Ok?
    ensures var c := ClauseOf(node, alias, entry).value;
            && alias in node.joinMap && c.table == QualifiedTable(node.joinMap[alias])
            && Keyword(JoinType(node, alias, entry)) == Ok(c.keyword)
            && (if JoinType(node, alias, entry) == "cross" then c.on == [] else OnOf(entry, node.joinMap) == Ok(c.on))
  {
  }

  lemma ClauseIsAllowed(node: Node, alias: string, entry: map<string, Value>)
    requires node.JoinByNode? && ClauseOf(node, alias, entry).Ok?
    ensures ClauseAllowed(node, ClauseOf(node, alias, entry).value)
  {
    ClauseParts(node, alias, entry);
    OnlyCrossIsBare(JoinType(node, alias, entry));
    if JoinType(node, alias, entry) != "cross" {
      ConditionsAreAllowed(entry["on"].items, node.joinMap);
    }
  }

  lemma {:induction false} ClausesAreAllowed(node: Node, value: Value, aliases: seq<string>)
    requires node.JoinByNode? && Clauses(node, value, aliases).Ok?
    ensures var clauses := Clauses(node, value, aliases).value;
            forall i | 0 <= i < |clauses| :: ClauseAllowed(node, clauses[i])
  {
    if aliases != [] {
      var n := |aliases| - 1;
      ClausesAreAllowed(node, value, aliases[..n]);
      var entry := EntryOf(value, aliases[n]);
      if entry.Some? {
        ClauseIsAllowed(node, aliases[n], entry.value);
      }
    }
  }

  lemma {:induction false} JoinsBindNothing(clauses: seq<JoinClause>)
    ensures Literal(AllItems(clauses))
  {
    if clauses != [] {
      JoinsBindNothing(clauses[..|clauses| - 1]);
      OnLiteral(clauses[|clauses| - 1].on);
    }
  }

  lemma OnLiteral(on: seq<OnClause>)
    ensures Literal(OnItems(on))
  {
    if on != [] {
      PartsLiteral(on);
    }
  }

  lemma {:induction false} PartsLiteral(on: seq<OnClause>)
    ensures Literal(Join(AND, OnParts(on)))
  {
    if on != [] {
      PartsLiteral(on[..|on| - 1]);
      JoinAppend(AND, OnParts(on[..|on| - 1]), OnPart(on[|on| - 1]));
    }
  }

  /** The text of a `joinBy` reads as exactly the joins asked for, in their order; they only use
      listed tables, columns and operators, and bind no values. */
  lemma JoinByMeans(node: Node, params: Params)
    requires node.JoinByNode? && JoinByItems(node, params).Ok?
    ensures var items := JoinByItems(node, params).value;
            var value := Lookup(params, node.param);
            var clauses := Clauses(node, value, Aliases(value)).value;
            && ReadJoins(items) == Some(Asked(clauses))
            && (forall i | 0 <= i < |clauses| :: ClauseAllowed(node, clauses[i]))
            && Args(items) == []
  {
    var value := Lookup(params, node.param);
    var clauses := Clauses(node, value, Aliases(value)).value;
    JoinsRead(clauses);
    ClausesAreAllowed(node, value, Aliases(value));
    JoinsBindNothing(clauses);
    LiteralTokens(AllItems(clauses), 0, 0);
  }
}
