/** What the text of a `set` clause assigns, read back from the emitted fragments. */
module SqlSets {
  import opened SqlTemplate
  import opened SqlParts
  import opened SqlSpec

  /** The assignments `column = placeholder, ...` that a stretch of text starts with. */
  function Bindings(items: seq<Item>): seq<(string, Value)> {
    if |items| < 3 || !items[0].Name? || items[1] != Text(" = ") || !items[2].Arg? then []
    else [(items[0].sql, items[2].arg)]
         + if |items| > 3 && items[3] == COMMA then Bindings(items[4..]) else []
  }

  /** The keys that are both given and declared, in the order of the keys. */
  function AssignedKeys(columns: OrderedMap, order: seq<string>, m: Row): (keys: seq<string>)
    ensures forall key :: key in keys <==> key in order && key in m && key in columns.values
  {
    if order == [] then []
    else
      var front, key := order[..|order| - 1], order[|order| - 1];
      assert order == front + [key];
      AssignedKeys(columns, front, m) + if key in m && key in columns.values then [key] else []
  }

  /** Each key with its own column and its own value. */
  function Assigned(columns: OrderedMap, keys: seq<string>, m: Row): (pairs: seq<(string, Value)>)
    requires forall key | key in keys :: key in m && key in columns.values
    ensures |pairs| == |keys|
    ensures forall i | 0 <= i < |keys| :: pairs[i] == (columns.values[keys[i]], m[keys[i]])
  {
    seq(|keys|, i requires 0 <= i < |keys| => (columns.values[keys[i]], m[keys[i]]))
  }

  lemma {:induction false} SetPartsAre(columns: OrderedMap, order: seq<string>, m: Row)
    ensures var parts, keys := SetParts(columns, order, m), AssignedKeys(columns, order, m);
            |parts| == |keys| &&
            forall i | 0 <= i < |parts| :: parts[i] == SetPart(columns.values[keys[i]], m[keys[i]])
  {
    if order != [] {
      SetPartsAre(columns, order[..|order| - 1], m);
    }
  }

  lemma ReadLast(col: string, value: Value)
    ensures Bindings(SetPart(col, value)) == [(col, value)]
  {
  }

  lemma ReadNext(col: string, value: Value, tail: seq<Item>)
    ensures Bindings(SetPart(col, value) + [COMMA] + tail) == [(col, value)] + Bindings(tail)
  {
    var items := SetPart(col, value) + [COMMA] + tail;
    assert items[0] == Name(col) && items[1] == Text(" = ") && items[2] == Arg(value) && items[3] == COMMA;
    assert items[4..] == tail;
  }

  lemma {:induction false} ReadBindings(parts: seq<seq<Item>>, pairs: seq<(string, Value)>)
    requires |parts| == |pairs| && forall i | 0 <= i < |parts| :: parts[i] == SetPart(pairs[i].0, pairs[i].1)
    ensures Bindings(Join(COMMA, parts)) == pairs
  {
    if |parts| == 1 {
      ReadLast(pairs[0].0, pairs[0].1);
    } else if |parts| > 1 {
      JoinCons(COMMA, parts);
      ReadBindings(parts[1..], pairs[1..]);
      ReadNext(pairs[0].0, pairs[0].1, Join(COMMA, parts[1..]));
    }
  }

  lemma ReadSetParts(columns: OrderedMap, order: seq<string>, m: Row)
    ensures Bindings(Join(COMMA, SetParts(columns, order, m))) ==
            Assigned(columns, AssignedKeys(columns, order, m), m)
  {
    SetPartsAre(columns, order, m);
    ReadBindings(SetParts(columns, order, m), Assigned(columns, AssignedKeys(columns, order, m), m));
  }

  /** An ordered dictionary is assigned in its own key order, a plain map in declared order; either
      way the text after the keyword reads back as exactly the keys that are given and declared,
      each with its own column and its own value. */
  lemma SetReads(node: Node, params: Params)
    requires node.SetNode?
    ensures var given := Lookup(params, node.param);
            var items := SetItems(node, params);
            && (items.Ok? <==> (given.Dict? && given.order != []) || (given.Map? && given.m != map[]))
            && (items.Ok? ==>
                  var order := if given.Dict? then given.order else node.columns.keys;
                  var m := if given.Dict? then given.entries else given.m;
                  && items.value != [] && items.value[0] == Text("set ")
                  && Bindings(items.value[1..]) ==
                     Assigned(node.columns, AssignedKeys(node.columns, order, m), m))
  {
    var items := SetItems(node, params);
    if items.Ok? {
      match Lookup(params, node.param)
      case Dict(order, entries) =>
        ReadSetParts(node.columns, order, entries);
        assert items.value[1..] == Join(COMMA, SetParts(node.columns, order, entries));
      case Map(m) =>
        ReadSetParts(node.columns, node.columns.keys, m);
        assert items.value[1..] == Join(COMMA, SetParts(node.columns, node.columns.keys, m));
    }
  }
}
