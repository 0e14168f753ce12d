/** SQL search conditions read back from the builder's output.

    The grammar is that of sections 8.12 and 8.3 of ISO/IEC 9075:1992: AND binds
    tighter than OR, parentheses group, and the `and` of a BETWEEN predicate
    belongs to the predicate. */
module SearchCondition {
  import opened Wrappers
  import opened SqlTemplate
  import opened SqlParts
  import opened SqlSpec
  import opened Seqs

  /** SQL's three truth values. */
  datatype Tri = True | False | Unknown

  datatype Expr =
    | Never  // 1=0
    | Pred(col: string, op: Op, args: seq<Value>)
    | And(left: Expr, right: Expr)
    | Or(left: Expr, right: Expr)

  /** The truth of each predicate on one row of one database. */
  type World = (string, Op, seq<Value>) -> Tri

  function TriAnd(a: Tri, b: Tri): Tri {
    if a == False || b == False then False
    else if a == Unknown || b == Unknown then Unknown
    else True
  }

  function TriOr(a: Tri, b: Tri): Tri {
    if a == True || b == True then True
    else if a == Unknown || b == Unknown then Unknown
    else False
  }

  function Eval(e: Expr, w: World): Tri {
    match e
    case Never => False
    case Pred(col, op, args) => w(col, op, args)
    case And(l, r) => TriAnd(Eval(l, w), Eval(r, w))
    case Or(l, r) => TriOr(Eval(l, w), Eval(r, w))
  }

  type Parsed = Option<(Expr, seq<Item>)>

  function BinaryOp(text: string): Option<Op> {
    match text
    case " = " => Some(Eq)
    case " <> " => Some(Ne)
    case " > " => Some(Gt)
    case " >= " => Some(Ge)
    case " < " => Some(Lt)
    case " <= " => Some(Le)
    case " like " => Some(Like)
    case " not like " => Some(NotLike)
    case _ => None
  }

  /** A nonempty, comma separated, closed list of values. */
  function ParseList(ts: seq<Item>): (r: Option<(seq<Value>, seq<Item>)>)
    ensures r.Some? ==> |r.value.1| < |ts|
  {
    if |ts| < 2 || !ts[0].Arg? then None
    else if ts[1] == Text(")") then Some(([ts[0].arg], ts[2..]))
    else if ts[1] == COMMA then
      match ParseList(ts[2..])
      case Some((values, rest)) => Some(([ts[0].arg] + values, rest))
      case None => None
    else None
  }

  function ParsePredicate(ts: seq<Item>): (r: Parsed)
    ensures r.Some? ==> |r.value.1| < |ts|
  {
    if ts == [] then None
    else if ts[0] == Text("1=0") then Some((Never, ts[1..]))
    else if |ts| < 2 || !ts[0].Name? || !ts[1].Text? then None
    else
      var col, text := ts[0].sql, ts[1].text;
      if text == " is null" then Some((Pred(col, IsNull, []), ts[2..]))
      else if text == " is not null" then Some((Pred(col, IsNotNull, []), ts[2..]))
      else if text == " in (" || text == " not in (" then
        match ParseList(ts[2..])
        case Some((values, rest)) => Some((Pred(col, if text == " in (" then In else NotIn, values), rest))
        case None => None
      else if |ts| < 3 || !ts[2].Arg? then None
      else if text == " between " then
        if |ts| >= 5 && ts[3] == Text(" and ") && ts[4].Arg?
        then Some((Pred(col, Between, [ts[2].arg, ts[4].arg]), ts[5..]))
        else None
      else match BinaryOp(text)
        case Some(op) => Some((Pred(col, op, [ts[2].arg]), ts[3..]))
        case None => None
  }

  predicate StartsWith(ts: seq<Item>, text: string) {
    ts != [] && ts[0] == Text(text)
  }

  function ParsePrimary(ts: seq<Item>): (r: Parsed)
    ensures r.Some? ==> |r.value.1| < |ts|
    decreases |ts|, 0
  {
    if StartsWith(ts, "(") then
      match ParseOr(ts[1..])
      case Some((e, rest)) => if StartsWith(rest, ")") then Some((e, rest[1..])) else None
      case None => None
    else ParsePredicate(ts)
  }

  function ParseAnd(ts: seq<Item>): (r: Parsed)
    ensures r.Some? ==> |r.value.1| < |ts|
    decreases |ts|, 1
  {
    match ParsePrimary(ts)
    case Some((e, rest)) => AndTail(e, rest)
    case None => None
  }

  function AndTail(e: Expr, ts: seq<Item>): (r: Parsed)
    ensures r.Some? ==> |r.value.1| <= |ts|
    decreases |ts|, 2
  {
    if StartsWith(ts, " and ") then
      match ParsePrimary(ts[1..])
      case Some((right, rest)) => AndTail(And(e, right), rest)
      case None => None
    else Some((e, ts))
  }

  function ParseOr(ts: seq<Item>): (r: Parsed)
    ensures r.Some? ==> |r.value.1| < |ts|
    decreases |ts|, 3
  {
    match ParseAnd(ts)
    case Some((e, rest)) => OrTail(e, rest)
    case None => None
  }

  function OrTail(e: Expr, ts: seq<Item>): (r: Parsed)
    ensures r.Some? ==> |r.value.1| <= |ts|
    decreases |ts|, 4
  {
    if StartsWith(ts, " or ") then
      match ParseAnd(ts[1..])
      case Some((right, rest)) => OrTail(Or(e, right), rest)
      case None => None
    else Some((e, ts))
  }

  /** A whole search condition, with nothing left over. */
  function ParseAll(ts: seq<Item>): Option<Expr> {
    match ParseOr(ts)
    case Some((e, rest)) => if rest == [] then Some(e) else None
    case None => None
  }

  // ------------------------------------------------------- parts of a chain

  /** What may follow a part: another part, a closing parenthesis, or nothing. */
  predicate Stops(post: seq<Item>) {
    post == [] || post[0] in {Text(" and "), Text(" or "), Text(")")}
  }

  function ExprOf(part: seq<Item>): Expr {
    match ParsePrimary(part)
    case Some((e, _)) => e
    case None => Never
  }

  /** `part` is one operand, whatever follows it. */
  ghost predicate Solid(part: seq<Item>) {
    forall post :: ParsePrimary(part + post) == Some((ExprOf(part), post))
  }

  /** `part` is never an operand where one is needed. */
  ghost predicate Broken(part: seq<Item>) {
    forall post | Stops(post) :: ParsePrimary(part + post) == None
  }

  lemma SolidNotBroken(part: seq<Item>)
    ensures !(Solid(part) && Broken(part))
  {
    assert part + [] == part;
    assert Stops([]);
  }

  /** Each of `parts` behind its separator. */
  function Tail(sep: Item, parts: seq<seq<Item>>): seq<Item> {
    if parts == [] then [] else [sep] + parts[0] + Tail(sep, parts[1..])
  }

  lemma {:induction false} TailAppend(sep: Item, parts: seq<seq<Item>>, part: seq<Item>)
    ensures Tail(sep, parts + [part]) == Tail(sep, parts) + ([sep] + part)
  {
    if parts == [] {
      assert parts + [part] == [part];
      assert Tail(sep, [part]) == [sep] + part;
    } else {
      assert (parts + [part])[0] == parts[0] && (parts + [part])[1..] == parts[1..] + [part];
      TailAppend(sep, parts[1..], part);
      Regroup([sep] + parts[0], Tail(sep, parts[1..]), [sep] + part);
    }
  }

  lemma {:induction false} JoinIsTail(sep: Item, parts: seq<seq<Item>>)
    requires parts != []
    ensures Join(sep, parts) == parts[0] + Tail(sep, parts[1..])
  {
    if |parts| == 1 {
      assert Tail(sep, parts[1..]) == [];
      assert parts[0] + [] == parts[0];
    } else {
      var front, last := parts[..|parts| - 1], parts[|parts| - 1];
      JoinIsTail(sep, front);
      TailAppend(sep, front[1..], last);
      assert front[1..] + [last] == parts[1..];
      Regroup(parts[0], Tail(sep, front[1..]), [sep] + last);
      Regroup(Join(sep, front), [sep], last);
    }
  }

  function Link(isAnd: bool, left: Expr, right: Expr): Expr {
    if isAnd then And(left, right) else Or(left, right)
  }

  /** A left-leaning chain of operands. */
  function Chain(isAnd: bool, e: Expr, parts: seq<seq<Item>>): Expr
    decreases |parts|
  {
    if parts == [] then e else Chain(isAnd, Link(isAnd, e, ExprOf(parts[0])), parts[1..])
  }

  function Joiner(isAnd: bool): Item {
    if isAnd then Text(" and ") else Text(" or ")
  }

  ghost predicate AllSolid(parts: seq<seq<Item>>) {
    forall i | 0 <= i < |parts| :: Solid(parts[i])
  }

  ghost predicate AllKnown(parts: seq<seq<Item>>) {
    forall i | 0 <= i < |parts| :: Solid(parts[i]) || Broken(parts[i])
  }

  /** Where a level of the output ends: not at another joiner. */
  predicate Ends(post: seq<Item>) {
    post == [] || post[0] == Text(")")
  }

  lemma TailStops(isAnd: bool, parts: seq<seq<Item>>, post: seq<Item>)
    requires Ends(post)
    ensures Stops(Tail(Joiner(isAnd), parts) + post)
    ensures !StartsWith(Tail(Joiner(isAnd), parts) + post, if isAnd then " or " else " and ")
  {
    if parts == [] {
      assert [] + post == post;
    }
  }

  /** The two levels of the grammar share one shape: operands and a joiner. */
  function Operand(isAnd: bool, ts: seq<Item>): Parsed {
    if isAnd then ParsePrimary(ts) else ParseAnd(ts)
  }

  function LevelTail(isAnd: bool, e: Expr, ts: seq<Item>): Parsed {
    if isAnd then AndTail(e, ts) else OrTail(e, ts)
  }

  lemma LevelTailStep(isAnd: bool, e: Expr, ts: seq<Item>)
    requires ts != [] && ts[0] == Joiner(isAnd)
    ensures LevelTail(isAnd, e, ts) ==
            match Operand(isAnd, ts[1..])
            case Some((right, rest)) => LevelTail(isAnd, Link(isAnd, e, right), rest)
            case None => None
  {
  }

  lemma LevelTailEnd(isAnd: bool, e: Expr, ts: seq<Item>)
    requires Ends(ts)
    ensures LevelTail(isAnd, e, ts) == Some((e, ts))
  {
  }

  /** The operand at the head of `part + rest`, read at the level of its joiner. */
  lemma SolidHead(isAnd: bool, part: seq<Item>, rest: seq<Item>)
    requires Solid(part)
    requires isAnd || !StartsWith(rest, " and ")
    ensures Operand(isAnd, part + rest) == Some((ExprOf(part), rest))
  {
    assert ParsePrimary(part + rest) == Some((ExprOf(part), rest));
    if !isAnd {
      assert AndTail(ExprOf(part), rest) == Some((ExprOf(part), rest));
    }
  }

  lemma BrokenHead(isAnd: bool, part: seq<Item>, rest: seq<Item>)
    requires Broken(part) && Stops(rest)
    ensures Operand(isAnd, part + rest) == None
  {
  }

  lemma TailShape(sep: Item, parts: seq<seq<Item>>, post: seq<Item>)
    requires parts != []
    ensures Tail(sep, parts) + post != []
    ensures (Tail(sep, parts) + post)[0] == sep
    ensures (Tail(sep, parts) + post)[1..] == parts[0] + (Tail(sep, parts[1..]) + post)
  {
    Regroup([sep], parts[0], Tail(sep, parts[1..]));
    Regroup([sep], parts[0] + Tail(sep, parts[1..]), post);
    Regroup(parts[0], Tail(sep, parts[1..]), post);
  }

  lemma {:induction false} TailParses(isAnd: bool, e: Expr, parts: seq<seq<Item>>, post: seq<Item>)
    requires AllKnown(parts) && Ends(post)
    ensures LevelTail(isAnd, e, Tail(Joiner(isAnd), parts) + post) ==
            if AllSolid(parts) then Some((Chain(isAnd, e, parts), post)) else None
    decreases |parts|
  {
    var sep := Joiner(isAnd);
    if parts == [] {
      assert Tail(sep, parts) + post == post;
      LevelTailEnd(isAnd, e, post);
    } else {
      var rest := Tail(sep, parts[1..]) + post;
      TailShape(sep, parts, post);
      LevelTailStep(isAnd, e, Tail(sep, parts) + post);
      TailStops(isAnd, parts[1..], post);
      AllSolidCons(parts);
      if Solid(parts[0]) {
        SolidHead(isAnd, parts[0], rest);
        TailParses(isAnd, Link(isAnd, e, ExprOf(parts[0])), parts[1..], post);
      } else {
        BrokenHead(isAnd, parts[0], rest);
      }
    }
  }

  lemma AllSolidCons(parts: seq<seq<Item>>)
    requires parts != []
    ensures AllSolid(parts) <==> Solid(parts[0]) && AllSolid(parts[1..])
  {
    assert parts == [parts[0]] + parts[1..];
  }

  lemma LevelStart(isAnd: bool, ts: seq<Item>, tail: seq<Item>, part: seq<Item>)
    requires ts == part + tail && Stops(tail) && !StartsWith(tail, if isAnd then " or " else " and ")
    requires Solid(part)
    requires forall r | LevelTail(isAnd, ExprOf(part), tail) == Some(r) :: Ends(r.1)
    ensures ParseOr(ts) == LevelTail(isAnd, ExprOf(part), tail)
  {
    assert ParsePrimary(ts) == Some((ExprOf(part), tail));
    assert ParseAnd(ts) == AndTail(ExprOf(part), tail);
  }

  lemma LevelBroken(ts: seq<Item>, tail: seq<Item>, part: seq<Item>)
    requires ts == part + tail && Broken(part) && Stops(tail)
    ensures ParseOr(ts) == None
  {
    assert ParsePrimary(ts) == None;
  }

  /** One level of output parses exactly when it has operands and all of them are sound. */
  lemma LevelParses(isAnd: bool, parts: seq<seq<Item>>, post: seq<Item>)
    requires AllKnown(parts) && Ends(post)
    ensures ParseOr(Join(Joiner(isAnd), parts) + post) ==
            if parts != [] && AllSolid(parts) then Some((Chain(isAnd, ExprOf(parts[0]), parts[1..]), post)) else None
  {
    var sep := Joiner(isAnd);
    if parts == [] {
      EmptyLevel(Join(sep, parts) + post, post);
    } else {
      var tail := Tail(sep, parts[1..]) + post;
      JoinIsTail(sep, parts);
      Regroup(parts[0], Tail(sep, parts[1..]), post);
      TailStops(isAnd, parts[1..], post);
      AllSolidCons(parts);
      if Solid(parts[0]) {
        TailParses(isAnd, ExprOf(parts[0]), parts[1..], post);
        LevelStart(isAnd, Join(sep, parts) + post, tail, parts[0]);
      } else {
        LevelBroken(Join(sep, parts) + post, tail, parts[0]);
      }
    }
  }

  lemma EmptyLevel(ts: seq<Item>, post: seq<Item>)
    requires ts == post && Ends(post)
    ensures ParseOr(ts) == None
  {
    assert ParsePredicate(ts) == None;
    assert ParsePrimary(ts) == None;
  }
}
