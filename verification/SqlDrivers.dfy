/** The text of a query, and how a database's driver reads it: every placeholder meets a value. */
module SqlDrivers {
  import opened Wrappers
  import opened SqlTemplate
  import Digits

  /** A fragment as it is written. */
  datatype Written = Plain(text: string) | Column(sql: string) | Placeholder(spelling: string)

  /** How a dialect spells its placeholders, counted from zero. */
  type Spelling = nat -> string

  /** The place in the value list that a placeholder names, behind a number of other placeholders. */
  type Placing = (string, nat) -> Option<nat>

  function SpellingOf(dialect: Dialect): Spelling {
    (index: nat) =>
      match dialect
      case PostgreSql => "$" + Digits.Numeral(index + 1)
      case DuckDb => "$" + Digits.Numeral(index + 1)
      case TransactSql => "@param_" + Digits.Numeral(index)
      case Sqlite => "?"
  }

  function Spell(spelling: Spelling, token: Token): Written {
    match token
    case Text(s) => Plain(s)
    case Name(s) => Column(s)
    case Arg(index) => Placeholder(spelling(index))
  }

  function SpellAll(spelling: Spelling, tokens: seq<Token>): (written: seq<Written>)
    ensures |written| == |tokens|
  {
    if tokens == [] then [] else [Spell(spelling, tokens[0])] + SpellAll(spelling, tokens[1..])
  }

  function TextOf(fragment: Written): string {
    match fragment
    case Plain(s) => s
    case Column(s) => s
    case Placeholder(s) => s
  }

  /** `strings.Join(sql, "")`. */
  function Joined(written: seq<Written>): string {
    if written == [] then "" else TextOf(written[0]) + Joined(written[1..])
  }

  // ------------------------------------------------------------ the driver's side

  predicate IsNumeral(s: string) {
    s != "" && forall c | c in s :: Digits.IsDigit(c)
  }

  /** `$1` names the first value, `@param_0` does, and a question mark names the next one. */
  function PlacingOf(dialect: Dialect): Placing {
    (text: string, earlier: nat) =>
      match dialect
      case TransactSql =>
        if |text| > 7 && text[..7] == "@param_" && IsNumeral(text[7..]) then Some(Digits.ReadNumeral(text[7..])) else None
      case Sqlite => if text == "?" then Some(earlier) else None
      case _ =>
        if |text| > 1 && text[0] == '$' && IsNumeral(text[1..]) && Digits.ReadNumeral(text[1..]) > 0
        then Some(Digits.ReadNumeral(text[1..]) - 1)
        else None
  }

  /** What the database runs: each placeholder gives way to the value it names; none without one. */
  function Run(placing: Placing, written: seq<Written>, values: seq<Value>, earlier: nat): Option<seq<Item>> {
    if written == [] then Some([])
    else
      var first := RunOne(placing, written[0], values, earlier);
      var rest := Run(placing, written[1..], values, earlier + (if written[0].Placeholder? then 1 else 0));
      if first.None? || rest.None? then None else Some([first.value] + rest.value)
  }

  function RunOne(placing: Placing, fragment: Written, values: seq<Value>, earlier: nat): Option<Item> {
    match fragment
    case Plain(s) => Some(Text(s))
    case Column(s) => Some(Name(s))
    case Placeholder(text) =>
      match placing(text, earlier)
      case Some(k) => if k < |values| then Some(Arg(values[k])) else None
      case None => None
  }

  /** The driver takes the k-th placeholder for the k-th value. */
  ghost predicate Agree(spelling: Spelling, placing: Placing) {
    forall k: nat :: placing(spelling(k), k) == Some(k)
  }

  /** In every dialect it does; where placeholders are numbered, wherever they stand. */
  lemma PlaceOfPlaceholder(dialect: Dialect, k: nat, earlier: nat)
    requires dialect == Sqlite ==> earlier == k
    ensures PlacingOf(dialect)(SpellingOf(dialect)(k), earlier) == Some(k)
  {
    var text := SpellingOf(dialect)(k);
    match dialect
    case TransactSql =>
      assert text[..7] == "@param_" && text[7..] == Digits.Numeral(k);
      Digits.NumeralRoundTrip(k);
    case Sqlite =>
    case _ =>
      assert text[1..] == Digits.Numeral(k + 1);
      Digits.NumeralRoundTrip(k + 1);
  }

  lemma DialectsAgree(dialect: Dialect)
    ensures Agree(SpellingOf(dialect), PlacingOf(dialect))
  {
    forall k: nat
      ensures PlacingOf(dialect)(SpellingOf(dialect)(k), k) == Some(k)
    {
      PlaceOfPlaceholder(dialect, k, k);
    }
  }

  /** The next value is where the next placeholder looks for it. */
  lemma HeadValue(items: seq<Item>, before: seq<Value>, after: seq<Value>, values: seq<Value>)
    requires items != [] && values == before + Args(items) + after
    ensures values == (before + ArgOf(items[0])) + Args(items[1..]) + after
    ensures items[0].Arg? ==> |before| < |values| && values[|before|] == items[0].arg
  {
    SplitValues(ArgOf(items[0]), Args(items[1..]), before, after);
  }

  lemma SplitValues(first: seq<Value>, rest: seq<Value>, before: seq<Value>, after: seq<Value>)
    ensures before + (first + rest) + after == (before + first) + rest + after
    ensures first != [] ==> (before + (first + rest) + after)[|before|] == first[0]
  {
  }

  lemma SpellNext(spelling: Spelling, first: Token, rest: seq<Token>)
    ensures SpellAll(spelling, [first] + rest) == [Spell(spelling, first)] + SpellAll(spelling, rest)
  {
    assert ([first] + rest)[1..] == rest;
  }

  /** One fragment is run, behind it the others. */
  lemma RunStep(spelling: Spelling, placing: Placing, item: Item, tail: seq<Written>, rest: seq<Item>,
                values: seq<Value>, earlier: nat)
    requires Agree(spelling, placing)
    requires item.Arg? ==> earlier < |values| && values[earlier] == item.arg
    requires Run(placing, tail, values, earlier + |ArgOf(item)|) == Some(rest)
    ensures Run(placing, [Spell(spelling, NumberOne(item, earlier))] + tail, values, earlier) == Some([item] + rest)
  {
    var first := Spell(spelling, NumberOne(item, earlier));
    assert ([first] + tail)[0] == first && ([first] + tail)[1..] == tail;
    assert item.Arg? ==> placing(spelling(earlier), earlier) == Some(earlier);
  }

  lemma {:induction false} RunSpelled(spelling: Spelling, placing: Placing, items: seq<Item>, before: seq<Value>,
                                      after: seq<Value>, values: seq<Value>)
    requires Agree(spelling, placing) && values == before + Args(items) + after
    ensures Run(placing, SpellAll(spelling, Number(items, |before|)), values, |before|) == Some(items)
    decreases |items|
  {
    if items != [] {
      var first, rest := items[0], items[1..];
      var next := |before| + |ArgOf(first)|;
      HeadValue(items, before, after, values);
      RunSpelled(spelling, placing, rest, before + ArgOf(first), after, values);
      RunStep(spelling, placing, first, SpellAll(spelling, Number(rest, next)), rest, values, |before|);
      SpellNext(spelling, NumberOne(first, |before|), Number(rest, next));
      HeadAndTail(items);
    }
  }

  lemma HeadAndTail(items: seq<Item>)
    requires items != []
    ensures items == [items[0]] + items[1..]
  {
  }

  /** The driver runs exactly the items that were to be emitted: every placeholder in the text meets
      the value it was written for. */
  lemma DriverMeetsValues(dialect: Dialect, items: seq<Item>)
    ensures Run(PlacingOf(dialect), SpellAll(SpellingOf(dialect), Number(items, 0)), Args(items), 0) == Some(items)
  {
    DialectsAgree(dialect);
    RunSpelled(SpellingOf(dialect), PlacingOf(dialect), items, [], [], Args(items));
  }

  /** Numbered placeholders of different values are spelled differently. */
  lemma SpellInjective(dialect: Dialect, i: nat, j: nat)
    requires dialect != Sqlite
    requires SpellingOf(dialect)(i) == SpellingOf(dialect)(j)
    ensures i == j
  {
    PlaceOfPlaceholder(dialect, i, 0);
    PlaceOfPlaceholder(dialect, j, 0);
  }
}
