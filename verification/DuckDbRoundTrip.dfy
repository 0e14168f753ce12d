/** Printed type texts and the round trip through the parser. */
module DuckDbRoundTrip {
  import opened Wrappers
  import opened Digits
  import opened DuckDbSyntax

  /** Type expressions as DuckDB prints them; scalars are kept by name. */
  datatype TypeExpr =
    | Named(name: string)
    | StructType(fields: seq<FieldExpr>)
    | UnionType(members: seq<FieldExpr>)
    | MapType(key: TypeExpr, value: TypeExpr)
    | ListType(element: TypeExpr, length: Option<nat>)

  /** A name may be printed bare when it holds nothing that would end it. */
  datatype FieldExpr = FieldExpr(name: string, quoted: bool, value: TypeExpr)

  /** A text with every quote character doubled. */
  function Escape(s: string, quote: char): string {
    if s == "" then ""
    else (if s[0] == quote then [quote, quote] else [s[0]]) + Escape(s[1..], quote)
  }

  function Print(t: TypeExpr): string {
    match t
    case Named(name) => name
    case StructType(fields) => Enclose("STRUCT", PrintFields(fields))
    case UnionType(members) => Enclose("UNION", PrintFields(members))
    case MapType(key, value) => Enclose("MAP", Print(key) + ", " + Print(value))
    case ListType(element, length) => Print(element) + "[" + PrintLength(length) + "]"
  }

  function Enclose(keyword: string, inner: string): string {
    keyword + "(" + inner + ")"
  }

  function PrintLength(length: Option<nat>): string {
    if length.Some? then Numeral(length.value) else ""
  }

  function PrintFields(fields: seq<FieldExpr>): string {
    if fields == [] then ""
    else PrintField(fields[0]) + (if |fields| > 1 then ", " else "") + PrintFields(fields[1..])
  }

  function PrintName(field: FieldExpr): string {
    if field.quoted then "\"" + Escape(field.name, '"') + "\"" else field.name
  }

  function PrintField(field: FieldExpr): string {
    PrintName(field) + " " + Print(field.value)
  }

  /** The tree a type expression stands for. */
  function Meaning(t: TypeExpr): TypeTree {
    match t
    case Named(name) => ScalarType(name)
    case StructType(fields) => Struct(FieldMeanings(fields))
    case UnionType(members) => Union(FieldMeanings(members))
    case MapType(key, value) => MapOf(Meaning(key), Meaning(value))
    case ListType(element, length) => List(Meaning(element), length)
  }

  function FieldMeanings(fields: seq<FieldExpr>): seq<Field> {
    if fields == [] then []
    else [Field(fields[0].name, Meaning(fields[0].value))] + FieldMeanings(fields[1..])
  }

  // ------------------------------------------------------------ scalar names

  /** Reads a text with the scanner's rules; `None` where the scanner would stop early. */
  function Scan(s: string, depth: nat, quote: Option<char>): Option<(nat, Option<char>)> {
    if s == "" then Some((depth, quote))
    else
      var c := s[0];
      if quote.Some? then
        if c == quote.value then
          if |s| > 1 && s[1] == quote.value then Scan(s[2..], depth, quote) else Scan(s[1..], depth, None)
        else Scan(s[1..], depth, quote)
      else if c == '\'' || c == '"' then Scan(s[1..], depth, Some(c))
      else if c == '(' then Scan(s[1..], depth + 1, None)
      else if c == ')' then if depth == 0 then None else Scan(s[1..], depth - 1, None)
      else if depth == 0 && (c == ',' || c == '[') then None
      else Scan(s[1..], depth, None)
  }

  /** A scalar type's text: quotes and parentheses closed, no bare comma or bracket, no
      white space around it, and not the head of a struct, map or union. */
  predicate PlainName(name: string) {
    && name != "" && Trim(name) == name
    && Scan(name, 0, None) == Some((0, None))
    && !IsComposite(name)
  }

  predicate Printable(t: TypeExpr) {
    match t
    case Named(name) => PlainName(name)
    case StructType(fields) => PrintableFields(fields)
    case UnionType(members) => PrintableFields(members)
    case MapType(key, value) => Printable(key) && Printable(value)
    case ListType(element, _) => Printable(element)
  }

  predicate PrintableFields(fields: seq<FieldExpr>) {
    fields != [] ==> NamedWell(fields[0]) && Printable(fields[0].value) && PrintableFields(fields[1..])
  }

  /** Any name but the empty one, and a bare one without breaks or a leading quote. */
  predicate NamedWell(field: FieldExpr) {
    field.name != "" && (!field.quoted ==> field.name[0] != '"' && forall c | c in field.name :: !IsBreak(c))
  }

  /** What can follow a type inside another one. */
  predicate Delimited(post: string) {
    post == "" || post[0] in {',', ')', '['}
  }

  lemma DelimiterIsBreak(post: string)
    requires Delimited(post)
    ensures post == "" || (IsBreak(post[0]) && !IsSpace(post[0]))
    ensures SkipSpace(post) == post
  {
  }

  lemma {:induction false} ScanIsLength(name: string, post: string, depth: nat, quote: Option<char>)
    requires Scan(name, depth, quote) == Some((0, None)) && Delimited(post)
    requires quote.Some? ==> quote.value in {'\'', '"'}
    ensures ScalarLength(name + post, depth, quote) == |name|
    decreases |name|
  {
    var all := name + post;
    if name == "" {
      assert all == post;
    } else {
      var c := name[0];
      assert all[0] == c && all[1..] == name[1..] + post;
      if quote.Some? {
        if c == quote.value {
          if |name| > 1 && name[1] == quote.value {
            assert all[1] == name[1] && all[2..] == name[2..] + post;
            ScanIsLength(name[2..], post, depth, quote);
          } else {
            assert |all| > 1 ==> all[1] == if |name| > 1 then name[1] else post[0];
            ScanIsLength(name[1..], post, depth, None);
          }
        } else {
          ScanIsLength(name[1..], post, depth, quote);
        }
      } else if c == '\'' || c == '"' {
        ScanIsLength(name[1..], post, depth, Some(c));
      } else if c == '(' {
        ScanIsLength(name[1..], post, depth + 1, None);
      } else if c == ')' {
        ScanIsLength(name[1..], post, depth - 1, None);
      } else {
        ScanIsLength(name[1..], post, depth, None);
      }
    }
  }

  lemma {:induction false} BareLengthStops(s: string, post: string)
    requires post == "" || IsBreak(post[0])
    ensures BareLength(s + post) == BareLength(s)
  {
    if s == "" {
      assert s + post == post;
    } else {
      assert (s + post)[0] == s[0] && (s + post)[1..] == s[1..] + post;
      if !IsBreak(s[0]) {
        BareLengthStops(s[1..], post);
      }
    }
  }

  lemma {:induction false} SkipSpaceStops(s: string, post: string)
    requires post == "" || !IsSpace(post[0])
    ensures SkipSpace(s + post) == if SkipSpace(s) == "" then post else SkipSpace(s) + post
  {
    if s == "" {
      assert s + post == post;
    } else {
      assert (s + post)[0] == s[0] && (s + post)[1..] == s[1..] + post;
      if IsSpace(s[0]) {
        SkipSpaceStops(s[1..], post);
      }
    }
  }

  lemma TrimShortens(name: string)
    requires name != ""
    ensures IsSpace(name[0]) ==> |Trim(name)| < |name|
  {
    if IsSpace(name[0]) {
      assert SkipSpace(name) == SkipSpace(name[1..]);
    }
  }

  /** A plain name in front of a delimiter is read whole, as a scalar. */
  lemma NameParses(name: string, post: string)
    requires PlainName(name) && Delimited(post)
    ensures ParseBase(name + post) == Ok((ScalarType(name), post))
  {
    var all := name + post;
    NotComposite(name, post);
    ScanIsLength(name, post, 0, None);
    assert all[..|name|] == name && all[|name|..] == post;
  }

  lemma NotComposite(name: string, post: string)
    requires !IsComposite(name) && Delimited(post)
    ensures !IsComposite(name + post)
  {
    var all := name + post;
    DelimiterIsBreak(post);
    BareLengthStops(name, post);
    var n := BareLength(name);
    assert all[..n] == name[..n];
    assert all[n..] == name[n..] + post;
    SkipSpaceStops(name[n..], post);
    var t := SkipSpace(name[n..]);
    assert t != "" ==> (t + post)[0] == t[0];
  }

  // --------------------------------------------------------------- the parts

  lemma {:induction false} PrintHead(t: TypeExpr)
    requires Printable(t)
    ensures Print(t) != "" && !IsSpace(Print(t)[0])
  {
    match t
    case Named(name) => TrimShortens(name);
    case StructType(fields) => assert Print(t)[0] == 'S';
    case UnionType(members) => assert Print(t)[0] == 'U';
    case MapType(key, value) => assert Print(t)[0] == 'M';
    case ListType(element, length) => PrintHead(element);
  }

  lemma SkipNothing(s: string)
    requires s != "" && !IsSpace(s[0])
    ensures SkipSpace(s) == s
  {
  }

  lemma SkipOne(s: string)
    requires s != "" && !IsSpace(s[0])
    ensures SkipSpace(" " + s) == s
  {
    assert (" " + s)[1..] == s;
  }

  lemma {:induction false} DigitsStop(digits: string, post: string)
    requires (forall c | c in digits :: IsDigit(c)) && (post == "" || !IsDigit(post[0]))
    ensures DigitLength(digits + post) == |digits|
  {
    if digits == "" {
      assert digits + post == post;
    } else {
      assert (digits + post)[0] == digits[0] && (digits + post)[1..] == digits[1..] + post;
      DigitsStop(digits[1..], post);
    }
  }

  /** One printed list suffix is read as one level of list. */
  lemma SuffixParses(tree: TypeTree, length: Option<nat>, post: string)
    requires Delimited(post)
    ensures ParseSuffixes(tree, "[" + PrintLength(length) + "]" + post) == ParseSuffixes(List(tree, length), post)
  {
    var digits := PrintLength(length);
    SuffixText(digits, post);
    SkipNothing([']'] + post);
    ExpectHere(']', post);
    DelimiterIsBreak(post);
    if length.Some? {
      NumeralRoundTrip(length.value);
    }
  }

  /** A list suffix taken apart. */
  lemma SuffixText(digits: string, post: string)
    requires forall c | c in digits :: IsDigit(c)
    ensures var s := "[" + digits + "]" + post;
            && s[0] == '[' && DigitLength(s[1..]) == |digits|
            && s[1..][..|digits|] == digits && s[1..][|digits|..] == [']'] + post
  {
    var s, close := "[" + digits + "]" + post, [']'] + post;
    assert s[1..] == digits + close;
    DigitsStop(digits, close);
  }

  /** A printed, quoted identifier is read back. */
  lemma {:induction false} QuotedParses(name: string, post: string)
    requires post == "" || post[0] != '"'
    ensures ReadQuoted(Escape(name, '"') + "\"" + post) == Ok((name, post))
  {
    var s := Escape(name, '"') + "\"" + post;
    if name == "" {
      assert s == "\"" + post;
      assert s[0] == '"' && s[1..] == post;
    } else {
      var rest := Escape(name[1..], '"') + "\"" + post;
      QuotedParses(name[1..], post);
      assert name == [name[0]] + name[1..];
      if name[0] == '"' {
        assert s == "\"\"" + rest;
        assert s[0] == '"' && s[1..][0] == '"' && s[2..] == rest;
      } else {
        assert s == [name[0]] + rest;
        assert s[0] == name[0] && s[1..] == rest;
      }
    }
  }

  predicate IsUpperWord(s: string) {
    forall i | 0 <= i < |s| :: 'A' <= s[i] <= 'Z'
  }

  lemma {:induction false} BareWord(s: string)
    requires IsUpperWord(s)
    ensures BareLength(s) == |s| && UpperCase(s) == s
  {
    if s != "" {
      BareWord(s[1..]);
      assert !IsBreak(s[0]);
      assert UpperCase(s) == [UpperChar(s[0])] + UpperCase(s[1..]);
    }
  }

  /** A keyword and an opening parenthesis are recognised. */
  lemma CompositeHead(keyword: string, s: string)
    requires keyword in {"STRUCT", "MAP", "UNION"}
    ensures var all := keyword + ("(" + s);
            && BareLength(all) == |keyword| && Keyword(all) == keyword && IsComposite(all)
            && SkipSpace(all[|keyword|..]) == "(" + s
  {
    var all := keyword + ("(" + s);
    assert IsUpperWord(keyword);
    BareWord(keyword);
    assert ("(" + s)[0] == '(';
    BareLengthStops(keyword, "(" + s);
    assert all[..|keyword|] == keyword && all[|keyword|..] == "(" + s;
    SkipNothing("(" + s);
  }

  lemma CompositeParses(keyword: string, body: string)
    requires keyword in {"STRUCT", "MAP", "UNION"}
    ensures ParseBase(keyword + ("(" + body)) ==
            if keyword == "MAP" then MapBody(body)
            else match ParseFields(body)
              case Ok(both) => Ok((if keyword == "STRUCT" then Struct(both.0) else Union(both.0), both.1))
              case Err(e) => Err(e)
  {
    CompositeHead(keyword, body);
    assert ("(" + body)[1..] == body;
  }

  // ----------------------------------------------------------- the round trip

  lemma TypeIsBase(s: string, tree: TypeTree, post: string)
    requires s != "" && !IsSpace(s[0])
    requires ParseBase(s) == Ok((tree, post)) && Delimited(post)
    ensures ParseType(s) == ParseSuffixes(tree, post)
  {
    SkipNothing(s);
    DelimiterIsBreak(post);
  }

  lemma EncloseParses(keyword: string, inner: string, post: string)
    requires keyword in {"STRUCT", "MAP", "UNION"}
    ensures ParseBase(Enclose(keyword, inner) + post) ==
            if keyword == "MAP" then MapBody(inner + ")" + post)
            else match ParseFields(inner + ")" + post)
              case Ok(both) => Ok((if keyword == "STRUCT" then Struct(both.0) else Union(both.0), both.1))
              case Err(e) => Err(e)
    ensures Enclose(keyword, inner) != "" && (Enclose(keyword, inner) + post)[0] == keyword[0]
  {
    EncloseShape(keyword, inner, post);
    CompositeParses(keyword, inner + ")" + post);
  }

  lemma EncloseShape(keyword: string, inner: string, post: string)
    ensures Enclose(keyword, inner) + post == keyword + ("(" + (inner + ")" + post))
  {
  }

  /** Behind any printed type, the parser stands at the delimiter, ready for a suffix. */
  lemma {:induction false} TypeParses(t: TypeExpr, post: string)
    requires Printable(t) && Delimited(post)
    ensures ParseType(Print(t) + post) == ParseSuffixes(Meaning(t), post)
    decreases t, 1
  {
    match t {
      case Named(name) =>
        NameParses(name, post);
        TrimShortens(name);
        TypeIsBase(name + post, Meaning(t), post);
      case StructType(fields) =>
        FieldsParse(fields, post);
        EncloseParses("STRUCT", PrintFields(fields), post);
        TypeIsBase(Print(t) + post, Meaning(t), post);
      case UnionType(members) =>
        FieldsParse(members, post);
        EncloseParses("UNION", PrintFields(members), post);
        TypeIsBase(Print(t) + post, Meaning(t), post);
      case MapType(key, value) =>
        MapParses(key, value, post);
        EncloseParses("MAP", Print(key) + ", " + Print(value), post);
        TypeIsBase(Print(t) + post, Meaning(t), post);
      case ListType(element, length) =>
        ListShape(Print(element), PrintLength(length), post);
        TypeParses(element, "[" + PrintLength(length) + "]" + post);
        SuffixParses(Meaning(element), length, post);
    }
  }

  lemma ListShape(element: string, digits: string, post: string)
    ensures element + "[" + digits + "]" + post == element + ("[" + digits + "]" + post)
  {
  }

  /** A type in front of a comma or closing parenthesis is read whole. */
  lemma {:induction false} InnerTypeParses(t: TypeExpr, post: string)
    requires Printable(t) && post != "" && post[0] in {',', ')'}
    ensures ParseType(Print(t) + post) == Ok((Meaning(t), post))
    ensures ParseType(" " + (Print(t) + post)) == Ok((Meaning(t), post))
    decreases t, 2
  {
    var s := Print(t) + post;
    TypeParses(t, post);
    assert ParseSuffixes(Meaning(t), post) == Ok((Meaning(t), post));
    PrintHead(t);
    SkipOne(s);
    SkipNothing(s);
  }

  lemma ExpectHere(c: char, rest: string)
    requires !IsSpace(c)
    ensures Expect(c, [c] + rest) == Ok(rest)
  {
    SkipNothing([c] + rest);
    assert ([c] + rest)[1..] == rest;
  }

  lemma MapShape(key: string, value: string, post: string)
    ensures key + ", " + value + ")" + post == key + ([','] + (" " + (value + ([')'] + post))))
  {
    assert ", " == [','] + " ";
  }

  lemma {:induction false} MapParses(key: TypeExpr, value: TypeExpr, post: string)
    requires Printable(key) && Printable(value)
    ensures MapBody(Print(key) + ", " + Print(value) + ")" + post) == Ok((MapOf(Meaning(key), Meaning(value)), post))
    decreases MapType(key, value), 0
  {
    var close := [')'] + post;
    var second := " " + (Print(value) + close);
    var tail := [','] + second;
    MapShape(Print(key), Print(value), post);
    InnerTypeParses(key, tail);
    ExpectHere(',', second);
    InnerTypeParses(value, close);
    ExpectHere(')', post);
  }

  lemma {:induction false} FieldsParse(fields: seq<FieldExpr>, post: string)
    requires PrintableFields(fields)
    ensures ParseFields(PrintFields(fields) + ")" + post) == Ok((FieldMeanings(fields), post))
    decreases fields, 0
  {
    var close := [')'] + post;
    if fields == [] {
      assert PrintFields(fields) + ")" + post == close;
      SkipNothing(close);
      ExpectHere(')', post);
    } else if |fields| == 1 {
      FieldHead(fields[0]);
      PrintLast(fields, post);
      OneFieldParses(fields[0], close);
      LastField(PrintField(fields[0]) + close, Field(fields[0].name, Meaning(fields[0].value)), post);
    } else {
      var rest := PrintFields(fields[1..]) + ")" + post;
      var tail := [','] + (" " + rest);
      FieldsParse(fields[1..], post);
      OneFieldParses(fields[0], tail);
      FieldHead(fields[0]);
      PrintNext(fields, post);
      NextField(PrintField(fields[0]) + tail, Field(fields[0].name, Meaning(fields[0].value)), rest);
    }
  }

  lemma FieldHead(field: FieldExpr)
    requires NamedWell(field)
    ensures PrintField(field) != "" && !IsBreak(PrintField(field)[0])
  {
    assert field.name[0] in field.name;
    assert PrintField(field)[0] == PrintName(field)[0];
  }

  lemma PrintLast(fields: seq<FieldExpr>, post: string)
    requires |fields| == 1
    ensures PrintFields(fields) + ")" + post == PrintField(fields[0]) + ([')'] + post)
    ensures FieldMeanings(fields) == [Field(fields[0].name, Meaning(fields[0].value))]
  {
    assert fields[1..] == [];
    assert PrintFields(fields) == PrintField(fields[0]);
  }

  lemma PrintNext(fields: seq<FieldExpr>, post: string)
    requires |fields| > 1 && NamedWell(fields[1])
    ensures var rest := PrintFields(fields[1..]) + ")" + post;
            && rest != "" && !IsBreak(rest[0])
            && PrintFields(fields) + ")" + post == PrintField(fields[0]) + ([','] + (" " + rest))
  {
    var y := PrintFields(fields[1..]);
    CommaMoves(PrintField(fields[0]), y, post);
    FieldHead(fields[1]);
    assert y[0] == PrintField(fields[1])[0];
  }

  lemma CommaMoves(x: string, y: string, post: string)
    ensures x + ", " + y + ")" + post == x + ([','] + (" " + (y + ")" + post)))
  {
    assert ", " == [','] + " ";
    assert [','] + " " + (y + ")" + post) == [','] + (" " + (y + ")" + post));
    assert x + ", " + y + ")" + post == x + ", " + (y + ")" + post) == x + (", " + (y + ")" + post));
  }

  lemma LastField(s: string, field: Field, post: string)
    requires s != "" && !IsBreak(s[0]) && OneField(s) == Ok((field, [')'] + post))
    ensures ParseFields(s) == Ok(([field], post))
  {
    SkipNothing(s);
    SkipNothing([')'] + post);
    ExpectHere(')', post);
  }

  lemma NextField(s: string, field: Field, rest: string)
    requires s != "" && !IsBreak(s[0]) && rest != "" && !IsBreak(rest[0])
    requires OneField(s) == Ok((field, [','] + (" " + rest))) && ParseFields(rest).Ok?
    ensures ParseFields(s) == Ok(([field] + ParseFields(rest).value.0, ParseFields(rest).value.1))
  {
    var tail := [','] + (" " + rest);
    SkipNothing(s);
    SkipNothing(tail);
    assert tail[1..] == " " + rest;
    SkipOne(rest);
    SkipNothing(rest);
  }

  lemma {:induction false} OneFieldParses(field: FieldExpr, tail: string)
    requires NamedWell(field) && Printable(field.value)
    requires tail != "" && tail[0] in {',', ')'}
    ensures OneField(PrintField(field) + tail) == Ok((Field(field.name, Meaning(field.value)), tail))
    decreases field, 3
  {
    var typed := Print(field.value) + tail;
    FieldShape(PrintName(field), Print(field.value), tail);
    NameReads(field, " " + typed);
    PrintHead(field.value);
    SkipOne(typed);
    InnerTypeParses(field.value, tail);
  }

  lemma FieldShape(name: string, value: string, tail: string)
    ensures name + " " + value + tail == name + (" " + (value + tail))
  {
  }

  /** A name is read back, quoted or bare. */
  lemma NameReads(field: FieldExpr, post: string)
    requires NamedWell(field) && post != "" && IsBreak(post[0])
    ensures ReadIdentifier(PrintName(field) + post) == Ok((field.name, post))
  {
    if field.quoted {
      QuotedParses(field.name, post);
      QuoteShape(Escape(field.name, '"'), post);
      IdentifierParses(Escape(field.name, '"') + "\"" + post);
    } else {
      BareNameReads(field.name, post);
    }
  }

  lemma QuoteShape(inner: string, post: string)
    ensures "\"" + inner + "\"" + post == "\"" + (inner + "\"" + post)
  {
  }

  lemma BareNameReads(name: string, post: string)
    requires name != "" && name[0] != '"' && post != "" && IsBreak(post[0])
    requires forall c | c in name :: !IsBreak(c)
    ensures ReadIdentifier(name + post) == Ok((name, post))
  {
    var all := name + post;
    NoBreaks(name);
    BareLengthStops(name, post);
    assert all[0] == name[0] && name[0] in name;
    SkipNothing(all);
    assert all[..|name|] == name && all[|name|..] == post;
  }

  lemma {:induction false} NoBreaks(name: string)
    requires forall c | c in name :: !IsBreak(c)
    ensures BareLength(name) == |name|
  {
    if name != "" {
      assert name[0] in name;
      NoBreaks(name[1..]);
    }
  }

  lemma IdentifierParses(quoted: string)
    ensures ReadIdentifier("\"" + quoted) == ReadQuoted(quoted)
  {
    SkipNothing("\"" + quoted);
    assert ("\"" + quoted)[1..] == quoted;
  }

  /** Parsing a printed type expression gives back the tree it stands for. */
  lemma RoundTrip(t: TypeExpr)
    requires Printable(t)
    ensures Parse(Print(t)) == Ok(Meaning(t))
  {
    TypeParses(t, "");
    assert Print(t) + "" == Print(t);
  }
}
