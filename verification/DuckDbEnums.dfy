/** Enum type texts, and the names `findSchema` gives to enum columns by comparing texts. */
module DuckDbEnums {
  import opened Wrappers
  import opened Seqs
  import opened DuckDbSyntax
  import opened DuckDbRoundTrip

  // -------------------------------------------------------------- known names

  /** Upper-case words, with single characters `_` and inner spaces. */
  predicate IsWords(name: string) {
    && name != "" && name[0] != ' ' && name[|name| - 1] != ' '
    && forall i | 0 <= i < |name| :: 'A' <= name[i] <= 'Z' || name[i] == '_' || name[i] == ' '
  }

  lemma {:induction false} ScanWords(s: string)
    requires forall i | 0 <= i < |s| :: 'A' <= s[i] <= 'Z' || s[i] == '_' || s[i] == ' '
    ensures Scan(s, 0, None) == Some((0, None))
    ensures SkipSpace(s) == "" || SkipSpace(s)[0] != '('
  {
    if s != "" {
      ScanWords(s[1..]);
    }
  }

  lemma WordsArePlain(name: string)
    requires IsWords(name)
    ensures PlainName(name)
  {
    ScanWords(name);
    ScanWords(name[BareLength(name)..]);
    assert SkipSpace(name) == name && DropSpace(name) == name;
  }

  /** A name to print for each literal type; an enum prints its own text. */
  function CanonicalName(literal: LiteralType): string {
    match literal
    case Boolean => "BOOLEAN"
    case Number => "INTEGER"
    case BigInt => "BIGINT"
    case Text => "VARCHAR"
    case Buffer => "BLOB"
    case Date => "TIMESTAMP WITH TIME ZONE"
    case Json => "JSON"
    case Udt => "ENUM"
    case Unknown => "VARIANT"
  }

  lemma CanonicalNamePlain(literal: LiteralType)
    ensures PlainName(CanonicalName(literal))
  {
    WordsArePlain(CanonicalName(literal));
  }

  lemma {:induction false} UpperWords(s: string)
    requires forall i | 0 <= i < |s| :: 'A' <= s[i] <= 'Z' || s[i] == '_' || s[i] == ' '
    ensures UpperCase(s) == s
  {
  }

  lemma CanonicalNameMeans(literal: LiteralType)
    requires literal != Udt
    ensures ScalarType(CanonicalName(literal)) == Scalar(literal, None)
  {
    CanonicalIsWords(literal);
    WordsByName(CanonicalName(literal));
    CanonicalIsKnown(literal);
  }

  lemma CanonicalIsKnown(literal: LiteralType)
    requires literal != Udt
    ensures NamedType(CanonicalName(literal)) == Scalar(literal, None)
  {
  }

  lemma CanonicalIsWords(literal: LiteralType)
    ensures IsWords(CanonicalName(literal))
  {
  }

  /** A name of words is looked up as it stands. */
  lemma WordsByName(name: string)
    requires IsWords(name)
    ensures ScalarType(name) == NamedType(name)
  {
    UpperWords(name);
    NoParenthesis(name, "ENUM(");
    NoParenthesis(name, "DECIMAL(");
    NoParenthesis(name, "NUMERIC(");
  }

  lemma NoParenthesis(name: string, prefix: string)
    requires IsWords(name) && prefix != "" && prefix[|prefix| - 1] == '('
    ensures !StartsWith(name, prefix)
  {
    if |prefix| <= |name| {
      assert name[..|prefix|][|prefix| - 1] == name[|prefix| - 1];
    }
  }

  // --------------------------------------------------------------- enum texts

  function QuoteLabel(word: string): string {
    "'" + Escape(word, '\'') + "'"
  }

  function EnumItems(labels: seq<string>): string {
    if labels == [] then ""
    else QuoteLabel(labels[0]) + (if |labels| > 1 then ", " else "") + EnumItems(labels[1..])
  }

  /** `enumDataType`: the text DuckDB reports for a column of this enum. */
  function EnumText(labels: seq<string>): string {
    "ENUM(" + EnumItems(labels) + ")"
  }

  /** A label and what follows it, behind its opening quote. */
  function ReadLabel(s: string): (r: Option<(string, string)>)
    ensures r.Some? ==> |r.value.1| < |s|
  {
    if s == "" then None
    else if s[0] != '\'' then
      match ReadLabel(s[1..])
      case Some((word, rest)) => Some(([s[0]] + word, rest))
      case None => None
    else if At(s[1..], '\'') then
      match ReadLabel(s[2..])
      case Some((word, rest)) => Some((['\''] + word, rest))
      case None => None
    else Some(("", s[1..]))
  }

  /** The labels of a closed list. */
  function ReadLabels(s: string): Option<seq<string>>
    decreases |s|
  {
    if s == ")" then Some([])
    else if !At(s, '\'') then None
    else
      match ReadLabel(s[1..])
      case None => None
      case Some((word, rest)) =>
        var next := if |rest| >= 2 && rest[..2] == ", " then rest[2..] else rest;
        match ReadLabels(next)
        case Some(labels) => Some([word] + labels)
        case None => None
  }

  lemma {:induction false} LabelRead(word: string, post: string)
    requires post == "" || post[0] != '\''
    ensures ReadLabel(Escape(word, '\'') + "'" + post) == Some((word, post))
  {
    var s := Escape(word, '\'') + "'" + post;
    if word == "" {
      assert s == "'" + post;
      assert s[0] == '\'' && s[1..] == post;
    } else {
      var rest := Escape(word[1..], '\'') + "'" + post;
      LabelRead(word[1..], post);
      assert word == [word[0]] + word[1..];
      if word[0] == '\'' {
        assert s == "''" + rest;
        assert s[0] == '\'' && s[1..][0] == '\'' && s[2..] == rest;
      } else {
        assert s == [word[0]] + rest;
        assert s[0] == word[0] && s[1..] == rest;
      }
    }
  }

  /** The part of the text behind a label: the rest of the list. */
  function ItemsTail(labels: seq<string>): (tail: string)
    requires labels != []
    ensures tail != "" && tail[0] in {',', ')'}
  {
    if |labels| > 1 then [','] + ([' '] + (EnumItems(labels[1..]) + ")")) else ")"
  }

  lemma ItemsShape(labels: seq<string>)
    requires labels != []
    ensures EnumItems(labels) + ")" == "'" + (Escape(labels[0], '\'') + "'" + ItemsTail(labels))
  {
    var e := Escape(labels[0], '\'');
    if |labels| > 1 {
      ManyItems(e, EnumItems(labels[1..]));
    } else {
      assert EnumItems(labels[1..]) == "";
      assert EnumItems(labels) == "'" + e + "'";
      assert "'" + e + "'" + ")" == "'" + (e + "'" + ")");
    }
  }

  lemma ManyItems(e: string, rest: string)
    ensures ("'" + e + "'") + ", " + rest + ")" == "'" + (e + "'" + ([','] + ([' '] + (rest + ")"))))
  {
    assert ", " == [','] + [' '];
  }

  lemma TailSplit(rest: string)
    ensures ([','] + ([' '] + rest))[..2] == ", " && ([','] + ([' '] + rest))[2..] == rest
  {
  }

  lemma {:induction false} LabelsRead(labels: seq<string>)
    ensures ReadLabels(EnumItems(labels) + ")") == Some(labels)
  {
    var s := EnumItems(labels) + ")";
    if labels == [] {
      assert s == ")";
    } else {
      var tail := ItemsTail(labels);
      ItemsShape(labels);
      assert s[0] == '\'' && s[1..] == Escape(labels[0], '\'') + "'" + tail;
      LabelRead(labels[0], tail);
      LabelsRead(labels[1..]);
      if |labels| > 1 {
        TailSplit(EnumItems(labels[1..]) + ")");
      } else {
        assert labels[1..] == [] && tail == ")";
      }
      assert labels == [labels[0]] + labels[1..];
    }
  }

  /** Distinct label lists have distinct texts, whatever characters the labels hold. */
  lemma EnumTextInjective(a: seq<string>, b: seq<string>)
    requires EnumText(a) == EnumText(b)
    ensures a == b
  {
    assert EnumText(a)[5..] == EnumItems(a) + ")";
    assert EnumText(b)[5..] == EnumItems(b) + ")";
    LabelsRead(a);
    LabelsRead(b);
  }

  // ------------------------------------------------ enum texts for the parser

  lemma ScanStep(c: char, s: string, depth: nat)
    requires c !in {'\'', '"', '(', ')'} && (depth > 0 || c !in {',', '['})
    ensures Scan([c] + s, depth, None) == Scan(s, depth, None)
  {
    assert ([c] + s)[1..] == s;
  }

  lemma {:induction false} ScanLabel(word: string, post: string, depth: nat)
    requires post == "" || post[0] != '\''
    ensures Scan(Escape(word, '\'') + "'" + post, depth, Some('\'')) == Scan(post, depth, None)
  {
    var s := Escape(word, '\'') + "'" + post;
    if word == "" {
      assert s == "'" + post;
      assert s[0] == '\'' && s[1..] == post;
    } else {
      var rest := Escape(word[1..], '\'') + "'" + post;
      ScanLabel(word[1..], post, depth);
      if word[0] == '\'' {
        assert s == "''" + rest;
        assert s[0] == '\'' && s[1] == '\'' && s[2..] == rest;
      } else {
        assert s == [word[0]] + rest;
        assert s[0] == word[0] && s[1..] == rest;
      }
    }
  }

  lemma {:induction false} ScanItems(labels: seq<string>)
    ensures Scan(EnumItems(labels) + ")", 1, None) == Some((0, None))
  {
    if labels == [] {
      assert EnumItems(labels) + ")" == ")";
      assert ")"[1..] == "";
    } else {
      var tail := ItemsTail(labels);
      ItemsShape(labels);
      ScanOpen(Escape(labels[0], '\'') + "'" + tail);
      ScanLabel(labels[0], tail, 1);
      ScanItems(labels[1..]);
      ScanTail(labels);
    }
  }

  lemma ScanOpen(s: string)
    ensures Scan("'" + s, 1, None) == Scan(s, 1, Some('\''))
  {
    assert ("'" + s)[1..] == s;
  }

  lemma ScanTail(labels: seq<string>)
    requires labels != []
    ensures Scan(ItemsTail(labels), 1, None) == Scan(EnumItems(labels[1..]) + ")", 1, None)
  {
    var rest := EnumItems(labels[1..]) + ")";
    if |labels| > 1 {
      ScanStep(',', [' '] + rest, 1);
      ScanStep(' ', rest, 1);
    } else {
      assert rest == ")";
    }
  }

  lemma EnumTextShape(labels: seq<string>)
    ensures EnumText(labels) == ['E'] + (['N'] + (['U'] + (['M'] + (['('] + (EnumItems(labels) + ")")))))
  {
    assert "ENUM(" == ['E'] + (['N'] + (['U'] + (['M'] + ['('])));
  }

  /** Every enum text is a scalar the parser reads whole. */
  lemma EnumTextPlain(labels: seq<string>)
    ensures PlainName(EnumText(labels))
  {
    var text, items := EnumText(labels), EnumItems(labels) + ")";
    EnumTextShape(labels);
    ScanStep('E', ['N'] + (['U'] + (['M'] + (['('] + items))), 0);
    ScanStep('N', ['U'] + (['M'] + (['('] + items)), 0);
    ScanStep('U', ['M'] + (['('] + items), 0);
    ScanStep('M', ['('] + items, 0);
    assert (['('] + items)[1..] == items;
    ScanItems(labels);
    EnumTextHead(labels);
  }

  lemma EnumTextHead(labels: seq<string>)
    ensures Trim(EnumText(labels)) == EnumText(labels) && !IsComposite(EnumText(labels))
    ensures StartsWith(UpperCase(EnumText(labels)), "ENUM(")
  {
    var text := EnumText(labels);
    var items := EnumItems(labels) + ")";
    assert text[0] == 'E' && text[|text| - 1] == ')';
    assert text == "ENUM" + ("(" + items);
    BareWord("ENUM");
    BareLengthStops("ENUM", "(" + items);
    assert text[..4] == "ENUM";
    assert UpperCase(text)[..5] == "ENUM(";
  }

  /** In front of any delimiter the parser consumes exactly an enum's text and keeps it. */
  lemma EnumTextParses(labels: seq<string>, post: string)
    requires Delimited(post)
    ensures ParseBase(EnumText(labels) + post) == Ok((Scalar(Udt, Some(EnumText(labels))), post))
  {
    EnumTextPlain(labels);
    EnumTextHead(labels);
    NameParses(EnumText(labels), post);
  }

  // ------------------------------------------------------ trees of known types

  /** Trees over literal types and enum texts, with non-empty field names. */
  predicate KnownTree(t: TypeTree) {
    match t
    case Scalar(Udt, udt) => udt.Some? && PlainName(udt.value) && StartsWith(UpperCase(udt.value), "ENUM(")
    case Scalar(_, udt) => udt == None
    case Struct(fields) => KnownFields(fields)
    case Union(members) => KnownFields(members)
    case MapOf(key, value) => KnownTree(key) && KnownTree(value)
    case List(value, _) => KnownTree(value)
  }

  predicate KnownFields(fields: seq<Field>) {
    fields != [] ==> fields[0].name != "" && KnownTree(fields[0].value) && KnownFields(fields[1..])
  }

  /** The canonical expression of a tree. */
  function Canonical(t: TypeTree): TypeExpr
    requires KnownTree(t)
  {
    match t
    case Scalar(Udt, udt) => Named(udt.value)
    case Scalar(literal, _) => Named(CanonicalName(literal))
    case Struct(fields) => StructType(CanonicalFields(fields))
    case Union(members) => UnionType(CanonicalFields(members))
    case MapOf(key, value) => MapType(Canonical(key), Canonical(value))
    case List(value, length) => ListType(Canonical(value), length)
  }

  function CanonicalFields(fields: seq<Field>): seq<FieldExpr>
    requires KnownFields(fields)
  {
    if fields == [] then []
    else [FieldExpr(fields[0].name, true, Canonical(fields[0].value))] + CanonicalFields(fields[1..])
  }

  lemma {:induction false} CanonicalMeans(t: TypeTree)
    requires KnownTree(t)
    ensures Printable(Canonical(t)) && Meaning(Canonical(t)) == t
  {
    match t
    case Scalar(Udt, udt) =>
    case Scalar(literal, _) =>
      CanonicalNamePlain(literal);
      CanonicalNameMeans(literal);
    case Struct(fields) => CanonicalFieldsMean(fields);
    case Union(members) => CanonicalFieldsMean(members);
    case MapOf(key, value) =>
      CanonicalMeans(key);
      CanonicalMeans(value);
    case List(value, _) => CanonicalMeans(value);
  }

  lemma {:induction false} CanonicalFieldsMean(fields: seq<Field>)
    requires KnownFields(fields)
    ensures PrintableFields(CanonicalFields(fields)) && FieldMeanings(CanonicalFields(fields)) == fields
  {
    if fields != [] {
      CanonicalMeans(fields[0].value);
      CanonicalFieldsMean(fields[1..]);
      var all := CanonicalFields(fields);
      assert all[0] == FieldExpr(fields[0].name, true, Canonical(fields[0].value));
      assert all[1..] == CanonicalFields(fields[1..]);
    }
  }

  /** Every tree of known types is what the parser makes of its own printed form. */
  lemma TreeRoundTrip(t: TypeTree)
    requires KnownTree(t)
    ensures Parse(Print(Canonical(t))) == Ok(t)
  {
    CanonicalMeans(t);
    RoundTrip(Canonical(t));
  }

  // -------------------------------------------------------- enum column names

  datatype EnumInfo = EnumInfo(schema: string, name: string, labels: seq<string>)

  function TableKey(schema: string, table: string): string {
    schema + "\0" + table
  }

  function FirstNul(s: string): nat {
    if s == "" || s[0] == '\0' then 0 else 1 + FirstNul(s[1..])
  }

  lemma {:induction false} FirstNulOfKey(schema: string, table: string)
    requires '\0' !in schema
    ensures FirstNul(TableKey(schema, table)) == |schema|
  {
    var key := TableKey(schema, table);
    if schema == "" {
      assert key[0] == '\0';
    } else {
      FirstNulOfKey(schema[1..], table);
      assert key[0] == schema[0] && key[1..] == TableKey(schema[1..], table);
    }
  }

  lemma TableKeyInjective(s: string, t: string, s': string, t': string)
    requires '\0' !in s && '\0' !in s' && TableKey(s, t) == TableKey(s', t')
    ensures s == s' && t == t'
  {
    var key := TableKey(s, t);
    FirstNulOfKey(s, t);
    FirstNulOfKey(s', t');
    assert key[..|s|] == s && key[..|s'|] == s';
    assert key[|s| + 1..] == t && key[|s'| + 1..] == t';
  }

  function EnumKey(e: EnumInfo): string {
    TableKey(e.schema, EnumText(e.labels))
  }

  /** The name the last of the enums with this key gave it. */
  function LastName(enums: seq<EnumInfo>, key: string): Option<string> {
    if enums == [] then None
    else if EnumKey(enums[|enums| - 1]) == key then Some(enums[|enums| - 1].name)
    else LastName(enums[..|enums| - 1], key)
  }

  ghost predicate NamesOf(names: map<string, string>, enums: seq<EnumInfo>) {
    forall key :: LastName(enums, key) == if key in names then Some(names[key]) else None
  }

  /** The lookup table of `findSchema`, from schema and type text to enum name; of several enums
      with one schema and one text the last wins. */
  method EnumNamesByType(enums: seq<EnumInfo>) returns (names: map<string, string>)
    ensures NamesOf(names, enums)
  {
    names := map[];
    for i := 0 to |enums|
      invariant NamesOf(names, enums[..i])
    {
      TakeNext(enums, i);
      names := names[EnumKey(enums[i]) := enums[i].name];
    }
    TakeAll(enums);
  }

  /** `udt_name` of a column; an empty enum name is not passed on. */
  function UdtName(names: map<string, string>, schema: string, dataType: string): Option<string> {
    var key := TableKey(schema, dataType);
    if key in names && names[key] != "" then Some(names[key]) else None
  }

  /** The last enum of the schema that prints to the type text. */
  function LastPrinting(enums: seq<EnumInfo>, schema: string, dataType: string): (e: Option<EnumInfo>)
    ensures e.Some? ==> e.value in enums && e.value.schema == schema && EnumText(e.value.labels) == dataType
    ensures e.None? ==> forall x | x in enums :: x.schema != schema || EnumText(x.labels) != dataType
  {
    if enums == [] then None
    else
      var n := |enums| - 1;
      assert enums == enums[..n] + [enums[n]];
      if enums[n].schema == schema && EnumText(enums[n].labels) == dataType then Some(enums[n])
      else LastPrinting(enums[..n], schema, dataType)
  }

  lemma {:induction false} LastNamePrints(enums: seq<EnumInfo>, schema: string, dataType: string)
    requires '\0' !in schema && forall e | e in enums :: '\0' !in e.schema
    ensures LastName(enums, TableKey(schema, dataType)) ==
            match LastPrinting(enums, schema, dataType)
            case Some(e) => Some(e.name)
            case None => None
  {
    if enums != [] {
      var e := enums[|enums| - 1];
      LastNamePrints(enums[..|enums| - 1], schema, dataType);
      if EnumKey(e) == TableKey(schema, dataType) {
        TableKeyInjective(e.schema, EnumText(e.labels), schema, dataType);
      }
    }
  }

  /** Whatever its type text, a column gets the name of the last enum of its own schema that prints
      to it, and none when there is no such enum or it has no name. */
  lemma UdtNamesItsEnum(names: map<string, string>, enums: seq<EnumInfo>, schema: string, dataType: string)
    requires NamesOf(names, enums)
    requires '\0' !in schema && forall e | e in enums :: '\0' !in e.schema
    ensures UdtName(names, schema, dataType) ==
            match LastPrinting(enums, schema, dataType)
            case Some(e) => if e.name != "" then Some(e.name) else None
            case None => None
    ensures TableKey(schema, dataType) in names <==>
            exists e | e in enums :: e.schema == schema && EnumText(e.labels) == dataType
  {
    LastNamePrints(enums, schema, dataType);
  }

  /** For a column of an enum type that enum has exactly the labels of the type. */
  lemma UdtHasItsLabels(names: map<string, string>, enums: seq<EnumInfo>, schema: string, labels: seq<string>)
    requires NamesOf(names, enums)
    requires '\0' !in schema && forall e | e in enums :: '\0' !in e.schema && e.name != ""
    ensures var udt := UdtName(names, schema, EnumText(labels));
            && (udt.Some? <==> exists e | e in enums :: e.schema == schema && e.labels == labels)
            && (udt.Some? ==> exists e | e in enums :: e.schema == schema && e.labels == labels && e.name == udt.value)
  {
    UdtNamesItsEnum(names, enums, schema, EnumText(labels));
    var last := LastPrinting(enums, schema, EnumText(labels));
    if last.Some? {
      EnumTextInjective(labels, last.value.labels);
    }
  }
}
