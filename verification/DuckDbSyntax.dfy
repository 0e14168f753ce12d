/** DuckDB type texts: characters, tokens and the grammar as functions on the remaining input. */
module DuckDbSyntax {
  import opened Wrappers
  import opened Digits

  datatype LiteralType = Boolean | Number | BigInt | Text | Buffer | Date | Json | Udt | Unknown

  datatype TypeTree =
    | Scalar(literal: LiteralType, udt: Option<string>)
    | Struct(fields: seq<Field>)
    | List(value: TypeTree, length: Option<nat>)
    | MapOf(key: TypeTree, value: TypeTree)
    | Union(members: seq<Field>)

  datatype Field = Field(name: string, value: TypeTree)

  datatype SyntaxError =
    | UnexpectedSyntax
    | MissingFieldName
    | MissingType
    | UnterminatedIdentifier
    | Expected(c: char)

  // -------------------------------------------------------------- characters

  /** White space as `\s` and `trim` know it. */
  predicate IsSpace(c: char) {
    || c == ' ' || c == '\t' || c == '\n' || c == '\r' || c == '\U{000B}' || c == '\U{000C}'
    || c == '\U{00A0}' || c == '\U{1680}' || '\U{2000}' <= c <= '\U{200A}' || c == '\U{2028}' || c == '\U{2029}'
    || c == '\U{202F}' || c == '\U{205F}' || c == '\U{3000}' || c == '\U{FEFF}'
  }

  /** What ends a bare token. */
  predicate IsBreak(c: char) {
    IsSpace(c) || c == '(' || c == ')' || c == ',' || c == '[' || c == ']'
  }

  function UpperChar(c: char): char {
    if 'a' <= c <= 'z' then (c as int - 32) as char else c
  }

  function UpperCase(s: string): string {
    seq(|s|, i requires 0 <= i < |s| => UpperChar(s[i]))
  }

  predicate At(s: string, c: char) {
    s != "" && s[0] == c
  }

  function SkipSpace(s: string): (rest: string)
    ensures |rest| <= |s| && (rest == "" || !IsSpace(rest[0]))
  {
    if s != "" && IsSpace(s[0]) then SkipSpace(s[1..]) else s
  }

  function DropSpace(s: string): (rest: string)
    ensures |rest| <= |s|
  {
    if s != "" && IsSpace(s[|s| - 1]) then DropSpace(s[..|s| - 1]) else s
  }

  function Trim(s: string): string {
    DropSpace(SkipSpace(s))
  }

  function BareLength(s: string): (n: nat)
    ensures n <= |s|
  {
    if s == "" || IsBreak(s[0]) then 0 else 1 + BareLength(s[1..])
  }

  function DigitLength(s: string): (n: nat)
    ensures n <= |s| && forall i | 0 <= i < n :: IsDigit(s[i])
  {
    if s == "" || !IsDigit(s[0]) then 0
    else
      var n := DigitLength(s[1..]);
      assert forall i | 1 <= i < 1 + n :: s[i] == s[1..][i - 1];
      1 + n
  }

  function Expect(c: char, s: string): (r: Result<string, SyntaxError>)
    ensures r.Ok? ==> |r.value| < |s|
  {
    var t := SkipSpace(s);
    if At(t, c) then Ok(t[1..]) else Err(Expected(c))
  }

  // ----------------------------------------------------------------- scalars

  /** How many characters a scalar type takes: up to a comma, bracket or closing
      parenthesis outside quotes and nested parentheses. */
  function ScalarLength(s: string, depth: nat, quote: Option<char>): (n: nat)
    ensures n <= |s|
  {
    if s == "" then 0
    else
      var c := s[0];
      if quote.Some? then
        if c == quote.value then
          if |s| > 1 && s[1] == quote.value then 2 + ScalarLength(s[2..], depth, quote)
          else 1 + ScalarLength(s[1..], depth, None)
        else 1 + ScalarLength(s[1..], depth, quote)
      else if c == '\'' || c == '"' then 1 + ScalarLength(s[1..], depth, Some(c))
      else if c == '(' then 1 + ScalarLength(s[1..], depth + 1, None)
      else if c == ')' then if depth == 0 then 0 else 1 + ScalarLength(s[1..], depth - 1, None)
      else if depth == 0 && (c == ',' || c == '[') then 0
      else 1 + ScalarLength(s[1..], depth, None)
  }

  predicate StartsWith(s: string, prefix: string) {
    |prefix| <= |s| && s[..|prefix|] == prefix
  }

  const BOOLEANS := {"BOOLEAN", "BOOL", "LOGICAL"}
  const NUMBERS := {"TINYINT", "SMALLINT", "INTEGER", "INT", "UTINYINT", "USMALLINT", "UINTEGER", "FLOAT", "REAL", "DOUBLE"}
  const BIGINTS := {"BIGINT", "HUGEINT", "UBIGINT", "UHUGEINT", "BIGNUM"}
  const TEXTS := {"DECIMAL", "NUMERIC", "VARCHAR", "TEXT", "CHAR", "BPCHAR", "STRING", "UUID", "TIME",
                  "TIME WITH TIME ZONE", "TIMETZ", "INTERVAL", "BIT", "GEOMETRY"}
  const BUFFERS := {"BLOB", "BYTEA", "BINARY", "VARBINARY"}
  const DATES := {"DATE", "TIMESTAMP", "TIMESTAMP_S", "TIMESTAMP_MS", "TIMESTAMP_NS", "TIMESTAMP WITH TIME ZONE", "TIMESTAMPTZ"}

  function ScalarType(typeName: string): TypeTree {
    var dataType := UpperCase(typeName);
    if StartsWith(dataType, "ENUM(") then Scalar(Udt, Some(typeName))
    else if StartsWith(dataType, "DECIMAL(") || StartsWith(dataType, "NUMERIC(") then Scalar(Text, None)
    else NamedType(dataType)
  }

  /** The types known by name. */
  function NamedType(dataType: string): TypeTree {
    if dataType in BOOLEANS then Scalar(Boolean, None)
    else if dataType in NUMBERS then Scalar(Number, None)
    else if dataType in BIGINTS then Scalar(BigInt, None)
    else if dataType in TEXTS then Scalar(Text, None)
    else if dataType in BUFFERS then Scalar(Buffer, None)
    else if dataType in DATES then Scalar(Date, None)
    else if dataType == "JSON" then Scalar(Json, None)
    else Scalar(Unknown, None)
  }

  // ----------------------------------------------------------------- grammar

  type Parsed<T> = Result<(T, string), SyntaxError>

  function ParseScalar(s: string): (r: Parsed<TypeTree>)
    ensures r.Ok? ==> |r.value.1| <= |s|
  {
    var n := ScalarLength(s, 0, None);
    var typeName := Trim(s[..n]);
    if typeName == "" then Err(MissingType) else Ok((ScalarType(typeName), s[n..]))
  }

  /** The rest of a quoted identifier, behind its opening quote. */
  function ReadQuoted(s: string): (r: Parsed<string>)
    ensures r.Ok? ==> |r.value.1| < |s|
  {
    if s == "" then Err(UnterminatedIdentifier)
    else if s[0] != '"' then
      var (name, rest) :- ReadQuoted(s[1..]);
      Ok(([s[0]] + name, rest))
    else if At(s[1..], '"') then
      var (name, rest) :- ReadQuoted(s[2..]);
      Ok((['"'] + name, rest))
    else Ok(("", s[1..]))
  }

  function ReadIdentifier(s: string): (r: Parsed<string>)
    ensures r.Ok? ==> |r.value.1| <= |s| && (r.value.0 != "" ==> |r.value.1| < |s|)
  {
    var t := SkipSpace(s);
    if At(t, '"') then ReadQuoted(t[1..])
    else Ok((t[..BareLength(t)], t[BareLength(t)..]))
  }

  /** The list suffixes behind a type; `s` starts at no white space. */
  function ParseSuffixes(tree: TypeTree, s: string): (r: Parsed<TypeTree>)
    ensures r.Ok? ==> |r.value.1| <= |s|
    decreases |s|
  {
    if !At(s, '[') then Ok((tree, s))
    else
      var n := DigitLength(s[1..]);
      var digits := s[1..][..n];
      var rest :- Expect(']', s[1..][n..]);
      ParseSuffixes(List(tree, if digits == "" then None else Some(ReadNumeral(digits))), SkipSpace(rest))
  }

  function Keyword(s: string): string {
    UpperCase(s[..BareLength(s)])
  }

  predicate IsComposite(s: string) {
    Keyword(s) in {"STRUCT", "MAP", "UNION"} && At(SkipSpace(s[BareLength(s)..]), '(')
  }

  function ParseType(s: string): (r: Parsed<TypeTree>)
    ensures r.Ok? ==> |r.value.1| <= |s|
    decreases |s|, 1
  {
    var start := SkipSpace(s);
    var (tree, rest) :- ParseBase(start);
    ParseSuffixes(tree, SkipSpace(rest))
  }

  /** A type without its list suffixes. */
  function ParseBase(s: string): (r: Parsed<TypeTree>)
    ensures r.Ok? ==> |r.value.1| <= |s|
    decreases |s|, 0
  {
    if !IsComposite(s) then ParseScalar(s)
    else
      assert BareLength(s) > 0 by { assert UpperCase("") == ""; }
      var open := SkipSpace(s[BareLength(s)..]);
      if Keyword(s) == "STRUCT" then
        var (fields, rest) :- ParseFields(open[1..]);
        Ok((Struct(fields), rest))
      else if Keyword(s) == "UNION" then
        var (members, rest) :- ParseFields(open[1..]);
        Ok((Union(members), rest))
      else
        MapBody(open[1..])
  }

  /** The key and value types behind an opening parenthesis. */
  function MapBody(s: string): (r: Parsed<TypeTree>)
    ensures r.Ok? ==> |r.value.1| <= |s|
    decreases |s|, 2
  {
    var (key, rest1) :- ParseType(s);
    var rest2 :- Expect(',', rest1);
    var (value, rest3) :- ParseType(rest2);
    var rest4 :- Expect(')', rest3);
    Ok((MapOf(key, value), rest4))
  }

  /** The fields behind an opening parenthesis, up to and with the closing one. */
  function ParseFields(s: string): (r: Parsed<seq<Field>>)
    ensures r.Ok? ==> |r.value.1| <= |s|
    decreases |s|, 2
  {
    MoreFields(SkipSpace(s))
  }

  function MoreFields(s: string): (r: Parsed<seq<Field>>)
    ensures r.Ok? ==> |r.value.1| <= |s|
    decreases |s|, 1
  {
    if At(s, ')') then
      var rest :- Expect(')', s);
      Ok(([], rest))
    else
      var (field, rest1) :- OneField(s);
      var rest2 := SkipSpace(rest1);
      if At(rest2, ',') then
        var (fields, rest3) :- MoreFields(SkipSpace(rest2[1..]));
        Ok(([field] + fields, rest3))
      else
        var rest3 :- Expect(')', rest2);
        Ok(([field], rest3))
  }

  /** A field name, which must not be empty, and its type. */
  function OneField(s: string): (r: Parsed<Field>)
    ensures r.Ok? ==> |r.value.1| < |s|
    decreases |s|, 0
  {
    var (name, rest) :- ReadIdentifier(s);
    if name == "" then Err(MissingFieldName)
    else
      var (value, rest') :- ParseType(SkipSpace(rest));
      Ok((Field(name, value), rest'))
  }

  /** A whole type text. */
  function Parse(input: string): Result<TypeTree, SyntaxError> {
    var (tree, rest) :- ParseType(input);
    if SkipSpace(rest) == "" then Ok(tree) else Err(UnexpectedSyntax)
  }
}
