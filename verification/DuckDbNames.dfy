/** The type each DuckDB type name stands for. */
module DuckDbNames {
  import opened Wrappers
  import opened DuckDbSyntax
  import opened DuckDbRoundTrip
  import opened DuckDbEnums

  /** The types with a name of their own. */
  function KnownName(name: string): Option<LiteralType> {
    match name
    case "BOOLEAN" => Some(Boolean)
    case "BOOL" => Some(Boolean)
    case "LOGICAL" => Some(Boolean)
    case "TINYINT" => Some(Number)
    case "SMALLINT" => Some(Number)
    case "INTEGER" => Some(Number)
    case "INT" => Some(Number)
    case "UTINYINT" => Some(Number)
    case "USMALLINT" => Some(Number)
    case "UINTEGER" => Some(Number)
    case "FLOAT" => Some(Number)
    case "REAL" => Some(Number)
    case "DOUBLE" => Some(Number)
    case "BIGINT" => Some(BigInt)
    case "HUGEINT" => Some(BigInt)
    case "UBIGINT" => Some(BigInt)
    case "UHUGEINT" => Some(BigInt)
    case "BIGNUM" => Some(BigInt)
    case "DECIMAL" => Some(Text)
    case "NUMERIC" => Some(Text)
    case "VARCHAR" => Some(Text)
    case "TEXT" => Some(Text)
    case "CHAR" => Some(Text)
    case "BPCHAR" => Some(Text)
    case "STRING" => Some(Text)
    case "UUID" => Some(Text)
    case "TIME" => Some(Text)
    case "TIME WITH TIME ZONE" => Some(Text)
    case "TIMETZ" => Some(Text)
    case "INTERVAL" => Some(Text)
    case "BIT" => Some(Text)
    case "GEOMETRY" => Some(Text)
    case "BLOB" => Some(Buffer)
    case "BYTEA" => Some(Buffer)
    case "BINARY" => Some(Buffer)
    case "VARBINARY" => Some(Buffer)
    case "DATE" => Some(Date)
    case "TIMESTAMP" => Some(Date)
    case "TIMESTAMP_S" => Some(Date)
    case "TIMESTAMP_MS" => Some(Date)
    case "TIMESTAMP_NS" => Some(Date)
    case "TIMESTAMP WITH TIME ZONE" => Some(Date)
    case "TIMESTAMPTZ" => Some(Date)
    case "JSON" => Some(Json)
    case _ => None
  }

  lemma NamesAreKnown(name: string)
    ensures NamedType(name) == Scalar(if KnownName(name).Some? then KnownName(name).value else Unknown, None)
  {
  }

  lemma FlagsAndBytesAreWords(name: string)
    requires KnownName(name) in {Some(Boolean), Some(Buffer), Some(Json)}
    ensures IsWords(name)
  {
  }

  lemma NumbersAreWords(name: string)
    requires KnownName(name) in {Some(Number), Some(BigInt)}
    ensures IsWords(name)
  {
  }

  lemma TextsAreWords(name: string)
    requires KnownName(name) == Some(Text)
    ensures IsWords(name)
  {
  }

  lemma DatesAreWords(name: string)
    requires KnownName(name) == Some(Date)
    ensures IsWords(name)
  {
  }

  lemma NameIsWords(name: string)
    requires KnownName(name).Some?
    ensures IsWords(name)
  {
    match KnownName(name).value
    case Boolean => FlagsAndBytesAreWords(name);
    case Buffer => FlagsAndBytesAreWords(name);
    case Json => FlagsAndBytesAreWords(name);
    case Number => NumbersAreWords(name);
    case BigInt => NumbersAreWords(name);
    case Text => TextsAreWords(name);
    case Date => DatesAreWords(name);
  }

  /** Each known name parses to its type, any other name of words to the unknown type. */
  lemma NameMeans(name: string)
    requires KnownName(name).Some? || IsWords(name)
    ensures Parse(name) == Ok(Scalar(if KnownName(name).Some? then KnownName(name).value else Unknown, None))
  {
    if KnownName(name).Some? {
      NameIsWords(name);
    }
    WordsArePlain(name);
    WordsByName(name);
    NamesAreKnown(name);
    RoundTrip(Named(name));
  }

  predicate IsArguments(s: string) {
    forall i | 0 <= i < |s| :: '0' <= s[i] <= '9' || s[i] == ',' || s[i] == ' '
  }

  /** A decimal with precision and scale is a text. */
  lemma DecimalMeans(name: string, digits: string)
    requires name in {"DECIMAL", "NUMERIC"}
    requires IsArguments(digits)
    ensures Parse(name + "(" + digits + ")") == Ok(Scalar(Text, None))
  {
    DecimalIsPlain(name, digits);
    DecimalIsText(name, digits);
    RoundTrip(Named(name + "(" + digits + ")"));
  }

  lemma DecimalIsText(name: string, digits: string)
    requires name in {"DECIMAL", "NUMERIC"}
    ensures ScalarType(name + "(" + digits + ")") == Scalar(Text, None)
  {
    var text := name + "(" + digits + ")";
    assert UpperCase(text)[..8] == name + "(";
    assert UpperCase(text)[0] == name[0];
  }

  lemma {:induction false} ScanDigits(digits: string)
    requires IsArguments(digits)
    ensures Scan(digits + ")", 1, None) == Some((0, None))
  {
    var s := digits + ")";
    if digits == "" {
      assert s[1..] == "";
    } else {
      assert s[0] == digits[0] && s[1..] == digits[1..] + ")";
      ScanDigits(digits[1..]);
    }
  }

  lemma {:induction false} ScanWord(word: string, rest: string)
    requires forall i | 0 <= i < |word| :: 'A' <= word[i] <= 'Z'
    ensures Scan(word + ("(" + rest), 0, None) == Scan(rest, 1, None)
    ensures BareLength(word + ("(" + rest)) == |word|
  {
    var s := word + ("(" + rest);
    if word == "" {
      assert s[1..] == rest;
    } else {
      assert s[0] == word[0] && s[1..] == word[1..] + ("(" + rest);
      ScanWord(word[1..], rest);
    }
  }

  lemma DecimalIsPlain(name: string, digits: string)
    requires name in {"DECIMAL", "NUMERIC"}
    requires IsArguments(digits)
    ensures PlainName(name + "(" + digits + ")")
  {
    var text := name + "(" + digits + ")";
    ScanDigits(digits);
    ScanWord(name, digits + ")");
    assert text == name + ("(" + (digits + ")"));
    assert text[0] == name[0] && text[|text| - 1] == ')';
    assert text[..7] == name && UpperCase(name) == name;
  }

  /** Upper and lower case make no difference, but for the labels of an enum. */
  lemma CaseDoesNotMatter(a: string, b: string)
    requires UpperCase(a) == UpperCase(b) && !StartsWith(UpperCase(a), "ENUM(")
    ensures ScalarType(a) == ScalarType(b)
  {
  }

  lemma UpperLetters(s: string)
    ensures UpperCase("abcdefghijklmnopqrstuvwxyz") == "ABCDEFGHIJKLMNOPQRSTUVWXYZ"
    ensures (forall c | c in s :: !('a' <= c <= 'z')) ==> UpperCase(s) == s
  {
    assert forall i | 0 <= i < |s| :: s[i] in s;
  }
}
