/** The hand-written recursive-descent parser: an input and an index moved by loops. */
module DuckDbParser {
  import opened Wrappers
  import opened Digits
  import opened DuckDbSyntax

  class DuckDBTypeParser {
    const input: string
    var index: nat

    ghost predicate Valid()
      reads this
    {
      index <= |input|
    }

    function Rest(): string
      requires Valid()
      reads this
    {
      input[index..]
    }

    /** The method did what the grammar does on the input that was left. */
    ghost predicate Reads<T>(r: Result<T, SyntaxError>, spec: Parsed<T>)
      reads this
    {
      && Valid()
      && match spec
         case Ok(both) => r == Ok(both.0) && Rest() == both.1
         case Err(e) => r == Err(e)
    }

    constructor (input: string)
      ensures Valid() && this.input == input && index == 0
    {
      this.input := input;
      index := 0;
    }

    predicate PeekIs(c: char)
      requires Valid()
      reads this
      ensures PeekIs(c) == At(Rest(), c)
    {
      index < |input| && input[index] == c
    }

    method Step(n: nat)
      requires Valid() && index + n <= |input|
      modifies this
      ensures Valid() && index == old(index) + n && Rest() == old(Rest())[n..]
    {
      index := index + n;
    }

    method SkipWhitespace()
      requires Valid()
      modifies this
      ensures Valid() && Rest() == SkipSpace(old(Rest()))
    {
      while index < |input| && IsSpace(input[index])
        invariant Valid() && SkipSpace(Rest()) == SkipSpace(old(Rest()))
      {
        Step(1);
      }
    }

    method ExpectChar(c: char) returns (r: Result<(), SyntaxError>)
      requires Valid()
      modifies this
      ensures Valid()
      ensures match Expect(c, old(Rest()))
              case Ok(rest) => r.Ok? && Rest() == rest
              case Err(e) => r == Err(e)
    {
      SkipWhitespace();
      if !PeekIs(c) {
        return Err(Expected(c));
      }
      Step(1);
      r := Ok(());
    }

    method ReadBareToken() returns (token: string)
      requires Valid()
      modifies this
      ensures Valid()
      ensures var n := BareLength(old(Rest())); token == old(Rest())[..n] && Rest() == old(Rest())[n..]
    {
      var start := index;
      while index < |input| && !IsBreak(input[index])
        invariant start <= index <= |input|
        invariant BareLength(old(Rest())) == index - start + BareLength(Rest())
      {
        Step(1);
      }
      token := input[start..index];
    }

    method ReadQuotedTail() returns (r: Result<string, SyntaxError>)
      requires Valid()
      modifies this
      ensures Reads(r, ReadQuoted(old(Rest())))
    {
      var result := "";
      BehindNothing(ReadQuoted(Rest()));
      while index < |input|
        invariant Valid()
        invariant ReadQuoted(old(Rest())) == Behind(result, ReadQuoted(Rest()))
        decreases |input| - index
      {
        var character := input[index];
        ghost var here := Rest();
        Step(1);
        if character != '"' {
          BehindChar(result, character, ReadQuoted(Rest()));
          result := result + [character];
          continue;
        }
        if PeekIs('"') {
          Step(1);
          assert Rest() == here[2..];
          BehindChar(result, '"', ReadQuoted(Rest()));
          result := result + ['"'];
          continue;
        }
        assert result + "" == result;
        return Ok(result);
      }
      r := Err(UnterminatedIdentifier);
    }

    method ReadName() returns (r: Result<string, SyntaxError>)
      requires Valid()
      modifies this
      ensures Reads(r, ReadIdentifier(old(Rest())))
    {
      SkipWhitespace();
      if !PeekIs('"') {
        var token := ReadBareToken();
        return Ok(token);
      }
      Step(1);
      r := ReadQuotedTail();
    }

    method ParseScalarType() returns (r: Result<TypeTree, SyntaxError>)
      requires Valid()
      modifies this
      ensures Reads(r, ParseScalar(old(Rest())))
    {
      var start := index;
      var parentDepth := 0;
      var quote: Option<char> := None;
      ghost var total := ScalarLength(Rest(), 0, None);
      while index < |input|
        invariant start <= index <= |input|
        invariant total == index - start + ScalarLength(Rest(), parentDepth, quote)
        decreases |input| - index
      {
        var character := input[index];
        if quote.Some? {
          if character == quote.value {
            if index + 1 < |input| && input[index + 1] == quote.value {
              Step(2);
              continue;
            }
            quote := None;
          }
          Step(1);
          continue;
        }
        if character == '\'' || character == '"' {
          quote := Some(character);
          Step(1);
          continue;
        }
        if character == '(' {
          parentDepth := parentDepth + 1;
          Step(1);
          continue;
        }
        if character == ')' {
          if parentDepth == 0 {
            break;
          }
          parentDepth := parentDepth - 1;
          Step(1);
          continue;
        }
        if parentDepth == 0 && (character == ',' || character == '[') {
          break;
        }
        Step(1);
      }
      assert total == index - start;
      assert input[start..index] == old(Rest())[..total] && Rest() == old(Rest())[total..];
      var typeName := Trim(input[start..index]);
      if typeName == "" {
        return Err(MissingType);
      }
      r := Ok(ScalarType(typeName));
    }

    method ParseFieldList() returns (r: Result<seq<Field>, SyntaxError>)
      requires Valid()
      modifies this
      ensures Reads(r, ParseFields(old(Rest())))
      decreases |input| - index, 3
    {
      var fields: seq<Field> := [];
      SkipWhitespace();
      ghost var first := Rest();
      BehindNoFields(MoreFields(first));
      while !PeekIs(')')
        invariant Valid() && |Rest()| <= |first| && |first| <= |old(Rest())|
        invariant MoreFields(first) == BehindFields(fields, MoreFields(Rest()))
        decreases |input| - index
      {
        ghost var before, here := fields, Rest();
        var field := ParseField();
        if field.Err? {
          return Err(field.error);
        }
        SkipWhitespace();
        fields := fields + [field.value];
        if !PeekIs(',') {
          r := CloseFields(fields, first);
          return;
        }
        Step(1);
        SkipWhitespace();
        BehindField(before, field.value, MoreFields(Rest()));
      }
      assert fields + [] == fields;
      r := CloseFields(fields, first);
    }

    method CloseFields(fields: seq<Field>, ghost first: string) returns (r: Result<seq<Field>, SyntaxError>)
      requires Valid()
      requires MoreFields(first) == match Expect(')', Rest())
                                    case Ok(rest) => Ok((fields, rest))
                                    case Err(e) => Err(e)
      modifies this
      ensures Reads(r, MoreFields(first))
    {
      var closed := ExpectChar(')');
      if closed.Err? {
        return Err(closed.error);
      }
      r := Ok(fields);
    }

    method ParseField() returns (r: Result<Field, SyntaxError>)
      requires Valid()
      modifies this
      ensures Reads(r, OneField(old(Rest())))
      decreases |input| - index, 2
    {
      ghost var here := Rest();
      var name := ReadName();
      if name.Err? {
        return Err(name.error);
      }
      if name.value == "" {
        return Err(MissingFieldName);
      }
      SkipWhitespace();
      assert |Rest()| < |here|;
      var value := ParseTypeTree();
      if value.Err? {
        return Err(value.error);
      }
      r := Ok(Field(name.value, value.value));
    }

    method ParseTypeTree() returns (r: Result<TypeTree, SyntaxError>)
      requires Valid()
      modifies this
      ensures Reads(r, ParseType(old(Rest())))
      decreases |input| - index, 1
    {
      SkipWhitespace();
      r := ParseBaseType();
      if r.Err? {
        return;
      }
      SkipWhitespace();
      r := ParseListSuffixes(r.value);
    }

    method ParseListSuffixes(base: TypeTree) returns (r: Result<TypeTree, SyntaxError>)
      requires Valid()
      modifies this
      ensures Reads(r, ParseSuffixes(base, old(Rest())))
    {
      var result := base;
      while PeekIs('[')
        invariant Valid()
        invariant ParseSuffixes(base, old(Rest())) == ParseSuffixes(result, Rest())
        decreases |input| - index
      {
        ghost var here := Rest();
        Step(1);
        var lengthText := ReadDigits();
        var closed := ExpectChar(']');
        if closed.Err? {
          return Err(closed.error);
        }
        result := List(result, if lengthText == "" then None else Some(ReadNumeral(lengthText)));
        SkipWhitespace();
      }
      r := Ok(result);
    }

    method ReadDigits() returns (text: string)
      requires Valid()
      modifies this
      ensures Valid()
      ensures var n := DigitLength(old(Rest())); text == old(Rest())[..n] && Rest() == old(Rest())[n..]
    {
      var start := index;
      while index < |input| && IsDigit(input[index])
        invariant start <= index <= |input|
        invariant DigitLength(old(Rest())) == index - start + DigitLength(Rest())
      {
        Step(1);
      }
      text := input[start..index];
    }

    method ParseBaseType() returns (r: Result<TypeTree, SyntaxError>)
      requires Valid()
      modifies this
      ensures Reads(r, ParseBase(old(Rest())))
      decreases |input| - index, 0
    {
      var start := index;
      var token := ReadBareToken();
      var keyword := UpperCase(token);
      SkipWhitespace();
      if keyword !in {"STRUCT", "MAP", "UNION"} || !PeekIs('(') {
        index := start;
        r := ParseScalarType();
        return;
      }
      assert token != "" by { assert UpperCase("") == ""; }
      Step(1);
      if keyword == "STRUCT" {
        var fields := ParseFieldList();
        r := if fields.Ok? then Ok(Struct(fields.value)) else Err(fields.error);
      } else if keyword == "UNION" {
        var members := ParseFieldList();
        r := if members.Ok? then Ok(Union(members.value)) else Err(members.error);
      } else {
        r := ParseMapBody();
      }
    }

    method ParseMapBody() returns (r: Result<TypeTree, SyntaxError>)
      requires Valid()
      modifies this
      ensures Reads(r, MapBody(old(Rest())))
      decreases |input| - index, 2
    {
      var key := ParseTypeTree();
      if key.Err? {
        return Err(key.error);
      }
      var comma := ExpectChar(',');
      if comma.Err? {
        return Err(comma.error);
      }
      var value := ParseTypeTree();
      if value.Err? {
        return Err(value.error);
      }
      var close := ExpectChar(')');
      if close.Err? {
        return Err(close.error);
      }
      r := Ok(MapOf(key.value, value.value));
    }

    /** Parses the whole input, or reports what the grammar reports. */
    method ParseInput() returns (r: Result<TypeTree, SyntaxError>)
      requires Valid() && index == 0
      modifies this
      ensures r == Parse(input)
    {
      assert Rest() == input;
      r := ParseTypeTree();
      if r.Err? {
        return;
      }
      SkipWhitespace();
      if index != |input| {
        r := Err(UnexpectedSyntax);
      }
    }
  }

  /** `parseDuckDBType`. */
  method ParseDuckDBType(input: string) returns (r: Result<TypeTree, SyntaxError>)
    ensures r == Parse(input)
  {
    var parser := new DuckDBTypeParser(input);
    r := parser.ParseInput();
  }

  function Behind(done: string, rest: Parsed<string>): Parsed<string> {
    match rest
    case Ok(both) => Ok((done + both.0, both.1))
    case Err(e) => Err(e)
  }

  lemma BehindNothing(rest: Parsed<string>)
    ensures Behind("", rest) == rest
  {
    if rest.Ok? {
      assert "" + rest.value.0 == rest.value.0;
    }
  }

  lemma BehindNoFields(rest: Parsed<seq<Field>>)
    ensures BehindFields([], rest) == rest
  {
    if rest.Ok? {
      assert [] + rest.value.0 == rest.value.0;
    }
  }

  lemma BehindChar(done: string, c: char, rest: Parsed<string>)
    ensures Behind(done, Behind([c], rest)) == Behind(done + [c], rest)
  {
    if rest.Ok? {
      assert done + ([c] + rest.value.0) == (done + [c]) + rest.value.0;
    }
  }

  function BehindFields(done: seq<Field>, rest: Parsed<seq<Field>>): Parsed<seq<Field>> {
    match rest
    case Ok(both) => Ok((done + both.0, both.1))
    case Err(e) => Err(e)
  }

  lemma BehindField(done: seq<Field>, field: Field, rest: Parsed<seq<Field>>)
    ensures BehindFields(done, BehindFields([field], rest)) == BehindFields(done + [field], rest)
  {
    if rest.Ok? {
      assert done + ([field] + rest.value.0) == (done + [field]) + rest.value.0;
    }
  }
}
