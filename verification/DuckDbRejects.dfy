/** Type texts spelled out, and texts that the parser refuses. */
module DuckDbRejects {
  import opened Wrappers
  import opened Digits
  import opened DuckDbSyntax
  import opened DuckDbRoundTrip

  // ---------------------------------------------------------------- spellings

  /** How printed types look. */
  lemma FieldSpelling(name: string, inner: string)
    requires inner == Escape(name, '"')
    ensures PrintField(FieldExpr(name, true, Named("VARCHAR"))) == "\"" + inner + "\" VARCHAR"
    ensures PrintField(FieldExpr(name, false, Named("VARCHAR"))) == name + " VARCHAR"
  {
  }

  lemma FieldsSpelling(a: FieldExpr, b: FieldExpr)
    ensures Print(StructType([])) == "STRUCT()"
    ensures Print(StructType([a])) == "STRUCT(" + PrintField(a) + ")"
    ensures Print(UnionType([a, b])) == "UNION(" + (PrintField(a) + ", " + PrintField(b)) + ")"
  {
    assert [b][1..] == [] && [a, b][1..] == [b] && [a][1..] == [];
    assert PrintFields([b]) == PrintField(b) && PrintFields([a]) == PrintField(a);
  }

  lemma MapSpelling(key: TypeExpr, value: TypeExpr)
    ensures Print(MapType(key, value)) == "MAP(" + (Print(key) + ", " + Print(value)) + ")"
  {
  }

  lemma ListSpelling(t: TypeExpr)
    ensures Print(ListType(t, None)) == Print(t) + "[]"
    ensures Print(ListType(t, Some(12))) == Print(t) + "[12]"
  {
    assert Numeral(1) == "1" && Numeral(12) == "12";
    assert "[" + "" + "]" == "[]" && "[" + "12" + "]" == "[12]";
    var p := Print(t);
    assert p + "[" + "" + "]" == p + ("[" + "" + "]");
    assert p + "[" + "12" + "]" == p + ("[" + "12" + "]");
  }

  lemma QuoteSpelling()
    ensures Escape("a\"b", '"') == "a\"\"b"
  {
    assert "a\"b"[1..] == "\"b" && "\"b"[1..] == "b" && "b"[1..] == "";
  }

  // ----------------------------------------------------------------- refusals

  /** Text behind a whole type. */
  lemma TrailingText(t: TypeExpr, post: string)
    requires Printable(t) && post != "" && post[0] in {',', ')'}
    ensures Parse(Print(t) + post) == Err(UnexpectedSyntax)
  {
    InnerTypeParses(t, post);
    SkipNothing(post);
  }

  /** A type that is not there. */
  lemma MissingTypeText(post: string)
    requires Delimited(post)
    ensures ParseType(post) == Err(MissingType)
  {
    DelimiterIsBreak(post);
    assert !IsComposite(post) by {
      assert UpperCase("") == "";
    }
    assert post[..0] == "";
  }

  /** A field without a name: nothing, or an empty pair of quotes. */
  lemma MissingName(rest: string)
    ensures rest == "" || (IsBreak(rest[0]) && !IsSpace(rest[0])) ==> OneField(rest) == Err(MissingFieldName)
    ensures rest == "" || rest[0] != '"' ==> OneField("\"\"" + rest) == Err(MissingFieldName)
  {
    if rest == "" || (IsBreak(rest[0]) && !IsSpace(rest[0])) {
      assert SkipSpace(rest) == rest;
    }
    if rest == "" || rest[0] != '"' {
      QuotedParses("", rest);
      assert Escape("", '"') + "\"" + rest == "\"" + rest;
      IdentifierParses("\"" + rest);
      assert "\"\"" + rest == "\"" + ("\"" + rest);
    }
  }

  /** A field without a type. */
  lemma MissingFieldType(field: FieldExpr, post: string)
    requires NamedWell(field) && post != "" && post[0] in {',', ')'}
    ensures OneField(PrintName(field) + post) == Err(MissingType)
  {
    NameReads(field, post);
    SkipNothing(post);
    MissingTypeText(post);
  }

  /** A quoted name that is never closed. */
  lemma {:induction false} UnterminatedName(name: string)
    ensures ReadQuoted(Escape(name, '"')) == Err(UnterminatedIdentifier)
  {
    if name != "" {
      UnterminatedName(name[1..]);
      var rest := Escape(name[1..], '"');
      var s := Escape(name, '"');
      if name[0] == '"' {
        assert s == ['"', '"'] + rest;
        assert s[0] == '"' && s[1..][0] == '"' && s[2..] == rest;
      } else {
        assert s == [name[0]] + rest;
        assert s[0] == name[0] && s[1..] == rest;
      }
    }
  }

  /** A map needs its comma and its closing parenthesis. */
  lemma BrokenMap(key: TypeExpr, value: TypeExpr, post: string)
    requires Printable(key) && Printable(value)
    ensures MapBody(Print(key) + ([')'] + post)) == Err(Expected(','))
    ensures MapBody(Print(key) + ([','] + (" " + Print(value)))) == Err(Expected(')'))
  {
    InnerTypeParses(key, [')'] + post);
    SkipNothing([')'] + post);
    var second := " " + Print(value);
    InnerTypeParses(key, [','] + second);
    ExpectHere(',', second);
    LastTypeParses(value);
  }

  /** A type at the end of the text is read whole. */
  lemma LastTypeParses(t: TypeExpr)
    requires Printable(t)
    ensures ParseType(" " + Print(t)) == Ok((Meaning(t), ""))
  {
    TypeParses(t, "");
    assert Print(t) + "" == Print(t);
    PrintHead(t);
    SkipOne(Print(t));
    SkipNothing(Print(t));
  }

  /** Fields need their closing parenthesis. */
  lemma UnclosedField(field: FieldExpr)
    requires NamedWell(field) && Printable(field.value)
    ensures ParseFields(PrintField(field)) == Err(Expected(')'))
  {
    LastFieldReads(field);
    FieldHead(field);
    SkipNothing(PrintField(field));
  }

  lemma LastFieldReads(field: FieldExpr)
    requires NamedWell(field) && Printable(field.value)
    ensures OneField(PrintField(field)) == Ok((Field(field.name, Meaning(field.value)), ""))
  {
    var typed := Print(field.value);
    assert PrintField(field) == PrintName(field) + (" " + typed);
    NameReads(field, " " + typed);
    PrintHead(field.value);
    SkipOne(typed);
    WholeTypeParses(field.value);
  }

  lemma WholeTypeParses(t: TypeExpr)
    requires Printable(t)
    ensures ParseType(Print(t)) == Ok((Meaning(t), ""))
  {
    TypeParses(t, "");
    assert Print(t) + "" == Print(t);
  }
}
