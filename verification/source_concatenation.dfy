/** Two sources written one after the other read as one source: the
    definitions of the first followed by those of the second. Each
    definition ends in `;`, so what follows it never changes how it is
    read. */
module SourceConcatenation {
  import opened Wrappers
  import opened Tokens
  import opened Syntax
  import opened TypeGrammar
  import opened ExtendedAttributeGrammar
  import opened MemberGrammar
  import opened DefinitionGrammar
  import opened TrailingTokens

  lemma CloseAppend(ts: seq<Token>, tail: seq<Token>)
    requires ParseClose(ts).Some?
    ensures ParseClose(ts + tail) == Some(ParseClose(ts).value + tail)
  {
    AppendTail(ts, tail);
    AppendTail(ts[1..], tail);
    AppendDrop(ts, tail, 2);
  }

  lemma InheritanceAppend(ts: seq<Token>, tail: seq<Token>)
    requires Unfinished(ParseInheritance(ts))
    ensures Extends(ParseInheritance(ts), ParseInheritance(ts + tail), tail)
  {
    AppendTail(ts, tail);
    if Next(ts, Punct(Colon)) {
      NameAppend(ts[1..], tail);
    }
  }

  lemma MembersBodyAppend(ts: seq<Token>, c: Container, tail: seq<Token>)
    requires ParseMembersBody(ts, c).Some?
    ensures Extends(ParseMembersBody(ts, c), ParseMembersBody(ts + tail, c), tail)
  {
    var afterOpen := Expect(ts, Punct(OpenBrace)).value;
    ExpectAppend(ts, Punct(OpenBrace), tail);
    var ms := ParseMembers(afterOpen, c).value;
    MembersAppend(afterOpen, c, tail);
    CloseAppend(ms.rest, tail);
  }

  lemma NamespaceBodyAppend(ts: seq<Token>, tail: seq<Token>)
    requires ParseNamespaceBody(ts).Some?
    ensures Extends(ParseNamespaceBody(ts), ParseNamespaceBody(ts + tail), tail)
  {
    var afterOpen := Expect(ts, Punct(OpenBrace)).value;
    ExpectAppend(ts, Punct(OpenBrace), tail);
    var ms := ParseNamespaceMembers(afterOpen).value;
    NamespaceMembersAppend(afterOpen, tail);
    CloseAppend(ms.rest, tail);
  }

  lemma DictionaryBodyAppend(ts: seq<Token>, tail: seq<Token>)
    requires ParseDictionaryBody(ts).Some?
    ensures Extends(ParseDictionaryBody(ts), ParseDictionaryBody(ts + tail), tail)
  {
    var afterOpen := Expect(ts, Punct(OpenBrace)).value;
    ExpectAppend(ts, Punct(OpenBrace), tail);
    var ms := ParseDictionaryMembers(afterOpen).value;
    DictionaryMembersAppend(afterOpen, tail);
    CloseAppend(ms.rest, tail);
  }

  /** Enum values look two tokens ahead, past a comma, for another string. */
  lemma {:induction false} EnumValuesAppend(ts: seq<Token>, tail: seq<Token>)
    requires Unfinished(ParseEnumValues(ts))
    ensures Extends(ParseEnumValues(ts), ParseEnumValues(ts + tail), tail)
    decreases |ts|
  {
    AppendTail(ts, tail);
    if Next(ts[1..], Punct(Comma)) {
      assert |ts| > 2;
      AppendTail(ts[1..], tail);
      AppendDrop(ts, tail, 2);
      if ts[2].StringToken? {
        EnumValuesAppend(ts[2..], tail);
      }
    }
  }

  lemma CallbackAppend(a: Annotations, ts: seq<Token>, tail: seq<Token>)
    requires ParseCallback(a, ts).Some?
    ensures Extends(ParseCallback(a, ts), ParseCallback(a, ts + tail), tail)
  {
    var afterInterface := Expect(ts, DefinitionToken(KwInterface)).value;
    ExpectAppend(ts, DefinitionToken(KwInterface), tail);
    var n := ParseName(afterInterface).value;
    NameAppend(afterInterface, tail);
    MembersBodyAppend(n.rest, InterfaceBody, tail);
  }

  lemma InterfaceAppend(a: Annotations, ts: seq<Token>, tail: seq<Token>)
    requires ParseInterface(a, ts).Some?
    ensures Extends(ParseInterface(a, ts), ParseInterface(a, ts + tail), tail)
  {
    AppendTail(ts, tail);
    if Next(ts, DefinitionToken(KwMixin)) {
      var n := ParseName(ts[1..]).value;
      NameAppend(ts[1..], tail);
      MembersBodyAppend(n.rest, MixinBody, tail);
    } else {
      var n := ParseName(ts).value;
      NameAppend(ts, tail);
      var i := ParseInheritance(n.rest).value;
      assert |i.rest| > 0;
      InheritanceAppend(n.rest, tail);
      MembersBodyAppend(i.rest, InterfaceBody, tail);
    }
  }

  lemma NamespaceAppend(a: Annotations, ts: seq<Token>, tail: seq<Token>)
    requires ParseNamespace(a, ts).Some?
    ensures Extends(ParseNamespace(a, ts), ParseNamespace(a, ts + tail), tail)
  {
    var n := ParseName(ts).value;
    NameAppend(ts, tail);
    NamespaceBodyAppend(n.rest, tail);
  }

  lemma PartialAppend(a: Annotations, ts: seq<Token>, tail: seq<Token>)
    requires ParsePartial(a, ts).Some?
    ensures Extends(ParsePartial(a, ts), ParsePartial(a, ts + tail), tail)
  {
    AppendTail(ts, tail);
    var n := ParseName(ts[1..]).value;
    NameAppend(ts[1..], tail);
    if Next(ts, DefinitionToken(KwInterface)) {
      MembersBodyAppend(n.rest, PartialInterfaceBody, tail);
    } else if Next(ts, DefinitionToken(KwDictionary)) {
      DictionaryBodyAppend(n.rest, tail);
    } else {
      NamespaceBodyAppend(n.rest, tail);
    }
  }

  lemma DictionaryAppend(a: Annotations, ts: seq<Token>, tail: seq<Token>)
    requires ParseDictionary(a, ts).Some?
    ensures Extends(ParseDictionary(a, ts), ParseDictionary(a, ts + tail), tail)
  {
    var n := ParseName(ts).value;
    NameAppend(ts, tail);
    var i := ParseInheritance(n.rest).value;
    assert |i.rest| > 0;
    InheritanceAppend(n.rest, tail);
    DictionaryBodyAppend(i.rest, tail);
  }

  lemma EnumAppend(a: Annotations, ts: seq<Token>, tail: seq<Token>)
    requires ParseEnum(a, ts).Some?
    ensures Extends(ParseEnum(a, ts), ParseEnum(a, ts + tail), tail)
  {
    var n := ParseName(ts).value;
    NameAppend(ts, tail);
    var afterOpen := Expect(n.rest, Punct(OpenBrace)).value;
    ExpectAppend(n.rest, Punct(OpenBrace), tail);
    var vs := ParseEnumValues(afterOpen).value;
    assert |vs.rest| > 0;
    EnumValuesAppend(afterOpen, tail);
    CloseAppend(vs.rest, tail);
  }

  lemma TypedefAppend(a: Annotations, ts: seq<Token>, tail: seq<Token>)
    requires ParseTypedef(a, ts).Some?
    ensures Extends(ParseTypedef(a, ts), ParseTypedef(a, ts + tail), tail)
  {
    var t := ParseAnnotatedType(ts).value;
    assert |t.rest| > 0;
    AnnotatedTypeAppend(ts, tail);
    var n := ParseName(t.rest).value;
    NameAppend(t.rest, tail);
    ExpectAppend(n.rest, Punct(Semicolon), tail);
  }

  lemma IncludesAppend(ts: seq<Token>, tail: seq<Token>)
    requires ParseIncludes(ts).Some?
    ensures Extends(ParseIncludes(ts), ParseIncludes(ts + tail), tail)
  {
    var t := ParseName(ts).value;
    NameAppend(ts, tail);
    var afterIncludes := Expect(t.rest, DefinitionToken(KwIncludes)).value;
    ExpectAppend(t.rest, DefinitionToken(KwIncludes), tail);
    var m := ParseName(afterIncludes).value;
    NameAppend(afterIncludes, tail);
    ExpectAppend(m.rest, Punct(Semicolon), tail);
  }

  lemma DefinitionAfterAppend(a: Annotations, start: DefinitionStart, ts: seq<Token>, tail: seq<Token>)
    requires |ts| > 0 && ParseDefinitionAfter(a, start, ts).Some?
    ensures Extends(ParseDefinitionAfter(a, start, ts), ParseDefinitionAfter(a, start, ts + tail), tail)
  {
    AppendTail(ts, tail);
    match start
    case CallbackStart => CallbackAppend(a, ts[1..], tail);
    case InterfaceStart => InterfaceAppend(a, ts[1..], tail);
    case NamespaceStart => NamespaceAppend(a, ts[1..], tail);
    case PartialStart => PartialAppend(a, ts[1..], tail);
    case DictionaryStart => DictionaryAppend(a, ts[1..], tail);
    case EnumStart => EnumAppend(a, ts[1..], tail);
    case TypedefStart => TypedefAppend(a, ts[1..], tail);
    case IncludesStart => IncludesAppend(ts, tail);
  }

  /** A definition reads the same whatever follows it. */
  lemma DefinitionAppend(ts: seq<Token>, tail: seq<Token>)
    requires ParseDefinition(ts).Some?
    ensures Extends(ParseDefinition(ts), ParseDefinition(ts + tail), tail)
  {
    var a := ParseAnnotations(ts).value;
    assert |a.rest| > 0;
    AnnotationsAppend(ts, tail);
    AppendTail(a.rest, tail);
    DefinitionAfterAppend(a.value, DefinitionStartOf(a.rest[0]), a.rest, tail);
  }

  lemma ReadDefinitionsStep(ts: seq<Token>, d: Parsed<Definition>)
    requires |ts| > 0 && ParseDefinition(ts) == Some(d) && ParseDefinitions(d.rest).Some?
    ensures ParseDefinitions(ts) == Some([d.value] + ParseDefinitions(d.rest).value)
  {
  }

  /** The first definition of `ts + tail` is that of `ts`, with `tail`
      after its rest. */
  lemma DefinitionsAppendHead(ts: seq<Token>, tail: seq<Token>, d: Parsed<Definition>, more: seq<Definition>)
    requires ParseDefinition(ts) == Some(d)
    requires ParseDefinitions(d.rest + tail) == Some(more)
    ensures ParseDefinitions(ts + tail) == Some([d.value] + more)
  {
    DefinitionAppend(ts, tail);
    ReadDefinitionsStep(ts + tail, Parsed(d.value, d.rest + tail));
  }

  lemma ConsAssociates(x: Definition, a: seq<Definition>, b: seq<Definition>)
    ensures [x] + (a + b) == ([x] + a) + b
  {
  }

  /** One definition in front of sources that already concatenate. */
  lemma DefinitionsAppendStep(ts: seq<Token>, tail: seq<Token>, d: Parsed<Definition>, more: seq<Definition>, after: seq<Definition>)
    requires ParseDefinition(ts) == Some(d)
    requires ParseDefinitions(d.rest + tail) == Some(more + after)
    ensures ParseDefinitions(ts + tail) == Some(([d.value] + more) + after)
  {
    DefinitionsAppendHead(ts, tail, d, more + after);
    ConsAssociates(d.value, more, after);
  }

  lemma DefinitionsEmpty(ts: seq<Token>, tail: seq<Token>)
    requires |ts| == 0 && ParseDefinitions(tail).Some?
    ensures ParseDefinitions(ts) == Some([])
    ensures ParseDefinitions(ts + tail) == Some(ParseDefinitions(ts).value + ParseDefinitions(tail).value)
  {
    assert ts + tail == tail;
    assert [] + ParseDefinitions(tail).value == ParseDefinitions(tail).value;
  }

  lemma {:induction false} DefinitionsAppend(ts: seq<Token>, tail: seq<Token>)
    requires ParseDefinitions(ts).Some? && ParseDefinitions(tail).Some?
    ensures ParseDefinitions(ts + tail) == Some(ParseDefinitions(ts).value + ParseDefinitions(tail).value)
    decreases |ts|
  {
    if |ts| == 0 {
      DefinitionsEmpty(ts, tail);
    } else {
      var d := ParseDefinition(ts).value;
      DefinitionsAppend(d.rest, tail);
      ReadDefinitionsStep(ts, d);
      DefinitionsAppendStep(ts, tail, d, ParseDefinitions(d.rest).value, ParseDefinitions(tail).value);
    }
  }

  /** Concatenating two sources concatenates their definitions. */
  lemma SourceConcat(ts1: seq<Token>, ts2: seq<Token>)
    requires ParseSource(ts1).Some? && ParseSource(ts2).Some?
    ensures ParseSource(ts1 + ts2) == Some(ParseSource(ts1).value + ParseSource(ts2).value)
  {
    DefinitionsAppend(ts1, ts2);
  }
}
