/** The other direction of the definition grammar: whatever the parser reads
    prints back to exactly the tokens it was read from and is well formed
    (with any names), so printing is onto the sources the grammar accepts. */
module DefinitionParseProofs {
  import opened Wrappers
  import opened Tokens
  import opened Syntax
  import opened TypeGrammar
  import opened ExtendedAttributeGrammar
  import opened MemberGrammar
  import opened MemberParseProofs
  import opened DefinitionGrammar

  // ---------------------------------------------------------------------------
  // Which keyword selects which alternative

  /** The keyword that selects an alternative; an includes statement begins
      with a name instead. */
  function StartKeyword(start: DefinitionStart): Option<DefinitionKeyword> {
    match start
    case CallbackStart => Some(KwCallback)
    case InterfaceStart => Some(KwInterface)
    case NamespaceStart => Some(KwNamespace)
    case PartialStart => Some(KwPartial)
    case DictionaryStart => Some(KwDictionary)
    case EnumStart => Some(KwEnum)
    case TypedefStart => Some(KwTypedef)
    case IncludesStart => None
  }

  /** Each definition keyword is the only token that selects its
      alternative. */
  lemma StartKeywordSelects(t: Token)
    ensures StartKeyword(DefinitionStartOf(t)).Some? ==> t == DefinitionToken(StartKeyword(DefinitionStartOf(t)).value)
  {
  }

  // ---------------------------------------------------------------------------
  // Parts of definitions

  lemma InheritancePrintsBack(ts: seq<Token>)
    requires ParseInheritance(ts).Some?
    ensures var r := ParseInheritance(ts).value;
      EmitInheritance(r.value, r.rest) == ts && WfInherits(r.value, false)
  {
    if Next(ts, Punct(Colon)) {
      Uncons(ts);
      Uncons(ts[1..]);
    }
  }

  lemma ClosePrintsBack(ts: seq<Token>)
    requires ParseClose(ts).Some?
    ensures EmitClose(ParseClose(ts).value) == ts
  {
    Uncons(ts);
    Uncons(ts[1..]);
  }

  lemma MembersBodyPrintsBack(ts: seq<Token>, c: Container)
    requires ParseMembersBody(ts, c).Some?
    ensures var r := ParseMembersBody(ts, c).value;
      EmitMembersBody(r.value, r.rest) == ts && WfMembers(r.value, c, false)
  {
    var ms := ParseMembers(ts[1..], c).value;
    Uncons(ts);
    MembersPrintsBack(ts[1..], c);
    ClosePrintsBack(ms.rest);
  }

  lemma NamespaceBodyPrintsBack(ts: seq<Token>)
    requires ParseNamespaceBody(ts).Some?
    ensures var r := ParseNamespaceBody(ts).value;
      EmitNamespaceBody(r.value, r.rest) == ts && WfNamespaceMembers(r.value, false)
  {
    var ms := ParseNamespaceMembers(ts[1..]).value;
    Uncons(ts);
    NamespaceMembersPrintsBack(ts[1..]);
    ClosePrintsBack(ms.rest);
  }

  lemma DictionaryBodyPrintsBack(ts: seq<Token>)
    requires ParseDictionaryBody(ts).Some?
    ensures var r := ParseDictionaryBody(ts).value;
      EmitDictionaryBody(r.value, r.rest) == ts && WfDictionaryMembers(r.value, false)
  {
    var ms := ParseDictionaryMembers(ts[1..]).value;
    Uncons(ts);
    DictionaryMembersPrintsBack(ts[1..]);
    ClosePrintsBack(ms.rest);
  }

  lemma {:induction false} EnumValuesPrintsBack(ts: seq<Token>)
    requires ParseEnumValues(ts).Some?
    ensures var r := ParseEnumValues(ts).value;
      EmitEnumValues(r.value.0, r.value.1, r.rest) == ts
    decreases |ts|
  {
    var r := ParseEnumValues(ts).value;
    Uncons(ts);
    if Next(ts[1..], Punct(Comma)) {
      Uncons(ts[1..]);
      if |ts| > 2 && ts[2].StringToken? {
        var more := ParseEnumValues(ts[2..]).value;
        EnumValuesPrintsBack(ts[2..]);
        assert ts[1..][1..] == ts[2..];
        assert r.value.0[1..] == more.value.0;
      }
    }
  }

  // ---------------------------------------------------------------------------
  // Each alternative, after its selecting keyword

  lemma CallbackPrintsBack(a: Annotations, ts: seq<Token>)
    requires WfAnnotations(a, false) && ParseCallback(a, ts).Some?
    ensures var r := ParseCallback(a, ts).value;
      && AnnotationsOf(r.value) == a
      && EmitDefinitionBody(r.value, r.rest) == [DefinitionToken(KwCallback)] + ts
      && WfDefinition(r.value, false)
  {
    var n := ParseName(ts[1..]).value;
    Uncons(ts);
    Uncons(ts[1..]);
    MembersBodyPrintsBack(n.rest, InterfaceBody);
  }

  /** After `interface`, both a mixin and a plain interface. */
  lemma InterfacePrintsBack(a: Annotations, ts: seq<Token>)
    requires WfAnnotations(a, false) && ParseInterface(a, ts).Some?
    ensures var r := ParseInterface(a, ts).value;
      && AnnotationsOf(r.value) == a
      && EmitDefinitionBody(r.value, r.rest) == [DefinitionToken(KwInterface)] + ts
      && WfDefinition(r.value, false)
  {
    if Next(ts, DefinitionToken(KwMixin)) {
      MixinBodyPrintsBack(a, ts);
    } else {
      PlainInterfacePrintsBack(a, ts);
    }
  }

  lemma MixinBodyPrintsBack(a: Annotations, ts: seq<Token>)
    requires WfAnnotations(a, false) && Next(ts, DefinitionToken(KwMixin)) && ParseInterface(a, ts).Some?
    ensures var r := ParseInterface(a, ts).value;
      && AnnotationsOf(r.value) == a
      && EmitDefinitionBody(r.value, r.rest) == [DefinitionToken(KwInterface)] + ts
      && WfDefinition(r.value, false)
  {
    var n := ParseName(ts[1..]).value;
    Uncons(ts);
    Uncons(ts[1..]);
    MembersBodyPrintsBack(n.rest, MixinBody);
  }

  lemma PlainInterfacePrintsBack(a: Annotations, ts: seq<Token>)
    requires WfAnnotations(a, false) && !Next(ts, DefinitionToken(KwMixin)) && ParseInterface(a, ts).Some?
    ensures var r := ParseInterface(a, ts).value;
      && AnnotationsOf(r.value) == a
      && EmitDefinitionBody(r.value, r.rest) == [DefinitionToken(KwInterface)] + ts
      && WfDefinition(r.value, false)
  {
    var n := ParseName(ts).value;
    var i := ParseInheritance(n.rest).value;
    Uncons(ts);
    InheritancePrintsBack(n.rest);
    MembersBodyPrintsBack(i.rest, InterfaceBody);
  }

  lemma NamespacePrintsBack(a: Annotations, ts: seq<Token>)
    requires WfAnnotations(a, false) && ParseNamespace(a, ts).Some?
    ensures var r := ParseNamespace(a, ts).value;
      && AnnotationsOf(r.value) == a
      && EmitDefinitionBody(r.value, r.rest) == [DefinitionToken(KwNamespace)] + ts
      && WfDefinition(r.value, false)
  {
    var n := ParseName(ts).value;
    Uncons(ts);
    NamespaceBodyPrintsBack(n.rest);
  }

  lemma PartialPrintsBack(a: Annotations, ts: seq<Token>)
    requires WfAnnotations(a, false) && ParsePartial(a, ts).Some?
    ensures var r := ParsePartial(a, ts).value;
      && AnnotationsOf(r.value) == a
      && EmitDefinitionBody(r.value, r.rest) == [DefinitionToken(KwPartial)] + ts
      && WfDefinition(r.value, false)
  {
    var n := ParseName(ts[1..]).value;
    Uncons(ts);
    Uncons(ts[1..]);
    if Next(ts, DefinitionToken(KwInterface)) {
      MembersBodyPrintsBack(n.rest, PartialInterfaceBody);
    } else if Next(ts, DefinitionToken(KwDictionary)) {
      DictionaryBodyPrintsBack(n.rest);
    } else {
      NamespaceBodyPrintsBack(n.rest);
    }
  }

  lemma DictionaryPrintsBack(a: Annotations, ts: seq<Token>)
    requires WfAnnotations(a, false) && ParseDictionary(a, ts).Some?
    ensures var r := ParseDictionary(a, ts).value;
      && AnnotationsOf(r.value) == a
      && EmitDefinitionBody(r.value, r.rest) == [DefinitionToken(KwDictionary)] + ts
      && WfDefinition(r.value, false)
  {
    var n := ParseName(ts).value;
    var i := ParseInheritance(n.rest).value;
    Uncons(ts);
    InheritancePrintsBack(n.rest);
    DictionaryBodyPrintsBack(i.rest);
  }

  lemma EnumPrintsBack(a: Annotations, ts: seq<Token>)
    requires WfAnnotations(a, false) && ParseEnum(a, ts).Some?
    ensures var r := ParseEnum(a, ts).value;
      && AnnotationsOf(r.value) == a
      && EmitDefinitionBody(r.value, r.rest) == [DefinitionToken(KwEnum)] + ts
      && WfDefinition(r.value, false)
  {
    var n := ParseName(ts).value;
    var vs := ParseEnumValues(n.rest[1..]).value;
    Uncons(ts);
    Uncons(n.rest);
    EnumValuesPrintsBack(n.rest[1..]);
    ClosePrintsBack(vs.rest);
  }

  lemma TypedefPrintsBack(a: Annotations, ts: seq<Token>)
    requires WfAnnotations(a, false) && ParseTypedef(a, ts).Some?
    ensures var r := ParseTypedef(a, ts).value;
      && AnnotationsOf(r.value) == a
      && EmitDefinitionBody(r.value, r.rest) == [DefinitionToken(KwTypedef)] + ts
      && WfDefinition(r.value, false)
  {
    var t := ParseAnnotatedType(ts).value;
    var n := ParseName(t.rest).value;
    AnnotatedTypePrintsBack(ts);
    ParsedAnnotatedTypeWf(ts);
    Uncons(t.rest);
    Uncons(n.rest);
  }

  lemma IncludesPrintsBack(ts: seq<Token>)
    requires ParseIncludes(ts).Some?
    ensures var r := ParseIncludes(ts).value;
      && AnnotationsOf(r.value) == None
      && EmitDefinitionBody(r.value, r.rest) == ts
      && WfDefinition(r.value, false)
  {
    var t := ParseName(ts).value;
    var m := ParseName(t.rest[1..]).value;
    assert t.rest == ts[1..] && m.rest == ts[3..];
    FourTokens(ts);
  }

  lemma FourTokens(ts: seq<Token>)
    requires |ts| >= 4
    ensures ts == [ts[0]] + ([ts[1]] + ([ts[2]] + ([ts[3]] + ts[4..])))
  {
  }

  // ---------------------------------------------------------------------------
  // The alternative the first token selects

  /** What a definition's first token selects prints back with that token
      in front. */
  lemma DefinitionAfterPrintsBack(a: Annotations, ts: seq<Token>)
    requires |ts| > 0 && WfAnnotations(a, false)
    requires ParseDefinitionAfter(a, DefinitionStartOf(ts[0]), ts).Some?
    ensures var r := ParseDefinitionAfter(a, DefinitionStartOf(ts[0]), ts).value;
      && AnnotationsOf(r.value) == a
      && EmitDefinitionBody(r.value, r.rest) == ts
      && WfDefinition(r.value, false)
  {
    var start := DefinitionStartOf(ts[0]);
    StartKeywordSelects(ts[0]);
    Uncons(ts);
    match start
    case CallbackStart => CallbackPrintsBack(a, ts[1..]);
    case InterfaceStart => InterfacePrintsBack(a, ts[1..]);
    case NamespaceStart => NamespacePrintsBack(a, ts[1..]);
    case PartialStart => PartialPrintsBack(a, ts[1..]);
    case DictionaryStart => DictionaryPrintsBack(a, ts[1..]);
    case EnumStart => EnumPrintsBack(a, ts[1..]);
    case TypedefStart => TypedefPrintsBack(a, ts[1..]);
    case IncludesStart => IncludesPrintsBack(ts);
  }

  // ---------------------------------------------------------------------------
  // Definitions and the source

  lemma DefinitionPrintsBack(ts: seq<Token>)
    requires ParseDefinition(ts).Some?
    ensures var r := ParseDefinition(ts).value;
      EmitDefinition(r.value, r.rest) == ts && WfDefinition(r.value, false)
  {
    var a := ParseAnnotations(ts).value;
    AnnotationsPrintsBack(ts);
    ParsedAnnotationsWf(ts);
    DefinitionAfterPrintsBack(a.value, a.rest);
  }

  lemma DefinitionsCons(d: Definition, ds: seq<Definition>)
    requires WfDefinition(d, false) && WfDefinitions(ds, false)
    ensures EmitDefinitions([d] + ds, []) == EmitDefinition(d, EmitDefinitions(ds, []))
    ensures WfDefinitions([d] + ds, false)
  {
    assert ([d] + ds)[1..] == ds;
    assert forall i :: 1 <= i < |[d] + ds| ==> ([d] + ds)[i] == ds[i - 1];
  }

  lemma {:induction false} DefinitionsPrintsBack(ts: seq<Token>)
    requires ParseDefinitions(ts).Some?
    ensures EmitDefinitions(ParseDefinitions(ts).value, []) == ts
    ensures WfDefinitions(ParseDefinitions(ts).value, false)
    decreases |ts|
  {
    if |ts| > 0 {
      var d := ParseDefinition(ts).value;
      var more := ParseDefinitions(d.rest).value;
      DefinitionPrintsBack(ts);
      DefinitionsPrintsBack(d.rest);
      DefinitionsCons(d.value, more);
    }
  }

  /** Every source the parser accepts is the printing of what it read, and
      what it read is well formed. */
  lemma SourcePrintsBack(ts: seq<Token>)
    requires ParseSource(ts).Some?
    ensures EmitSource(ParseSource(ts).value) == ts
    ensures WfDefinitions(ParseSource(ts).value, false)
  {
    DefinitionsPrintsBack(ts);
  }

  // ---------------------------------------------------------------------------
  // What the grammar promises of every definition it reads

  /** A braced member list is closed by `}` `;`. */
  lemma MembersBodyCloses(ts: seq<Token>, c: Container)
    requires ParseMembersBody(ts, c).Some?
    ensures ts[0] == Punct(OpenBrace)
    ensures ParseMembers(ts[1..], c).value.rest == [Punct(CloseBrace), Punct(Semicolon)] + ParseMembersBody(ts, c).value.rest
  {
    var ms := ParseMembers(ts[1..], c).value;
    Uncons(ms.rest);
    Uncons(ms.rest[1..]);
  }

  lemma NamespaceBodyCloses(ts: seq<Token>)
    requires ParseNamespaceBody(ts).Some?
    ensures ts[0] == Punct(OpenBrace)
    ensures ParseNamespaceMembers(ts[1..]).value.rest == [Punct(CloseBrace), Punct(Semicolon)] + ParseNamespaceBody(ts).value.rest
  {
    var ms := ParseNamespaceMembers(ts[1..]).value;
    Uncons(ms.rest);
    Uncons(ms.rest[1..]);
  }

  lemma DictionaryBodyCloses(ts: seq<Token>)
    requires ParseDictionaryBody(ts).Some?
    ensures ts[0] == Punct(OpenBrace)
    ensures ParseDictionaryMembers(ts[1..]).value.rest == [Punct(CloseBrace), Punct(Semicolon)] + ParseDictionaryBody(ts).value.rest
  {
    var ms := ParseDictionaryMembers(ts[1..]).value;
    Uncons(ms.rest);
    Uncons(ms.rest[1..]);
  }

  /** An enum's values are followed by `}` `;`, whether or not the last is
      followed by a comma. */
  lemma EnumCloses(a: Annotations, ts: seq<Token>)
    requires ParseEnum(a, ts).Some?
    ensures |ts| > 1 && ts[1] == Punct(OpenBrace)
    ensures ParseEnumValues(ts[2..]).value.rest == [Punct(CloseBrace), Punct(Semicolon)] + ParseEnum(a, ts).value.rest
  {
    var n := ParseName(ts).value;
    assert n.rest[1..] == ts[2..];
    var vs := ParseEnumValues(ts[2..]).value;
    Uncons(vs.rest);
    Uncons(vs.rest[1..]);
  }

  /** An includes statement never carries extended attributes: whatever the
      parser reads as one began with its target name, not with `[`. */
  lemma ParsedIncludesUnannotated(ts: seq<Token>)
    requires ParseDefinition(ts).Some? && ParseDefinition(ts).value.value.Includes?
    ensures ts[0] == NameToken(ParseDefinition(ts).value.value.target)
    ensures ts[0] != Punct(OpenBracket)
  {
    DefinitionPrintsBack(ts);
  }

  /** The members of a parsed mixin include no iterable, async iterable or
      constructor, and those of a parsed partial interface no constructor;
      callback interfaces and interfaces admit every member. */
  lemma ParsedMembersAllowed(ts: seq<Token>)
    requires ParseDefinition(ts).Some?
    ensures var d := ParseDefinition(ts).value.value;
      && (d.Mixin? ==> forall i :: 0 <= i < |d.members| ==>
            !(d.members[i].body.Iterable? || d.members[i].body.AsyncIterable? || d.members[i].body.Constructor?))
      && (d.PartialDefinition? && d.partial.PartialInterface? ==> forall i :: 0 <= i < |d.partial.members| ==>
            !d.partial.members[i].body.Constructor?)
  {
    DefinitionPrintsBack(ts);
  }
}
