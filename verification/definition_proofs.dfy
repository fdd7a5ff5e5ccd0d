/** The definition grammar's printer and parser are inverse: a list of
    well-formed definitions with plain names prints to a source that parses
    back to exactly that list. */
module DefinitionProofs {
  import opened Wrappers
  import opened Tokens
  import opened Syntax
  import opened TypeGrammar
  import opened ExtendedAttributeGrammar
  import opened MemberGrammar
  import opened MemberProofs
  import opened DefinitionGrammar

  // ---------------------------------------------------------------------------
  // Parts of definitions

  lemma InheritanceRoundTrip(i: Option<Name>, rest: seq<Token>)
    requires WfInherits(i, true) && !Next(rest, Punct(Colon))
    ensures ParseInheritance(EmitInheritance(i, rest)) == Some(Parsed(i, rest))
  {
    if i.Some? {
      ConsTail(Punct(Colon), [NameToken(i.value)] + rest);
      ConsTail(NameToken(i.value), rest);
    }
  }

  lemma CloseRoundTrip(rest: seq<Token>)
    ensures ParseClose(EmitClose(rest)) == Some(rest)
  {
    ConsTail(Punct(CloseBrace), [Punct(Semicolon)] + rest);
    ConsTail(Punct(Semicolon), rest);
  }

  lemma MembersBodyRoundTrip(ms: seq<Member>, c: Container, rest: seq<Token>)
    requires WfMembers(ms, c, true)
    ensures ParseMembersBody(EmitMembersBody(ms, rest), c) == Some(Parsed(ms, rest))
  {
    ConsTail(Punct(OpenBrace), EmitMembers(ms, EmitClose(rest)));
    MembersRoundTrip(ms, c, EmitClose(rest));
    CloseRoundTrip(rest);
  }

  lemma NamespaceBodyRoundTrip(ms: seq<NamespaceMember>, rest: seq<Token>)
    requires WfNamespaceMembers(ms, true)
    ensures ParseNamespaceBody(EmitNamespaceBody(ms, rest)) == Some(Parsed(ms, rest))
  {
    ConsTail(Punct(OpenBrace), EmitNamespaceMembers(ms, EmitClose(rest)));
    NamespaceMembersRoundTrip(ms, EmitClose(rest));
    CloseRoundTrip(rest);
  }

  lemma DictionaryBodyRoundTrip(ms: seq<DictionaryMember>, rest: seq<Token>)
    requires WfDictionaryMembers(ms, true)
    ensures ParseDictionaryBody(EmitDictionaryBody(ms, rest)) == Some(Parsed(ms, rest))
  {
    ConsTail(Punct(OpenBrace), EmitDictionaryMembers(ms, EmitClose(rest)));
    DictionaryMembersRoundTrip(ms, EmitClose(rest));
    CloseRoundTrip(rest);
  }

  /** An enum's values read back with or without the trailing comma. */
  lemma {:induction false} EnumValuesRoundTrip(vs: seq<string>, trailing: bool, rest: seq<Token>)
    requires |vs| > 0 && Next(rest, Punct(CloseBrace))
    ensures ParseEnumValues(EmitEnumValues(vs, trailing, rest)) == Some(Parsed((vs, trailing), rest))
    decreases |vs|
  {
    var ts := EmitEnumValues(vs, trailing, rest);
    if |vs| == 1 {
      var tail := if trailing then [Punct(Comma)] + rest else rest;
      ConsTail(StringToken(vs[0]), tail);
      ConsTail(Punct(Comma), rest);
      assert [vs[0]] == vs;
    } else {
      var more := EmitEnumValues(vs[1..], trailing, rest);
      EnumValuesRoundTrip(vs[1..], trailing, rest);
      DropTwo(StringToken(vs[0]), Punct(Comma), more);
      assert ts[1..][0] == Punct(Comma);
      assert [vs[0]] + vs[1..] == vs;
    }
  }

  // ---------------------------------------------------------------------------
  // Each alternative, after its selecting keyword

  lemma CallbackRoundTrip(a: Annotations, n: Name, ms: seq<Member>, rest: seq<Token>)
    requires NameOk(n, true) && WfMembers(ms, InterfaceBody, true)
    ensures ParseCallback(a, [DefinitionToken(KwInterface)] + ([NameToken(n)] + EmitMembersBody(ms, rest)))
      == Some(Parsed(CallbackInterface(a, n, ms), rest))
  {
    ConsTail(DefinitionToken(KwInterface), [NameToken(n)] + EmitMembersBody(ms, rest));
    ConsTail(NameToken(n), EmitMembersBody(ms, rest));
    MembersBodyRoundTrip(ms, InterfaceBody, rest);
  }

  lemma InterfaceRoundTrip(a: Annotations, n: Name, i: Option<Name>, ms: seq<Member>, rest: seq<Token>)
    requires NameOk(n, true) && WfInherits(i, true) && WfMembers(ms, InterfaceBody, true)
    ensures ParseInterface(a, [NameToken(n)] + EmitInheritance(i, EmitMembersBody(ms, rest)))
      == Some(Parsed(Interface(a, n, i, ms), rest))
  {
    ConsTail(NameToken(n), EmitInheritance(i, EmitMembersBody(ms, rest)));
    InheritanceRoundTrip(i, EmitMembersBody(ms, rest));
    MembersBodyRoundTrip(ms, InterfaceBody, rest);
  }

  lemma MixinRoundTrip(a: Annotations, n: Name, ms: seq<Member>, rest: seq<Token>)
    requires NameOk(n, true) && WfMembers(ms, MixinBody, true)
    ensures ParseInterface(a, [DefinitionToken(KwMixin)] + ([NameToken(n)] + EmitMembersBody(ms, rest)))
      == Some(Parsed(Mixin(a, n, ms), rest))
  {
    ConsTail(DefinitionToken(KwMixin), [NameToken(n)] + EmitMembersBody(ms, rest));
    ConsTail(NameToken(n), EmitMembersBody(ms, rest));
    MembersBodyRoundTrip(ms, MixinBody, rest);
  }

  lemma NamespaceRoundTrip(a: Annotations, n: Name, ms: seq<NamespaceMember>, rest: seq<Token>)
    requires NameOk(n, true) && WfNamespaceMembers(ms, true)
    ensures ParseNamespace(a, [NameToken(n)] + EmitNamespaceBody(ms, rest)) == Some(Parsed(Namespace(a, n, ms), rest))
  {
    ConsTail(NameToken(n), EmitNamespaceBody(ms, rest));
    NamespaceBodyRoundTrip(ms, rest);
  }

  lemma PartialInterfaceRoundTrip(a: Annotations, n: Name, ms: seq<Member>, rest: seq<Token>)
    requires NameOk(n, true) && WfMembers(ms, PartialInterfaceBody, true)
    ensures ParsePartial(a, [DefinitionToken(KwInterface)] + ([NameToken(n)] + EmitMembersBody(ms, rest)))
      == Some(Parsed(PartialDefinition(PartialInterface(a, n, ms)), rest))
  {
    ConsTail(DefinitionToken(KwInterface), [NameToken(n)] + EmitMembersBody(ms, rest));
    ConsTail(NameToken(n), EmitMembersBody(ms, rest));
    MembersBodyRoundTrip(ms, PartialInterfaceBody, rest);
  }

  lemma PartialDictionaryRoundTrip(a: Annotations, n: Name, ms: seq<DictionaryMember>, rest: seq<Token>)
    requires NameOk(n, true) && WfDictionaryMembers(ms, true)
    ensures ParsePartial(a, [DefinitionToken(KwDictionary)] + ([NameToken(n)] + EmitDictionaryBody(ms, rest)))
      == Some(Parsed(PartialDefinition(PartialDictionary(a, n, ms)), rest))
  {
    ConsTail(DefinitionToken(KwDictionary), [NameToken(n)] + EmitDictionaryBody(ms, rest));
    ConsTail(NameToken(n), EmitDictionaryBody(ms, rest));
    DictionaryBodyRoundTrip(ms, rest);
  }

  lemma PartialNamespaceRoundTrip(a: Annotations, n: Name, ms: seq<NamespaceMember>, rest: seq<Token>)
    requires NameOk(n, true) && WfNamespaceMembers(ms, true)
    ensures ParsePartial(a, [DefinitionToken(KwNamespace)] + ([NameToken(n)] + EmitNamespaceBody(ms, rest)))
      == Some(Parsed(PartialDefinition(PartialNamespace(a, n, ms)), rest))
  {
    ConsTail(DefinitionToken(KwNamespace), [NameToken(n)] + EmitNamespaceBody(ms, rest));
    ConsTail(NameToken(n), EmitNamespaceBody(ms, rest));
    NamespaceBodyRoundTrip(ms, rest);
  }

  lemma PartialRoundTrip(p: Partial, rest: seq<Token>)
    requires WfPartial(p, true)
    ensures ParsePartial(p.attributes, EmitPartial(p, rest)) == Some(Parsed(PartialDefinition(p), rest))
  {
    match p
    case PartialInterface(a, n, ms) => PartialInterfaceRoundTrip(a, n, ms, rest);
    case PartialDictionary(a, n, ms) => PartialDictionaryRoundTrip(a, n, ms, rest);
    case PartialNamespace(a, n, ms) => PartialNamespaceRoundTrip(a, n, ms, rest);
  }

  lemma DictionaryRoundTrip(a: Annotations, n: Name, i: Option<Name>, ms: seq<DictionaryMember>, rest: seq<Token>)
    requires NameOk(n, true) && WfInherits(i, true) && WfDictionaryMembers(ms, true)
    ensures ParseDictionary(a, [NameToken(n)] + EmitInheritance(i, EmitDictionaryBody(ms, rest)))
      == Some(Parsed(Dictionary(a, n, i, ms), rest))
  {
    ConsTail(NameToken(n), EmitInheritance(i, EmitDictionaryBody(ms, rest)));
    InheritanceRoundTrip(i, EmitDictionaryBody(ms, rest));
    DictionaryBodyRoundTrip(ms, rest);
  }

  lemma EnumRoundTrip(a: Annotations, n: Name, vs: seq<string>, trailing: bool, rest: seq<Token>)
    requires NameOk(n, true) && |vs| > 0
    ensures ParseEnum(a, [NameToken(n)] + ([Punct(OpenBrace)] + EmitEnumValues(vs, trailing, EmitClose(rest))))
      == Some(Parsed(Enum(a, n, vs, trailing), rest))
  {
    var values := EmitEnumValues(vs, trailing, EmitClose(rest));
    ConsTail(NameToken(n), [Punct(OpenBrace)] + values);
    ConsTail(Punct(OpenBrace), values);
    EnumValuesRoundTrip(vs, trailing, EmitClose(rest));
    CloseRoundTrip(rest);
  }

  lemma TypedefRoundTrip(a: Annotations, t: TypeWithExtendedAttributes, n: Name, rest: seq<Token>)
    requires WfAnnotatedType(t, true) && NameOk(n, true)
    ensures ParseTypedef(a, EmitAnnotatedType(t, [NameToken(n)] + ([Punct(Semicolon)] + rest)))
      == Some(Parsed(Typedef(a, t, n), rest))
  {
    AnnotatedTypeRoundTrip(t, [NameToken(n)] + ([Punct(Semicolon)] + rest));
    ConsTail(NameToken(n), [Punct(Semicolon)] + rest);
    ConsTail(Punct(Semicolon), rest);
  }

  lemma IncludesRoundTrip(t: Name, m: Name, rest: seq<Token>)
    requires NameOk(t, true) && NameOk(m, true)
    ensures ParseIncludes(EmitDefinitionBody(Includes(t, m), rest)) == Some(Parsed(Includes(t, m), rest))
  {
    var afterMixin := [Punct(Semicolon)] + rest;
    var afterKeyword := [NameToken(m)] + afterMixin;
    ConsTail(NameToken(t), [DefinitionToken(KwIncludes)] + afterKeyword);
    ConsTail(DefinitionToken(KwIncludes), afterKeyword);
    ConsTail(NameToken(m), afterMixin);
    ConsTail(Punct(Semicolon), rest);
  }

  // ---------------------------------------------------------------------------
  // The selected alternative is what a definition parses as

  /** A printed definition never begins with `[`, so its extended
      attributes end where it begins. */
  lemma DefinitionLeads(d: Definition, rest: seq<Token>)
    ensures EmitDefinitionBody(d, rest)[0] != Punct(OpenBracket)
  {
  }

  lemma DefinitionBodyRoundTrip(d: Definition, rest: seq<Token>)
    requires WfDefinition(d, true)
    ensures var ts := EmitDefinitionBody(d, rest);
      ParseDefinitionAfter(AnnotationsOf(d), DefinitionStartOf(ts[0]), ts) == Some(Parsed(d, rest))
  {
    if d.CallbackInterface? {
      CallbackDefinitionRoundTrip(d, rest);
    } else if d.Interface? {
      InterfaceDefinitionRoundTrip(d, rest);
    } else if d.Mixin? {
      MixinDefinitionRoundTrip(d, rest);
    } else if d.Namespace? {
      NamespaceDefinitionRoundTrip(d, rest);
    } else if d.PartialDefinition? {
      PartialDefinitionRoundTrip(d, rest);
    } else if d.Dictionary? {
      DictionaryDefinitionRoundTrip(d, rest);
    } else if d.Enum? {
      EnumDefinitionRoundTrip(d, rest);
    } else if d.Typedef? {
      TypedefDefinitionRoundTrip(d, rest);
    } else {
      IncludesDefinitionRoundTrip(d, rest);
    }
  }

  lemma CallbackDefinitionRoundTrip(d: Definition, rest: seq<Token>)
    requires d.CallbackInterface? && WfDefinition(d, true)
    ensures var ts := EmitDefinitionBody(d, rest);
      ParseDefinitionAfter(AnnotationsOf(d), DefinitionStartOf(ts[0]), ts) == Some(Parsed(d, rest))
  {
    var ts := EmitDefinitionBody(d, rest);
    CallbackShape(d, rest);
    CallbackRoundTrip(d.attributes, d.name, d.members, rest);
    CallbackStep(ts, AnnotationsOf(d), CallbackStart, d, rest);
  }

  lemma InterfaceDefinitionRoundTrip(d: Definition, rest: seq<Token>)
    requires d.Interface? && WfDefinition(d, true)
    ensures var ts := EmitDefinitionBody(d, rest);
      ParseDefinitionAfter(AnnotationsOf(d), DefinitionStartOf(ts[0]), ts) == Some(Parsed(d, rest))
  {
    var ts := EmitDefinitionBody(d, rest);
    InterfaceShape(d, rest);
    InterfaceRoundTrip(d.attributes, d.name, d.inherits, d.members, rest);
    InterfaceStep(ts, AnnotationsOf(d), InterfaceStart, d, rest);
  }

  lemma MixinDefinitionRoundTrip(d: Definition, rest: seq<Token>)
    requires d.Mixin? && WfDefinition(d, true)
    ensures var ts := EmitDefinitionBody(d, rest);
      ParseDefinitionAfter(AnnotationsOf(d), DefinitionStartOf(ts[0]), ts) == Some(Parsed(d, rest))
  {
    var ts := EmitDefinitionBody(d, rest);
    MixinShape(d, rest);
    MixinRoundTrip(d.attributes, d.name, d.members, rest);
    MixinStep(ts, AnnotationsOf(d), InterfaceStart, d, rest);
  }

  lemma NamespaceDefinitionRoundTrip(d: Definition, rest: seq<Token>)
    requires d.Namespace? && WfDefinition(d, true)
    ensures var ts := EmitDefinitionBody(d, rest);
      ParseDefinitionAfter(AnnotationsOf(d), DefinitionStartOf(ts[0]), ts) == Some(Parsed(d, rest))
  {
    var ts := EmitDefinitionBody(d, rest);
    NamespaceShape(d, rest);
    NamespaceRoundTrip(d.attributes, d.name, d.namespaceMembers, rest);
    NamespaceStep(ts, AnnotationsOf(d), NamespaceStart, d, rest);
  }

  lemma PartialDefinitionRoundTrip(d: Definition, rest: seq<Token>)
    requires d.PartialDefinition? && WfDefinition(d, true)
    ensures var ts := EmitDefinitionBody(d, rest);
      ParseDefinitionAfter(AnnotationsOf(d), DefinitionStartOf(ts[0]), ts) == Some(Parsed(d, rest))
  {
    var ts := EmitDefinitionBody(d, rest);
    PartialShape(d, rest);
    PartialRoundTrip(d.partial, rest);
    PartialStep(ts, AnnotationsOf(d), PartialStart, d, rest);
  }

  lemma DictionaryDefinitionRoundTrip(d: Definition, rest: seq<Token>)
    requires d.Dictionary? && WfDefinition(d, true)
    ensures var ts := EmitDefinitionBody(d, rest);
      ParseDefinitionAfter(AnnotationsOf(d), DefinitionStartOf(ts[0]), ts) == Some(Parsed(d, rest))
  {
    var ts := EmitDefinitionBody(d, rest);
    DictionaryShape(d, rest);
    DictionaryRoundTrip(d.attributes, d.name, d.inherits, d.dictionaryMembers, rest);
    DictionaryStep(ts, AnnotationsOf(d), DictionaryStart, d, rest);
  }

  lemma EnumDefinitionRoundTrip(d: Definition, rest: seq<Token>)
    requires d.Enum? && WfDefinition(d, true)
    ensures var ts := EmitDefinitionBody(d, rest);
      ParseDefinitionAfter(AnnotationsOf(d), DefinitionStartOf(ts[0]), ts) == Some(Parsed(d, rest))
  {
    var ts := EmitDefinitionBody(d, rest);
    EnumShape(d, rest);
    EnumRoundTrip(d.attributes, d.name, d.values, d.trailingComma, rest);
    EnumStep(ts, AnnotationsOf(d), EnumStart, d, rest);
  }

  lemma TypedefDefinitionRoundTrip(d: Definition, rest: seq<Token>)
    requires d.Typedef? && WfDefinition(d, true)
    ensures var ts := EmitDefinitionBody(d, rest);
      ParseDefinitionAfter(AnnotationsOf(d), DefinitionStartOf(ts[0]), ts) == Some(Parsed(d, rest))
  {
    var ts := EmitDefinitionBody(d, rest);
    TypedefShape(d, rest);
    TypedefRoundTrip(d.attributes, d.typedefType, d.name, rest);
    TypedefStep(ts, AnnotationsOf(d), TypedefStart, d, rest);
  }

  lemma IncludesDefinitionRoundTrip(d: Definition, rest: seq<Token>)
    requires d.Includes? && WfDefinition(d, true)
    ensures var ts := EmitDefinitionBody(d, rest);
      ParseDefinitionAfter(AnnotationsOf(d), DefinitionStartOf(ts[0]), ts) == Some(Parsed(d, rest))
  {
    var ts := EmitDefinitionBody(d, rest);
    IncludesRoundTrip(d.target, d.mixin, rest);
    IncludesStep(ts, IncludesStart, d, rest);
  }

  // ---------------------------------------------------------------------------
  // The tokens each alternative prints to, and one step of the parser

  lemma CallbackShape(d: Definition, rest: seq<Token>)
    requires d.CallbackInterface?
    ensures var ts := EmitDefinitionBody(d, rest);
      |ts| > 0 && DefinitionStartOf(ts[0]) == CallbackStart && ts[1..] == [DefinitionToken(KwInterface)] + ([NameToken(d.name)] + EmitMembersBody(d.members, rest))
  {
    ConsTail(DefinitionToken(KwCallback), [DefinitionToken(KwInterface)] + ([NameToken(d.name)] + EmitMembersBody(d.members, rest)));
  }

  lemma InterfaceShape(d: Definition, rest: seq<Token>)
    requires d.Interface?
    ensures var ts := EmitDefinitionBody(d, rest);
      |ts| > 0 && DefinitionStartOf(ts[0]) == InterfaceStart && ts[1..] == [NameToken(d.name)] + EmitInheritance(d.inherits, EmitMembersBody(d.members, rest))
  {
    ConsTail(DefinitionToken(KwInterface), [NameToken(d.name)] + EmitInheritance(d.inherits, EmitMembersBody(d.members, rest)));
  }

  lemma MixinShape(d: Definition, rest: seq<Token>)
    requires d.Mixin?
    ensures var ts := EmitDefinitionBody(d, rest);
      |ts| > 0 && DefinitionStartOf(ts[0]) == InterfaceStart && ts[1..] == [DefinitionToken(KwMixin)] + ([NameToken(d.name)] + EmitMembersBody(d.members, rest))
  {
    ConsTail(DefinitionToken(KwInterface), [DefinitionToken(KwMixin)] + ([NameToken(d.name)] + EmitMembersBody(d.members, rest)));
  }

  lemma NamespaceShape(d: Definition, rest: seq<Token>)
    requires d.Namespace?
    ensures var ts := EmitDefinitionBody(d, rest);
      |ts| > 0 && DefinitionStartOf(ts[0]) == NamespaceStart && ts[1..] == [NameToken(d.name)] + EmitNamespaceBody(d.namespaceMembers, rest)
  {
    ConsTail(DefinitionToken(KwNamespace), [NameToken(d.name)] + EmitNamespaceBody(d.namespaceMembers, rest));
  }

  lemma PartialShape(d: Definition, rest: seq<Token>)
    requires d.PartialDefinition?
    ensures var ts := EmitDefinitionBody(d, rest);
      |ts| > 0 && DefinitionStartOf(ts[0]) == PartialStart && ts[1..] == EmitPartial(d.partial, rest)
  {
    ConsTail(DefinitionToken(KwPartial), EmitPartial(d.partial, rest));
  }

  lemma DictionaryShape(d: Definition, rest: seq<Token>)
    requires d.Dictionary?
    ensures var ts := EmitDefinitionBody(d, rest);
      |ts| > 0 && DefinitionStartOf(ts[0]) == DictionaryStart && ts[1..] == [NameToken(d.name)] + EmitInheritance(d.inherits, EmitDictionaryBody(d.dictionaryMembers, rest))
  {
    ConsTail(DefinitionToken(KwDictionary), [NameToken(d.name)] + EmitInheritance(d.inherits, EmitDictionaryBody(d.dictionaryMembers, rest)));
  }

  lemma EnumShape(d: Definition, rest: seq<Token>)
    requires d.Enum?
    ensures var ts := EmitDefinitionBody(d, rest);
      |ts| > 0 && DefinitionStartOf(ts[0]) == EnumStart && ts[1..] == [NameToken(d.name)] + ([Punct(OpenBrace)] + EmitEnumValues(d.values, d.trailingComma, EmitClose(rest)))
  {
    ConsTail(DefinitionToken(KwEnum), [NameToken(d.name)] + ([Punct(OpenBrace)] + EmitEnumValues(d.values, d.trailingComma, EmitClose(rest))));
  }

  lemma TypedefShape(d: Definition, rest: seq<Token>)
    requires d.Typedef?
    ensures var ts := EmitDefinitionBody(d, rest);
      |ts| > 0 && DefinitionStartOf(ts[0]) == TypedefStart && ts[1..] == EmitAnnotatedType(d.typedefType, [NameToken(d.name)] + ([Punct(Semicolon)] + rest))
  {
    ConsTail(DefinitionToken(KwTypedef), EmitAnnotatedType(d.typedefType, [NameToken(d.name)] + ([Punct(Semicolon)] + rest)));
  }

  lemma CallbackStep(ts: seq<Token>, a: Annotations, start: DefinitionStart, d: Definition, rest: seq<Token>)
    requires |ts| > 0 && start == CallbackStart && ParseCallback(a, ts[1..]) == Some(Parsed(d, rest))
    ensures ParseDefinitionAfter(a, start, ts) == Some(Parsed(d, rest))
  {
  }

  lemma InterfaceStep(ts: seq<Token>, a: Annotations, start: DefinitionStart, d: Definition, rest: seq<Token>)
    requires |ts| > 0 && start == InterfaceStart && ParseInterface(a, ts[1..]) == Some(Parsed(d, rest))
    ensures ParseDefinitionAfter(a, start, ts) == Some(Parsed(d, rest))
  {
  }

  lemma MixinStep(ts: seq<Token>, a: Annotations, start: DefinitionStart, d: Definition, rest: seq<Token>)
    requires |ts| > 0 && start == InterfaceStart && ParseInterface(a, ts[1..]) == Some(Parsed(d, rest))
    ensures ParseDefinitionAfter(a, start, ts) == Some(Parsed(d, rest))
  {
  }

  lemma NamespaceStep(ts: seq<Token>, a: Annotations, start: DefinitionStart, d: Definition, rest: seq<Token>)
    requires |ts| > 0 && start == NamespaceStart && ParseNamespace(a, ts[1..]) == Some(Parsed(d, rest))
    ensures ParseDefinitionAfter(a, start, ts) == Some(Parsed(d, rest))
  {
  }

  lemma PartialStep(ts: seq<Token>, a: Annotations, start: DefinitionStart, d: Definition, rest: seq<Token>)
    requires |ts| > 0 && start == PartialStart && ParsePartial(a, ts[1..]) == Some(Parsed(d, rest))
    ensures ParseDefinitionAfter(a, start, ts) == Some(Parsed(d, rest))
  {
  }

  lemma DictionaryStep(ts: seq<Token>, a: Annotations, start: DefinitionStart, d: Definition, rest: seq<Token>)
    requires |ts| > 0 && start == DictionaryStart && ParseDictionary(a, ts[1..]) == Some(Parsed(d, rest))
    ensures ParseDefinitionAfter(a, start, ts) == Some(Parsed(d, rest))
  {
  }

  lemma EnumStep(ts: seq<Token>, a: Annotations, start: DefinitionStart, d: Definition, rest: seq<Token>)
    requires |ts| > 0 && start == EnumStart && ParseEnum(a, ts[1..]) == Some(Parsed(d, rest))
    ensures ParseDefinitionAfter(a, start, ts) == Some(Parsed(d, rest))
  {
  }

  lemma TypedefStep(ts: seq<Token>, a: Annotations, start: DefinitionStart, d: Definition, rest: seq<Token>)
    requires |ts| > 0 && start == TypedefStart && ParseTypedef(a, ts[1..]) == Some(Parsed(d, rest))
    ensures ParseDefinitionAfter(a, start, ts) == Some(Parsed(d, rest))
  {
  }

  lemma IncludesStep(ts: seq<Token>, start: DefinitionStart, d: Definition, rest: seq<Token>)
    requires |ts| > 0 && start == IncludesStart && ParseIncludes(ts) == Some(Parsed(d, rest))
    ensures ParseDefinitionAfter(None, start, ts) == Some(Parsed(d, rest))
  {
  }

  // ---------------------------------------------------------------------------
  // Definitions and the source

  lemma DefinitionStep(ts: seq<Token>, a: Annotations, after: seq<Token>)
    requires ParseAnnotations(ts) == Some(Parsed(a, after)) && |after| > 0
    ensures ParseDefinition(ts) == ParseDefinitionAfter(a, DefinitionStartOf(after[0]), after)
  {
  }

  lemma DefinitionRoundTrip(d: Definition, rest: seq<Token>)
    requires WfDefinition(d, true)
    ensures ParseDefinition(EmitDefinition(d, rest)) == Some(Parsed(d, rest))
  {
    var body := EmitDefinitionBody(d, rest);
    DefinitionBodyRoundTrip(d, rest);
    DefinitionLeads(d, rest);
    AnnotationsRoundTrip(AnnotationsOf(d), body);
    DefinitionStep(EmitDefinition(d, rest), AnnotationsOf(d), body);
  }

  lemma DefinitionsStep(ts: seq<Token>, d: Definition, mid: seq<Token>, more: seq<Definition>)
    requires |ts| > 0 && ParseDefinition(ts) == Some(Parsed(d, mid)) && ParseDefinitions(mid) == Some(more)
    ensures ParseDefinitions(ts) == Some([d] + more)
  {
  }

  lemma DefinitionConsRoundTrip(d: Definition, more: seq<Definition>, tail: seq<Token>)
    requires WfDefinition(d, true) && ParseDefinitions(tail) == Some(more)
    ensures ParseDefinitions(EmitDefinition(d, tail)) == Some([d] + more)
  {
    DefinitionRoundTrip(d, tail);
    DefinitionsStep(EmitDefinition(d, tail), d, tail, more);
  }

  lemma EmitDefinitionsCons(ds: seq<Definition>)
    requires |ds| > 0 && WfDefinition(ds[0], true)
    requires ParseDefinitions(EmitDefinitions(ds[1..], [])) == Some(ds[1..])
    ensures ParseDefinitions(EmitDefinitions(ds, [])) == Some(ds)
  {
    var tail := EmitDefinitions(ds[1..], []);
    EmitDefinitionsUnfold(ds);
    DefinitionConsRoundTrip(ds[0], ds[1..], tail);
    assert [ds[0]] + ds[1..] == ds;
  }

  lemma EmitDefinitionsUnfold(ds: seq<Definition>)
    requires |ds| > 0
    ensures EmitDefinitions(ds, []) == EmitDefinition(ds[0], EmitDefinitions(ds[1..], []))
  {
  }

  lemma {:induction false} DefinitionsRoundTrip(ds: seq<Definition>)
    requires WfDefinitions(ds, true)
    ensures ParseDefinitions(EmitDefinitions(ds, [])) == Some(ds)
    decreases |ds|
  {
    if |ds| > 0 {
      DefinitionsRoundTrip(ds[1..]);
      EmitDefinitionsCons(ds);
    }
  }

  /** A source printed from well-formed definitions with plain names parses
      back to exactly those definitions. */
  lemma SourceRoundTrip(ds: seq<Definition>)
    requires WfDefinitions(ds, true)
    ensures ParseSource(EmitSource(ds)) == Some(ds)
  {
    DefinitionsRoundTrip(ds);
  }
}
