/** Definitions and the whole source: a printer and a recursive-descent
    parser for each `_definition`, and for `source`, a sequence of
    definitions that must take up every token. */
module DefinitionGrammar {
  import opened Wrappers
  import opened Tokens
  import opened Syntax
  import opened TypeGrammar
  import opened ExtendedAttributeGrammar
  import opened MemberGrammar

  function DefinitionToken(k: DefinitionKeyword): Token {
    KeywordToken(DefinitionWord(k))
  }

  // ---------------------------------------------------------------------------
  // Printing

  /** `}` `;`, which closes every braced definition. */
  function EmitClose(rest: seq<Token>): (r: seq<Token>)
    ensures |r| == |rest| + 2
  {
    [Punct(CloseBrace)] + ([Punct(Semicolon)] + rest)
  }

  /** `_inheritance`: `:` and the inherited name, when there is one. */
  function EmitInheritance(i: Option<Name>, rest: seq<Token>): (r: seq<Token>)
    ensures |r| >= |rest|
  {
    match i
    case None => rest
    case Some(n) => [Punct(Colon)] + ([NameToken(n)] + rest)
  }

  function EmitMembersBody(ms: seq<Member>, rest: seq<Token>): (r: seq<Token>)
    ensures |r| > |rest| + 2
  {
    [Punct(OpenBrace)] + EmitMembers(ms, EmitClose(rest))
  }

  function EmitNamespaceBody(ms: seq<NamespaceMember>, rest: seq<Token>): (r: seq<Token>)
    ensures |r| > |rest| + 2
  {
    [Punct(OpenBrace)] + EmitNamespaceMembers(ms, EmitClose(rest))
  }

  function EmitDictionaryBody(ms: seq<DictionaryMember>, rest: seq<Token>): (r: seq<Token>)
    ensures |r| > |rest| + 2
  {
    [Punct(OpenBrace)] + EmitDictionaryMembers(ms, EmitClose(rest))
  }

  /** `_enum_value_list`: strings separated by commas, with one more comma
      after the last when `trailing` is set. */
  function EmitEnumValues(vs: seq<string>, trailing: bool, rest: seq<Token>): (r: seq<Token>)
    ensures |r| >= |rest|
  {
    if |vs| == 0 then rest
    else if |vs| == 1 then [StringToken(vs[0])] + (if trailing then [Punct(Comma)] + rest else rest)
    else [StringToken(vs[0])] + ([Punct(Comma)] + EmitEnumValues(vs[1..], trailing, rest))
  }

  /** The extended attributes in front of a definition; an includes
      statement has none. */
  function AnnotationsOf(d: Definition): Annotations {
    match d
    case PartialDefinition(p) => p.attributes
    case Includes(_, _) => None
    case _ => d.attributes
  }

  /** A definition from its first keyword (or, for an includes statement,
      its first name) on. */
  function EmitDefinitionBody(d: Definition, rest: seq<Token>): (r: seq<Token>)
    ensures |r| > |rest|
  {
    match d
    case CallbackInterface(_, n, ms) =>
      [DefinitionToken(KwCallback)] + ([DefinitionToken(KwInterface)] + ([NameToken(n)] + EmitMembersBody(ms, rest)))
    case Interface(_, n, i, ms) =>
      [DefinitionToken(KwInterface)] + ([NameToken(n)] + EmitInheritance(i, EmitMembersBody(ms, rest)))
    case Mixin(_, n, ms) =>
      [DefinitionToken(KwInterface)] + ([DefinitionToken(KwMixin)] + ([NameToken(n)] + EmitMembersBody(ms, rest)))
    case Namespace(_, n, ms) =>
      [DefinitionToken(KwNamespace)] + ([NameToken(n)] + EmitNamespaceBody(ms, rest))
    case PartialDefinition(p) => [DefinitionToken(KwPartial)] + EmitPartial(p, rest)
    case Dictionary(_, n, i, ms) =>
      [DefinitionToken(KwDictionary)] + ([NameToken(n)] + EmitInheritance(i, EmitDictionaryBody(ms, rest)))
    case Enum(_, n, vs, trailing) =>
      [DefinitionToken(KwEnum)] + ([NameToken(n)] + ([Punct(OpenBrace)] + EmitEnumValues(vs, trailing, EmitClose(rest))))
    case Typedef(_, t, n) =>
      [DefinitionToken(KwTypedef)] + EmitAnnotatedType(t, [NameToken(n)] + ([Punct(Semicolon)] + rest))
    case Includes(t, m) =>
      [NameToken(t)] + ([DefinitionToken(KwIncludes)] + ([NameToken(m)] + ([Punct(Semicolon)] + rest)))
  }

  /** A partial definition after `partial`. */
  function EmitPartial(p: Partial, rest: seq<Token>): (r: seq<Token>)
    ensures |r| > |rest|
  {
    match p
    case PartialInterface(_, n, ms) => [DefinitionToken(KwInterface)] + ([NameToken(n)] + EmitMembersBody(ms, rest))
    case PartialDictionary(_, n, ms) => [DefinitionToken(KwDictionary)] + ([NameToken(n)] + EmitDictionaryBody(ms, rest))
    case PartialNamespace(_, n, ms) => [DefinitionToken(KwNamespace)] + ([NameToken(n)] + EmitNamespaceBody(ms, rest))
  }

  function EmitDefinition(d: Definition, rest: seq<Token>): (r: seq<Token>)
    ensures |r| > |rest|
  {
    EmitAnnotations(AnnotationsOf(d), EmitDefinitionBody(d, rest))
  }

  function EmitDefinitions(ds: seq<Definition>, rest: seq<Token>): (r: seq<Token>)
    ensures |r| >= |rest|
  {
    if |ds| == 0 then rest else EmitDefinition(ds[0], EmitDefinitions(ds[1..], rest))
  }

  /** `source`: the definitions, one after another. */
  function EmitSource(ds: seq<Definition>): seq<Token> {
    EmitDefinitions(ds, [])
  }

  // ---------------------------------------------------------------------------
  // Parsing

  /** What the first token after a definition's extended attributes
      selects. Anything that is not a definition keyword begins an includes
      statement. */
  datatype DefinitionStart =
    | CallbackStart
    | InterfaceStart
    | NamespaceStart
    | PartialStart
    | DictionaryStart
    | EnumStart
    | TypedefStart
    | IncludesStart

  function DefinitionStartOf(t: Token): DefinitionStart {
    match t
    case KeywordToken(DefinitionWord(k)) =>
      (match k
       case KwCallback => CallbackStart
       case KwInterface => InterfaceStart
       case KwNamespace => NamespaceStart
       case KwPartial => PartialStart
       case KwDictionary => DictionaryStart
       case KwEnum => EnumStart
       case KwTypedef => TypedefStart
       case KwMixin => IncludesStart
       case KwIncludes => IncludesStart)
    case _ => IncludesStart
  }

  function ParseInheritance(ts: seq<Token>): (r: Option<Parsed<Option<Name>>>)
    ensures r.Some? ==> |r.value.rest| <= |ts|
  {
    if Next(ts, Punct(Colon)) then
      var n :- ParseName(ts[1..]);
      Some(Parsed(Some(n.value), n.rest))
    else
      Some(Parsed(None, ts))
  }

  /** `}` `;` after a member list. */
  function ParseClose(ts: seq<Token>): (r: Option<seq<Token>>)
    ensures r.Some? <==> |ts| > 1 && ts[0] == Punct(CloseBrace) && ts[1] == Punct(Semicolon)
    ensures r.Some? ==> r.value == ts[2..]
  {
    var afterBrace :- Expect(ts, Punct(CloseBrace));
    Expect(afterBrace, Punct(Semicolon))
  }

  /** `{` members `}` `;` for the members container `c` admits. */
  function ParseMembersBody(ts: seq<Token>, c: Container): (r: Option<Parsed<seq<Member>>>)
    ensures r.Some? ==> |r.value.rest| < |ts|
  {
    var afterOpen :- Expect(ts, Punct(OpenBrace));
    var ms :- ParseMembers(afterOpen, c);
    var afterClose :- ParseClose(ms.rest);
    Some(Parsed(ms.value, afterClose))
  }

  function ParseNamespaceBody(ts: seq<Token>): (r: Option<Parsed<seq<NamespaceMember>>>)
    ensures r.Some? ==> |r.value.rest| < |ts|
  {
    var afterOpen :- Expect(ts, Punct(OpenBrace));
    var ms :- ParseNamespaceMembers(afterOpen);
    var afterClose :- ParseClose(ms.rest);
    Some(Parsed(ms.value, afterClose))
  }

  function ParseDictionaryBody(ts: seq<Token>): (r: Option<Parsed<seq<DictionaryMember>>>)
    ensures r.Some? ==> |r.value.rest| < |ts|
  {
    var afterOpen :- Expect(ts, Punct(OpenBrace));
    var ms :- ParseDictionaryMembers(afterOpen);
    var afterClose :- ParseClose(ms.rest);
    Some(Parsed(ms.value, afterClose))
  }

  /** At least one string; a comma not followed by a string is the trailing
      comma, and ends the list. */
  function ParseEnumValues(ts: seq<Token>): (r: Option<Parsed<(seq<string>, bool)>>)
    ensures r.Some? ==> |r.value.rest| < |ts| && |r.value.value.0| > 0
    decreases |ts|
  {
    if |ts| == 0 || !ts[0].StringToken? then None
    else if Next(ts[1..], Punct(Comma)) then
      if |ts| > 2 && ts[2].StringToken? then
        var more :- ParseEnumValues(ts[2..]);
        Some(Parsed(([ts[0].text] + more.value.0, more.value.1), more.rest))
      else
        Some(Parsed(([ts[0].text], true), ts[2..]))
    else
      Some(Parsed(([ts[0].text], false), ts[1..]))
  }

  /** After `callback`: `interface`, a name and interface members. */
  function ParseCallback(a: Annotations, ts: seq<Token>): (r: Option<Parsed<Definition>>)
    ensures r.Some? ==> |r.value.rest| < |ts|
  {
    var afterInterface :- Expect(ts, DefinitionToken(KwInterface));
    var n :- ParseName(afterInterface);
    var ms :- ParseMembersBody(n.rest, InterfaceBody);
    Some(Parsed(CallbackInterface(a, n.value, ms.value), ms.rest))
  }

  /** After `interface`: `mixin` makes it a mixin, otherwise it is an
      interface with an optional inheritance. */
  function ParseInterface(a: Annotations, ts: seq<Token>): (r: Option<Parsed<Definition>>)
    ensures r.Some? ==> |r.value.rest| < |ts|
  {
    if Next(ts, DefinitionToken(KwMixin)) then
      var n :- ParseName(ts[1..]);
      var ms :- ParseMembersBody(n.rest, MixinBody);
      Some(Parsed(Mixin(a, n.value, ms.value), ms.rest))
    else
      var n :- ParseName(ts);
      var i :- ParseInheritance(n.rest);
      var ms :- ParseMembersBody(i.rest, InterfaceBody);
      Some(Parsed(Interface(a, n.value, i.value, ms.value), ms.rest))
  }

  function ParseNamespace(a: Annotations, ts: seq<Token>): (r: Option<Parsed<Definition>>)
    ensures r.Some? ==> |r.value.rest| < |ts|
  {
    var n :- ParseName(ts);
    var ms :- ParseNamespaceBody(n.rest);
    Some(Parsed(Namespace(a, n.value, ms.value), ms.rest))
  }

  /** After `partial`: an interface, a dictionary or a namespace. */
  function ParsePartial(a: Annotations, ts: seq<Token>): (r: Option<Parsed<Definition>>)
    ensures r.Some? ==> |r.value.rest| < |ts|
  {
    if Next(ts, DefinitionToken(KwInterface)) then
      var n :- ParseName(ts[1..]);
      var ms :- ParseMembersBody(n.rest, PartialInterfaceBody);
      Some(Parsed(PartialDefinition(PartialInterface(a, n.value, ms.value)), ms.rest))
    else if Next(ts, DefinitionToken(KwDictionary)) then
      var n :- ParseName(ts[1..]);
      var ms :- ParseDictionaryBody(n.rest);
      Some(Parsed(PartialDefinition(PartialDictionary(a, n.value, ms.value)), ms.rest))
    else if Next(ts, DefinitionToken(KwNamespace)) then
      var n :- ParseName(ts[1..]);
      var ms :- ParseNamespaceBody(n.rest);
      Some(Parsed(PartialDefinition(PartialNamespace(a, n.value, ms.value)), ms.rest))
    else
      None
  }

  function ParseDictionary(a: Annotations, ts: seq<Token>): (r: Option<Parsed<Definition>>)
    ensures r.Some? ==> |r.value.rest| < |ts|
  {
    var n :- ParseName(ts);
    var i :- ParseInheritance(n.rest);
    var ms :- ParseDictionaryBody(i.rest);
    Some(Parsed(Dictionary(a, n.value, i.value, ms.value), ms.rest))
  }

  function ParseEnum(a: Annotations, ts: seq<Token>): (r: Option<Parsed<Definition>>)
    ensures r.Some? ==> |r.value.rest| < |ts|
  {
    var n :- ParseName(ts);
    var afterOpen :- Expect(n.rest, Punct(OpenBrace));
    var vs :- ParseEnumValues(afterOpen);
    var afterClose :- ParseClose(vs.rest);
    Some(Parsed(Enum(a, n.value, vs.value.0, vs.value.1), afterClose))
  }

  function ParseTypedef(a: Annotations, ts: seq<Token>): (r: Option<Parsed<Definition>>)
    ensures r.Some? ==> |r.value.rest| < |ts|
  {
    var t :- ParseAnnotatedType(ts);
    var n :- ParseName(t.rest);
    var afterSemicolon :- Expect(n.rest, Punct(Semicolon));
    Some(Parsed(Typedef(a, t.value, n.value), afterSemicolon))
  }

  /** `includes_statement`: target `includes` mixin `;` */
  function ParseIncludes(ts: seq<Token>): (r: Option<Parsed<Definition>>)
    ensures r.Some? ==> |r.value.rest| < |ts|
  {
    var t :- ParseName(ts);
    var afterIncludes :- Expect(t.rest, DefinitionToken(KwIncludes));
    var m :- ParseName(afterIncludes);
    var afterSemicolon :- Expect(m.rest, Punct(Semicolon));
    Some(Parsed(Includes(t.value, m.value), afterSemicolon))
  }

  /** The alternative `start` selects, read from `ts`, whose first token is
      the one that selected it. Extended attributes in front of an includes
      statement are a syntax error. */
  function ParseDefinitionAfter(a: Annotations, start: DefinitionStart, ts: seq<Token>): (r: Option<Parsed<Definition>>)
    requires |ts| > 0
    ensures r.Some? ==> |r.value.rest| < |ts|
  {
    match start
    case CallbackStart => ParseCallback(a, ts[1..])
    case InterfaceStart => ParseInterface(a, ts[1..])
    case NamespaceStart => ParseNamespace(a, ts[1..])
    case PartialStart => ParsePartial(a, ts[1..])
    case DictionaryStart => ParseDictionary(a, ts[1..])
    case EnumStart => ParseEnum(a, ts[1..])
    case TypedefStart => ParseTypedef(a, ts[1..])
    case IncludesStart => if a.Some? then None else ParseIncludes(ts)
  }

  /** `_definition`: extended attributes, then the alternative the next
      token selects. */
  function ParseDefinition(ts: seq<Token>): (r: Option<Parsed<Definition>>)
    ensures r.Some? ==> |r.value.rest| < |ts|
  {
    var a :- ParseAnnotations(ts);
    if |a.rest| == 0 then None else ParseDefinitionAfter(a.value, DefinitionStartOf(a.rest[0]), a.rest)
  }

  /** Definitions up to the end of the tokens. */
  function ParseDefinitions(ts: seq<Token>): (r: Option<seq<Definition>>)
    decreases |ts|
  {
    if |ts| == 0 then Some([])
    else
      var d :- ParseDefinition(ts);
      var more :- ParseDefinitions(d.rest);
      Some([d.value] + more)
  }

  /** `source`: a whole token stream, every token of it part of some
      definition. */
  function ParseSource(ts: seq<Token>): Option<seq<Definition>> {
    ParseDefinitions(ts)
  }
}
