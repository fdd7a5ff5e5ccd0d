/** Members of interfaces, mixins, partial interfaces, namespaces and
    dictionaries: a printer and a parser for each member form and for the
    member lists between a container's braces. */
module MemberGrammar {
  import opened Wrappers
  import opened Tokens
  import opened Syntax
  import opened TypeGrammar
  import opened ValueGrammar
  import opened ArgumentGrammar
  import opened ExtendedAttributeGrammar

  // ---------------------------------------------------------------------------
  // Printing

  function MemberToken(m: MemberKeyword): Token {
    KeywordToken(MemberWord(m))
  }

  function SpecialKeyword(s: Special): MemberKeyword {
    match s
    case Getter => KwGetter
    case Setter => KwSetter
    case Deleter => KwDeleter
  }

  /** `const` type name `=` value `;` */
  function EmitConst(c: Const, rest: seq<Token>): (r: seq<Token>)
    ensures |r| > |rest|
  {
    [MemberToken(KwConst)] +
    EmitConstType(c.constType, [NameToken(c.name)] + ([Punct(Equals)] + ([ConstValueToken(c.value)] + ([Punct(Semicolon)] + rest))))
  }

  /** `inherit`? `readonly`? `attribute` type name `;` */
  function EmitAttribute(a: Attribute, rest: seq<Token>): (r: seq<Token>)
    ensures |r| > |rest|
  {
    var body := [MemberToken(KwAttribute)] + EmitAnnotatedType(a.attributeType, [NameToken(a.name)] + ([Punct(Semicolon)] + rest));
    var afterInherit := if a.readonly then [MemberToken(KwReadonly)] + body else body;
    if a.inherit then [MemberToken(KwInherit)] + afterInherit else afterInherit
  }

  function EmitOptionalName(n: Option<Name>, rest: seq<Token>): (r: seq<Token>)
    ensures |r| >= |rest|
  {
    match n
    case None => rest
    case Some(x) => [NameToken(x)] + rest
  }

  /** `regular_operation`: return type, optional name, arguments, `;` */
  function EmitRegularOperation(op: RegularOperation, rest: seq<Token>): (r: seq<Token>)
    ensures |r| > |rest|
  {
    EmitType(op.returnType, EmitOptionalName(op.name, EmitArgumentList(op.arguments, [Punct(Semicolon)] + rest)))
  }

  /** `>` after the key type, or `,` value type `>`. */
  function EmitValueType(v: Option<Type>, rest: seq<Token>): (r: seq<Token>)
    ensures |r| > |rest|
  {
    match v
    case None => [Punct(CloseAngle)] + rest
    case Some(t) => [Punct(Comma)] + EmitType(t, [Punct(CloseAngle)] + rest)
  }

  function EmitOptionalArguments(args: Option<ArgumentList>, rest: seq<Token>): (r: seq<Token>)
    ensures |r| >= |rest|
  {
    match args
    case None => rest
    case Some(a) => EmitArgumentList(a, rest)
  }

  /** The body of a `stringifier`: an attribute or a bare `;`. */
  function EmitStringified(a: Option<Attribute>, rest: seq<Token>): (r: seq<Token>)
    ensures |r| > |rest|
  {
    match a
    case None => [Punct(Semicolon)] + rest
    case Some(x) => EmitAttribute(x, rest)
  }

  function EmitMemberBody(b: MemberBody, rest: seq<Token>): (r: seq<Token>)
    ensures |r| > |rest|
  {
    match b
    case ConstMember(c) => EmitConst(c, rest)
    case OperationMember(Regular(op)) => EmitRegularOperation(op, rest)
    case OperationMember(SpecialOperation(s, op)) => [MemberToken(SpecialKeyword(s))] + EmitRegularOperation(op, rest)
    case Stringifier(a, extra) =>
      [MemberToken(KwStringifier)] + EmitStringified(a, if extra then [Punct(Semicolon)] + rest else rest)
    case StaticMember(StaticAttribute(a)) => [MemberToken(KwStatic)] + EmitAttribute(a, rest)
    case StaticMember(StaticOperation(op)) => [MemberToken(KwStatic)] + EmitRegularOperation(op, rest)
    case Iterable(k, v) =>
      [MemberToken(KwIterable)] + ([Punct(OpenAngle)] + EmitType(k, EmitValueType(v, [Punct(Semicolon)] + rest)))
    case AsyncIterable(k, v, args) =>
      [MemberToken(KwAsync)] + ([MemberToken(KwIterable)] +
      ([Punct(OpenAngle)] + EmitType(k, EmitValueType(v, EmitOptionalArguments(args, [Punct(Semicolon)] + rest)))))
    case AttributeMember(a) => EmitAttribute(a, rest)
    case Maplike(readonly, k, v) =>
      var body := [MemberToken(KwMaplike)] + ([Punct(OpenAngle)] + EmitType(k, EmitValueType(Some(v), [Punct(Semicolon)] + rest)));
      if readonly then [MemberToken(KwReadonly)] + body else body
    case Setlike(readonly, v) =>
      var body := [MemberToken(KwSetlike)] + EmitTypeArgument(v, [Punct(Semicolon)] + rest);
      if readonly then [MemberToken(KwReadonly)] + body else body
    case Constructor(args) => [MemberToken(KwConstructor)] + EmitArgumentList(args, [Punct(Semicolon)] + rest)
  }

  function EmitMember(m: Member, rest: seq<Token>): (r: seq<Token>)
    ensures |r| > |rest|
  {
    EmitAnnotations(m.attributes, EmitMemberBody(m.body, rest))
  }

  function EmitMembers(ms: seq<Member>, rest: seq<Token>): (r: seq<Token>)
    ensures |r| >= |rest|
  {
    if |ms| == 0 then rest else EmitMember(ms[0], EmitMembers(ms[1..], rest))
  }

  function EmitNamespaceMember(m: NamespaceMember, rest: seq<Token>): (r: seq<Token>)
    ensures |r| > |rest|
  {
    match m
    case NamespaceOperation(op) => EmitRegularOperation(op, rest)
    case NamespaceAttribute(a) => EmitAttribute(a, rest)
    case NamespaceConst(c) => EmitConst(c, rest)
  }

  function EmitNamespaceMembers(ms: seq<NamespaceMember>, rest: seq<Token>): (r: seq<Token>)
    ensures |r| >= |rest|
  {
    if |ms| == 0 then rest else EmitNamespaceMember(ms[0], EmitNamespaceMembers(ms[1..], rest))
  }

  /** `dictionary_member`: annotations, `required`?, type, name, default, `;` */
  function EmitDictionaryMember(m: DictionaryMember, rest: seq<Token>): (r: seq<Token>)
    ensures |r| > |rest|
  {
    var typed := EmitType(m.memberType, [NameToken(m.name)] + EmitDefault(m.defaultValue, [Punct(Semicolon)] + rest));
    EmitAnnotations(m.attributes, if m.required then [MemberToken(KwRequired)] + typed else typed)
  }

  function EmitDictionaryMembers(ms: seq<DictionaryMember>, rest: seq<Token>): (r: seq<Token>)
    ensures |r| >= |rest|
  {
    if |ms| == 0 then rest else EmitDictionaryMember(ms[0], EmitDictionaryMembers(ms[1..], rest))
  }

  // ---------------------------------------------------------------------------
  // Parsing

  function ParseConst(ts: seq<Token>): (r: Option<Parsed<Const>>)
    ensures r.Some? ==> |r.value.rest| < |ts|
  {
    var afterConst :- Expect(ts, MemberToken(KwConst));
    var t :- ParseConstType(afterConst);
    var n :- ParseName(t.rest);
    var afterEquals :- Expect(n.rest, Punct(Equals));
    var v :- ParseConstValue(afterEquals);
    var afterSemicolon :- Expect(v.rest, Punct(Semicolon));
    Some(Parsed(Const(t.value, n.value, v.value), afterSemicolon))
  }

  /** `attribute`: the two modifiers are each optional, `inherit` first. */
  function ParseAttribute(ts: seq<Token>): (r: Option<Parsed<Attribute>>)
    ensures r.Some? ==> |r.value.rest| < |ts|
  {
    var inherit := Next(ts, MemberToken(KwInherit));
    var afterInherit := if inherit then ts[1..] else ts;
    var readonly := Next(afterInherit, MemberToken(KwReadonly));
    var afterReadonly := if readonly then afterInherit[1..] else afterInherit;
    ParseAttributeRest(inherit, readonly, afterReadonly)
  }

  /** After the modifiers: `attribute` type name `;` */
  function ParseAttributeRest(inherit: bool, readonly: bool, ts: seq<Token>): (r: Option<Parsed<Attribute>>)
    ensures r.Some? ==> |r.value.rest| < |ts|
  {
    var afterKeyword :- Expect(ts, MemberToken(KwAttribute));
    var t :- ParseAnnotatedType(afterKeyword);
    var n :- ParseName(t.rest);
    var afterSemicolon :- Expect(n.rest, Punct(Semicolon));
    Some(Parsed(Attribute(inherit, readonly, t.value, n.value), afterSemicolon))
  }

  /** An operation has no name when its argument list follows its type. */
  function ParseOptionalName(ts: seq<Token>): (r: Option<Parsed<Option<Name>>>)
    ensures r.Some? ==> |r.value.rest| <= |ts|
  {
    if Next(ts, Punct(OpenParen)) then Some(Parsed(None, ts))
    else
      var n :- ParseName(ts);
      Some(Parsed(Some(n.value), n.rest))
  }

  function ParseRegularOperation(ts: seq<Token>): (r: Option<Parsed<RegularOperation>>)
    ensures r.Some? ==> |r.value.rest| < |ts|
  {
    var t :- ParseType(ts);
    var n :- ParseOptionalName(t.rest);
    var args :- ParseArgumentList(n.rest);
    var afterSemicolon :- Expect(args.rest, Punct(Semicolon));
    Some(Parsed(RegularOperation(t.value, n.value, args.value), afterSemicolon))
  }

  function ParseValueType(ts: seq<Token>): (r: Option<Parsed<Option<Type>>>)
    ensures r.Some? ==> |r.value.rest| < |ts|
  {
    if Next(ts, Punct(Comma)) then
      var v :- ParseType(ts[1..]);
      var afterClose :- Expect(v.rest, Punct(CloseAngle));
      Some(Parsed(Some(v.value), afterClose))
    else
      var afterClose :- Expect(ts, Punct(CloseAngle));
      Some(Parsed(None, afterClose))
  }

  /** `<` key type (`,` value type)? `>` */
  function ParseIteratedTypes(ts: seq<Token>): (r: Option<Parsed<(Type, Option<Type>)>>)
    ensures r.Some? ==> |r.value.rest| < |ts|
  {
    var afterOpen :- Expect(ts, Punct(OpenAngle));
    var k :- ParseType(afterOpen);
    var v :- ParseValueType(k.rest);
    Some(Parsed((k.value, v.value), v.rest))
  }

  function ParseOptionalArguments(ts: seq<Token>): (r: Option<Parsed<Option<ArgumentList>>>)
    ensures r.Some? ==> |r.value.rest| <= |ts|
  {
    if Next(ts, Punct(OpenParen)) then
      var args :- ParseArgumentList(ts);
      Some(Parsed(Some(args.value), args.rest))
    else
      Some(Parsed(None, ts))
  }

  /** What the first token of a member body selects. A member keyword that
      opens no member (`required`, `optional`) is a type name there. */
  datatype MemberStart =
    | ConstStart
    | SpecialStart(special: Special)
    | StringifierStart
    | StaticStart
    | IterableStart
    | AsyncStart
    | AttributeStart
    | ReadonlyStart
    | MaplikeStart
    | SetlikeStart
    | ConstructorStart
    | OperationStart

  function MemberStartOf(t: Token): MemberStart {
    match t
    case KeywordToken(MemberWord(m)) => MemberKeywordStart(m)
    case _ => OperationStart
  }

  function MemberKeywordStart(m: MemberKeyword): MemberStart {
    match m
    case KwConst => ConstStart
    case KwGetter => SpecialStart(Getter)
    case KwSetter => SpecialStart(Setter)
    case KwDeleter => SpecialStart(Deleter)
    case KwStringifier => StringifierStart
    case KwStatic => StaticStart
    case KwIterable => IterableStart
    case KwAsync => AsyncStart
    case KwInherit => AttributeStart
    case KwAttribute => AttributeStart
    case KwReadonly => ReadonlyStart
    case KwMaplike => MaplikeStart
    case KwSetlike => SetlikeStart
    case KwConstructor => ConstructorStart
    case KwRequired => OperationStart
    case KwOptional => OperationStart
  }

  /** After `stringifier`: an attribute or `;`, then an optional extra `;`. */
  function ParseStringifier(ts: seq<Token>): (r: Option<Parsed<MemberBody>>)
    ensures r.Some? ==> |r.value.rest| < |ts|
  {
    var body :- ParseStringified(ts);
    var extra := Next(body.rest, Punct(Semicolon));
    Some(Parsed(Stringifier(body.value, extra), if extra then body.rest[1..] else body.rest))
  }

  function ParseStringified(ts: seq<Token>): (r: Option<Parsed<Option<Attribute>>>)
    ensures r.Some? ==> |r.value.rest| < |ts|
  {
    if Next(ts, Punct(Semicolon)) then Some(Parsed(None, ts[1..]))
    else
      var a :- ParseAttribute(ts);
      Some(Parsed(Some(a.value), a.rest))
  }

  /** After `static`: an attribute or a regular operation. */
  function ParseStatic(ts: seq<Token>): (r: Option<Parsed<MemberBody>>)
    ensures r.Some? ==> |r.value.rest| < |ts|
  {
    if |ts| > 0 && (MemberStartOf(ts[0]).AttributeStart? || MemberStartOf(ts[0]).ReadonlyStart?) then
      var a :- ParseAttribute(ts);
      Some(Parsed(StaticMember(StaticAttribute(a.value)), a.rest))
    else
      var op :- ParseRegularOperation(ts);
      Some(Parsed(StaticMember(StaticOperation(op.value)), op.rest))
  }

  /** After `async`: `iterable`, the iterated types, optional arguments, `;`. */
  function ParseAsyncIterable(ts: seq<Token>): (r: Option<Parsed<MemberBody>>)
    ensures r.Some? ==> |r.value.rest| < |ts|
  {
    var afterIterable :- Expect(ts, MemberToken(KwIterable));
    var types :- ParseIteratedTypes(afterIterable);
    var args :- ParseOptionalArguments(types.rest);
    var afterSemicolon :- Expect(args.rest, Punct(Semicolon));
    Some(Parsed(AsyncIterable(types.value.0, types.value.1, args.value), afterSemicolon))
  }

  /** After `maplike`: `<` key `,` value `>` `;` */
  function ParseMaplike(readonly: bool, ts: seq<Token>): (r: Option<Parsed<MemberBody>>)
    ensures r.Some? ==> |r.value.rest| < |ts|
  {
    var types :- ParseIteratedTypes(ts);
    if types.value.1.None? then None
    else
      var afterSemicolon :- Expect(types.rest, Punct(Semicolon));
      Some(Parsed(Maplike(readonly, types.value.0, types.value.1.value), afterSemicolon))
  }

  /** After `setlike`: `<` value `>` `;` */
  function ParseSetlike(readonly: bool, ts: seq<Token>): (r: Option<Parsed<MemberBody>>)
    ensures r.Some? ==> |r.value.rest| < |ts|
  {
    var v :- ParseTypeArgument(ts);
    var afterSemicolon :- Expect(v.rest, Punct(Semicolon));
    Some(Parsed(Setlike(readonly, v.value), afterSemicolon))
  }

  /** `readonly` begins a read-only maplike or setlike, or an attribute. */
  function ParseReadonly(ts: seq<Token>): (r: Option<Parsed<MemberBody>>)
    requires |ts| > 0
    ensures r.Some? ==> |r.value.rest| < |ts|
  {
    if Next(ts[1..], MemberToken(KwMaplike)) then ParseMaplike(true, ts[2..])
    else if Next(ts[1..], MemberToken(KwSetlike)) then ParseSetlike(true, ts[2..])
    else ParseAttributeMember(ts)
  }

  /** `const` begins a constant. */
  function ParseConstMember(ts: seq<Token>): (r: Option<Parsed<MemberBody>>)
    ensures r.Some? ==> |r.value.rest| < |ts|
  {
    var c :- ParseConst(ts);
    Some(Parsed(ConstMember(c.value), c.rest))
  }

  /** After `getter`, `setter` or `deleter`: a regular operation. */
  function ParseSpecial(s: Special, ts: seq<Token>): (r: Option<Parsed<MemberBody>>)
    ensures r.Some? ==> |r.value.rest| < |ts|
  {
    var op :- ParseRegularOperation(ts);
    Some(Parsed(OperationMember(SpecialOperation(s, op.value)), op.rest))
  }

  /** After `iterable`: the iterated types and `;`. */
  function ParseIterable(ts: seq<Token>): (r: Option<Parsed<MemberBody>>)
    ensures r.Some? ==> |r.value.rest| < |ts|
  {
    var types :- ParseIteratedTypes(ts);
    var afterSemicolon :- Expect(types.rest, Punct(Semicolon));
    Some(Parsed(Iterable(types.value.0, types.value.1), afterSemicolon))
  }

  function ParseAttributeMember(ts: seq<Token>): (r: Option<Parsed<MemberBody>>)
    ensures r.Some? ==> |r.value.rest| < |ts|
  {
    var a :- ParseAttribute(ts);
    Some(Parsed(AttributeMember(a.value), a.rest))
  }

  /** After `constructor`: an argument list and `;`. */
  function ParseConstructor(ts: seq<Token>): (r: Option<Parsed<MemberBody>>)
    ensures r.Some? ==> |r.value.rest| < |ts|
  {
    var args :- ParseArgumentList(ts);
    var afterSemicolon :- Expect(args.rest, Punct(Semicolon));
    Some(Parsed(Constructor(args.value), afterSemicolon))
  }

  /** A member body with no keyword of its own is a regular operation. */
  function ParseOperationMember(ts: seq<Token>): (r: Option<Parsed<MemberBody>>)
    ensures r.Some? ==> |r.value.rest| < |ts|
  {
    var op :- ParseRegularOperation(ts);
    Some(Parsed(OperationMember(Regular(op.value)), op.rest))
  }

  /** The first token of a member body decides which alternative it is. */
  function ParseMemberBody(ts: seq<Token>): (r: Option<Parsed<MemberBody>>)
    ensures r.Some? ==> |r.value.rest| < |ts|
  {
    if |ts| == 0 then None else ParseMemberAfter(MemberStartOf(ts[0]), ts)
  }

  /** The alternative `start` selects, read from `ts`, whose first token is
      the one that selected it. */
  function ParseMemberAfter(start: MemberStart, ts: seq<Token>): (r: Option<Parsed<MemberBody>>)
    requires |ts| > 0
    ensures r.Some? ==> |r.value.rest| < |ts|
  {
    match start
    case ConstStart => ParseConstMember(ts)
    case SpecialStart(s) => ParseSpecial(s, ts[1..])
    case StringifierStart => ParseStringifier(ts[1..])
    case StaticStart => ParseStatic(ts[1..])
    case IterableStart => ParseIterable(ts[1..])
    case AsyncStart => ParseAsyncIterable(ts[1..])
    case AttributeStart => ParseAttributeMember(ts)
    case ReadonlyStart => ParseReadonly(ts)
    case MaplikeStart => ParseMaplike(false, ts[1..])
    case SetlikeStart => ParseSetlike(false, ts[1..])
    case ConstructorStart => ParseConstructor(ts[1..])
    case OperationStart => ParseOperationMember(ts)
  }

  /** Whether the member keyword that selected `start` opens a member of
      container `c`. A mixin has no `iterable`, `async iterable` or
      `constructor` member and a partial interface no `constructor`, so
      there those words mean nothing and are read as type names. */
  predicate Opens(c: Container, start: MemberStart) {
    match c
    case InterfaceBody => true
    case MixinBody => !(start.IterableStart? || start.AsyncStart? || start.ConstructorStart?)
    case PartialInterfaceBody => !start.ConstructorStart?
  }

  /** A member body of container `c`: the first token selects an alternative
      only if it opens a member of `c`; otherwise the body is a regular
      operation whose return type begins with that token. */
  function ParseMemberBodyIn(c: Container, ts: seq<Token>): (r: Option<Parsed<MemberBody>>)
    ensures r.Some? ==> |r.value.rest| < |ts|
  {
    if |ts| > 0 && !Opens(c, MemberStartOf(ts[0])) then ParseOperationMember(ts)
    else ParseMemberBody(ts)
  }

  /** A member of container `c`. */
  function ParseMember(ts: seq<Token>, c: Container): (r: Option<Parsed<Member>>)
    ensures r.Some? ==> |r.value.rest| < |ts|
  {
    var a :- ParseAnnotations(ts);
    var b :- ParseMemberBodyIn(c, a.rest);
    Some(Parsed(Member(a.value, b.value), b.rest))
  }

  /** Members up to the closing brace, which is left unread. */
  function ParseMembers(ts: seq<Token>, c: Container): (r: Option<Parsed<seq<Member>>>)
    ensures r.Some? ==> |r.value.rest| <= |ts| && Next(r.value.rest, Punct(CloseBrace))
    decreases |ts|
  {
    if Next(ts, Punct(CloseBrace)) then Some(Parsed([], ts))
    else
      var m :- ParseMember(ts, c);
      var more :- ParseMembers(m.rest, c);
      Some(Parsed([m.value] + more.value, more.rest))
  }

  /** `_namespace_member`: a constant, an attribute or a regular operation,
      with no extended attributes of its own. */
  function ParseNamespaceMember(ts: seq<Token>): (r: Option<Parsed<NamespaceMember>>)
    ensures r.Some? ==> |r.value.rest| < |ts|
  {
    if |ts| > 0 && MemberStartOf(ts[0]).ConstStart? then
      var c :- ParseConst(ts);
      Some(Parsed(NamespaceConst(c.value), c.rest))
    else if |ts| > 0 && (MemberStartOf(ts[0]).AttributeStart? || MemberStartOf(ts[0]).ReadonlyStart?) then
      var a :- ParseAttribute(ts);
      Some(Parsed(NamespaceAttribute(a.value), a.rest))
    else
      var op :- ParseRegularOperation(ts);
      Some(Parsed(NamespaceOperation(op.value), op.rest))
  }

  function ParseNamespaceMembers(ts: seq<Token>): (r: Option<Parsed<seq<NamespaceMember>>>)
    ensures r.Some? ==> |r.value.rest| <= |ts| && Next(r.value.rest, Punct(CloseBrace))
    decreases |ts|
  {
    if Next(ts, Punct(CloseBrace)) then Some(Parsed([], ts))
    else
      var m :- ParseNamespaceMember(ts);
      var more :- ParseNamespaceMembers(m.rest);
      Some(Parsed([m.value] + more.value, more.rest))
  }

  function ParseDictionaryMember(ts: seq<Token>): (r: Option<Parsed<DictionaryMember>>)
    ensures r.Some? ==> |r.value.rest| < |ts|
  {
    var a :- ParseAnnotations(ts);
    var required := Next(a.rest, MemberToken(KwRequired));
    var t :- ParseType(if required then a.rest[1..] else a.rest);
    var n :- ParseName(t.rest);
    var d :- ParseDefault(n.rest);
    var afterSemicolon :- Expect(d.rest, Punct(Semicolon));
    Some(Parsed(DictionaryMember(a.value, required, t.value, n.value, d.value), afterSemicolon))
  }

  function ParseDictionaryMembers(ts: seq<Token>): (r: Option<Parsed<seq<DictionaryMember>>>)
    ensures r.Some? ==> |r.value.rest| <= |ts| && Next(r.value.rest, Punct(CloseBrace))
    decreases |ts|
  {
    if Next(ts, Punct(CloseBrace)) then Some(Parsed([], ts))
    else
      var m :- ParseDictionaryMember(ts);
      var more :- ParseDictionaryMembers(m.rest);
      Some(Parsed([m.value] + more.value, more.rest))
  }
}
