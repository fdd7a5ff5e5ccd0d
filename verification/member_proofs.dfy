/** The member grammar's printer and parser are inverse: a well-formed
    member with plain names prints to tokens that parse back to it, a parsed
    member prints back to the tokens it was read from, and what the parser
    builds is well formed and allowed in its container. */
module MemberProofs {
  import opened Wrappers
  import opened Tokens
  import opened Syntax
  import opened TypeGrammar
  import opened ValueGrammar
  import opened ArgumentGrammar
  import opened ExtendedAttributeGrammar
  import opened MemberGrammar

  // ---------------------------------------------------------------------------
  // Parts of members: round trips

  /** Any well-formed constant reads back, keyword names included, except
      one named `long`: after a type ending in `long` that name would extend
      the type to `long long`. */
  lemma ConstRoundTrip(c: Const, rest: seq<Token>)
    requires WfConst(c, false) && c.name != KeywordName(PrimitiveWord(KwLong))
    ensures ParseConst(EmitConst(c, rest)) == Some(Parsed(c, rest))
  {
    var afterSemicolon := [Punct(Semicolon)] + rest;
    var afterValue := [ConstValueToken(c.value)] + afterSemicolon;
    var afterEquals := [Punct(Equals)] + afterValue;
    var afterName := [NameToken(c.name)] + afterEquals;
    ConsTail(MemberToken(KwConst), EmitConstType(c.constType, afterName));
    ConstTypeRoundTrip(c.constType, afterName);
    ConsTail(NameToken(c.name), afterEquals);
    ConsTail(Punct(Equals), afterValue);
    ConstValueRoundTrip(c.value, afterSemicolon);
    ConsTail(Punct(Semicolon), rest);
  }

  lemma AttributeRoundTrip(a: Attribute, rest: seq<Token>)
    requires WfAttribute(a, true)
    ensures ParseAttribute(EmitAttribute(a, rest)) == Some(Parsed(a, rest))
  {
    var afterName := [Punct(Semicolon)] + rest;
    var afterType := [NameToken(a.name)] + afterName;
    var typed := EmitAnnotatedType(a.attributeType, afterType);
    var body := [MemberToken(KwAttribute)] + typed;
    var afterInherit := if a.readonly then [MemberToken(KwReadonly)] + body else body;
    ConsTail(MemberToken(KwInherit), afterInherit);
    ConsTail(MemberToken(KwReadonly), body);
    ConsTail(MemberToken(KwAttribute), typed);
    AnnotatedTypeRoundTrip(a.attributeType, afterType);
    ConsTail(NameToken(a.name), afterName);
    ConsTail(Punct(Semicolon), rest);
  }

  lemma OptionalNameRoundTrip(n: Option<Name>, rest: seq<Token>)
    requires n.Some? ==> NameOk(n.value, true)
    requires Next(rest, Punct(OpenParen))
    ensures ParseOptionalName(EmitOptionalName(n, rest)) == Some(Parsed(n, rest))
  {
    if n.Some? {
      ConsTail(NameToken(n.value), rest);
    }
  }

  lemma RegularOperationRoundTrip(op: RegularOperation, rest: seq<Token>)
    requires WfRegularOperation(op, true)
    ensures ParseRegularOperation(EmitRegularOperation(op, rest)) == Some(Parsed(op, rest))
  {
    var afterArguments := [Punct(Semicolon)] + rest;
    var args := EmitArgumentList(op.arguments, afterArguments);
    var named := EmitOptionalName(op.name, args);
    TypeRoundTrip(op.returnType, named);
    OptionalNameRoundTrip(op.name, args);
    ArgumentListRoundTrip(op.arguments, afterArguments);
    ConsTail(Punct(Semicolon), rest);
  }

  lemma ValueTypeRoundTrip(v: Option<Type>, rest: seq<Token>)
    requires WfOptionalType(v, true)
    ensures ParseValueType(EmitValueType(v, rest)) == Some(Parsed(v, rest))
  {
    ConsTail(Punct(CloseAngle), rest);
    if v.Some? {
      var typed := EmitType(v.value, [Punct(CloseAngle)] + rest);
      ConsTail(Punct(Comma), typed);
      TypeRoundTrip(v.value, [Punct(CloseAngle)] + rest);
    }
  }

  lemma IteratedTypesRoundTrip(k: Type, v: Option<Type>, rest: seq<Token>)
    requires WfType(k, true) && WfOptionalType(v, true)
    ensures ParseIteratedTypes([Punct(OpenAngle)] + EmitType(k, EmitValueType(v, rest))) == Some(Parsed((k, v), rest))
  {
    var values := EmitValueType(v, rest);
    ConsTail(Punct(OpenAngle), EmitType(k, values));
    TypeRoundTrip(k, values);
    ValueTypeRoundTrip(v, rest);
  }

  lemma OptionalArgumentsRoundTrip(args: Option<ArgumentList>, rest: seq<Token>)
    requires args.Some? ==> WfArgumentList(args.value, true)
    requires !Next(rest, Punct(OpenParen))
    ensures ParseOptionalArguments(EmitOptionalArguments(args, rest)) == Some(Parsed(args, rest))
  {
    if args.Some? {
      ArgumentListRoundTrip(args.value, rest);
    }
  }

  lemma StringifiedRoundTrip(a: Option<Attribute>, rest: seq<Token>)
    requires a.Some? ==> WfAttribute(a.value, true)
    ensures ParseStringified(EmitStringified(a, rest)) == Some(Parsed(a, rest))
  {
    ConsTail(Punct(Semicolon), rest);
    if a.Some? {
      AttributeRoundTrip(a.value, rest);
    }
  }

  // ---------------------------------------------------------------------------
  // One step of `ParseMemberBody` per kind of first token

  /** The selected alternative is what a member body parses as. */
  lemma BodyDispatch(ts: seq<Token>, start: MemberStart)
    requires |ts| > 0 && MemberStartOf(ts[0]) == start
    ensures ParseMemberBody(ts) == ParseMemberAfter(start, ts)
  {
  }

  lemma ConstStep(ts: seq<Token>, start: MemberStart, c: Const, rest: seq<Token>)
    requires |ts| > 0 && start == ConstStart && ParseConst(ts) == Some(Parsed(c, rest))
    ensures ParseMemberAfter(start, ts) == Some(Parsed(ConstMember(c), rest))
  {
  }

  lemma SpecialStep(ts: seq<Token>, start: MemberStart, s: Special, op: RegularOperation, rest: seq<Token>)
    requires |ts| > 0 && start == SpecialStart(s) && ParseRegularOperation(ts[1..]) == Some(Parsed(op, rest))
    ensures ParseMemberAfter(start, ts) == Some(Parsed(OperationMember(SpecialOperation(s, op)), rest))
  {
  }

  lemma StringifierStep(ts: seq<Token>, start: MemberStart, b: MemberBody, rest: seq<Token>)
    requires |ts| > 0 && start == StringifierStart && ParseStringifier(ts[1..]) == Some(Parsed(b, rest))
    ensures ParseMemberAfter(start, ts) == Some(Parsed(b, rest))
  {
  }

  lemma StaticStep(ts: seq<Token>, start: MemberStart, b: MemberBody, rest: seq<Token>)
    requires |ts| > 0 && start == StaticStart && ParseStatic(ts[1..]) == Some(Parsed(b, rest))
    ensures ParseMemberAfter(start, ts) == Some(Parsed(b, rest))
  {
  }

  lemma IterableStep(ts: seq<Token>, start: MemberStart, k: Type, v: Option<Type>, rest: seq<Token>)
    requires |ts| > 0 && start == IterableStart && ParseIteratedTypes(ts[1..]) == Some(Parsed((k, v), [Punct(Semicolon)] + rest))
    ensures ParseMemberAfter(start, ts) == Some(Parsed(Iterable(k, v), rest))
  {
    ConsTail(Punct(Semicolon), rest);
  }

  lemma AsyncStep(ts: seq<Token>, start: MemberStart, b: MemberBody, rest: seq<Token>)
    requires |ts| > 0 && start == AsyncStart && ParseAsyncIterable(ts[1..]) == Some(Parsed(b, rest))
    ensures ParseMemberAfter(start, ts) == Some(Parsed(b, rest))
  {
  }

  lemma AttributeStep(ts: seq<Token>, start: MemberStart, a: Attribute, rest: seq<Token>)
    requires |ts| > 0 && start == AttributeStart && ParseAttribute(ts) == Some(Parsed(a, rest))
    ensures ParseMemberAfter(start, ts) == Some(Parsed(AttributeMember(a), rest))
  {
  }

  lemma ReadonlyStep(ts: seq<Token>, start: MemberStart, b: MemberBody, rest: seq<Token>)
    requires |ts| > 0 && start == ReadonlyStart && ParseReadonly(ts) == Some(Parsed(b, rest))
    ensures ParseMemberAfter(start, ts) == Some(Parsed(b, rest))
  {
  }

  lemma MaplikeStep(ts: seq<Token>, start: MemberStart, b: MemberBody, rest: seq<Token>)
    requires |ts| > 0 && start == MaplikeStart && ParseMaplike(false, ts[1..]) == Some(Parsed(b, rest))
    ensures ParseMemberAfter(start, ts) == Some(Parsed(b, rest))
  {
  }

  lemma SetlikeStep(ts: seq<Token>, start: MemberStart, b: MemberBody, rest: seq<Token>)
    requires |ts| > 0 && start == SetlikeStart && ParseSetlike(false, ts[1..]) == Some(Parsed(b, rest))
    ensures ParseMemberAfter(start, ts) == Some(Parsed(b, rest))
  {
  }

  lemma ConstructorStep(ts: seq<Token>, start: MemberStart, args: ArgumentList, rest: seq<Token>)
    requires |ts| > 0 && start == ConstructorStart && ParseArgumentList(ts[1..]) == Some(Parsed(args, [Punct(Semicolon)] + rest))
    ensures ParseMemberAfter(start, ts) == Some(Parsed(Constructor(args), rest))
  {
    ConsTail(Punct(Semicolon), rest);
  }

  lemma OperationStep(ts: seq<Token>, start: MemberStart, op: RegularOperation, rest: seq<Token>)
    requires |ts| > 0 && start == OperationStart && ParseRegularOperation(ts) == Some(Parsed(op, rest))
    ensures ParseMemberAfter(start, ts) == Some(Parsed(OperationMember(Regular(op)), rest))
  {
  }

  /** `readonly` followed by `maplike` or `setlike`. */
  lemma ReadonlyMaplikeStep(ts: seq<Token>, b: MemberBody, rest: seq<Token>)
    requires |ts| > 1 && ts[1] == MemberToken(KwMaplike) && ParseMaplike(true, ts[2..]) == Some(Parsed(b, rest))
    ensures ParseReadonly(ts) == Some(Parsed(b, rest))
  {
    assert ts[1..][1..] == ts[2..];
  }

  lemma ReadonlySetlikeStep(ts: seq<Token>, b: MemberBody, rest: seq<Token>)
    requires |ts| > 1 && ts[1] == MemberToken(KwSetlike) && ParseSetlike(true, ts[2..]) == Some(Parsed(b, rest))
    ensures ParseReadonly(ts) == Some(Parsed(b, rest))
  {
    assert ts[1..][1..] == ts[2..];
  }

  /** `iterable`, the iterated types, the optional arguments and `;`. */
  lemma AsyncIterableStep(ts: seq<Token>, k: Type, v: Option<Type>, afterTypes: seq<Token>, args: Option<ArgumentList>, rest: seq<Token>)
    requires |ts| > 0 && ts[0] == MemberToken(KwIterable)
    requires ParseIteratedTypes(ts[1..]) == Some(Parsed((k, v), afterTypes))
    requires ParseOptionalArguments(afterTypes) == Some(Parsed(args, [Punct(Semicolon)] + rest))
    ensures ParseAsyncIterable(ts) == Some(Parsed(AsyncIterable(k, v, args), rest))
  {
    ConsTail(Punct(Semicolon), rest);
  }

  // ---------------------------------------------------------------------------
  // Member bodies: round trips, one lemma per alternative

  lemma MemberBodyRoundTrip(b: MemberBody, rest: seq<Token>)
    requires WfMemberBody(b, true) && !Next(rest, Punct(Semicolon))
    ensures ParseMemberBody(EmitMemberBody(b, rest)) == Some(Parsed(b, rest))
  {
    match b
    case ConstMember(c) => ConstMemberRoundTrip(c, rest);
    case OperationMember(Regular(op)) => RegularMemberRoundTrip(op, rest);
    case OperationMember(SpecialOperation(s, op)) => SpecialMemberRoundTrip(s, op, rest);
    case Stringifier(a, extra) => StringifierMemberRoundTrip(a, extra, rest);
    case StaticMember(s) => StaticMemberRoundTrip(s, rest);
    case Iterable(k, v) => IterableRoundTrip(k, v, rest);
    case AsyncIterable(k, v, args) => AsyncIterableRoundTrip(k, v, args, rest);
    case AttributeMember(a) => AttributeMemberRoundTrip(a, rest);
    case Maplike(readonly, k, v) => MaplikeRoundTrip(readonly, k, v, rest);
    case Setlike(readonly, v) => SetlikeRoundTrip(readonly, v, rest);
    case Constructor(args) => ConstructorRoundTrip(args, rest);
  }

  lemma ConstMemberRoundTrip(c: Const, rest: seq<Token>)
    requires WfConst(c, true)
    ensures ParseMemberBody(EmitMemberBody(ConstMember(c), rest)) == Some(Parsed(ConstMember(c), rest))
  {
    var ts := EmitMemberBody(ConstMember(c), rest);
    ConstShape(c, rest);
    ConstRoundTrip(c, rest);
    ConstStep(ts, ConstStart, c, rest);
    BodyDispatch(ts, ConstStart);
  }

  lemma RegularMemberRoundTrip(op: RegularOperation, rest: seq<Token>)
    requires WfRegularOperation(op, true)
    ensures var b := OperationMember(Regular(op));
      ParseMemberBody(EmitMemberBody(b, rest)) == Some(Parsed(b, rest))
  {
    var ts := EmitMemberBody(OperationMember(Regular(op)), rest);
    RegularShape(op, rest);
    RegularOperationRoundTrip(op, rest);
    OperationLeads(op, rest);
    OperationStep(ts, OperationStart, op, rest);
    BodyDispatch(ts, OperationStart);
  }

  lemma SpecialMemberRoundTrip(s: Special, op: RegularOperation, rest: seq<Token>)
    requires WfRegularOperation(op, true)
    ensures var b := OperationMember(SpecialOperation(s, op));
      ParseMemberBody(EmitMemberBody(b, rest)) == Some(Parsed(b, rest))
  {
    var ts := EmitMemberBody(OperationMember(SpecialOperation(s, op)), rest);
    SpecialShape(s, op, rest);
    RegularOperationRoundTrip(op, rest);
    SpecialStep(ts, SpecialStart(s), s, op, rest);
    BodyDispatch(ts, SpecialStart(s));
  }

  lemma StringifierMemberRoundTrip(a: Option<Attribute>, extra: bool, rest: seq<Token>)
    requires a.Some? ==> WfAttribute(a.value, true)
    requires !Next(rest, Punct(Semicolon))
    ensures ParseMemberBody(EmitMemberBody(Stringifier(a, extra), rest)) == Some(Parsed(Stringifier(a, extra), rest))
  {
    var ts := EmitMemberBody(Stringifier(a, extra), rest);
    StringifierShape(a, extra, rest);
    StringifierRoundTrip(a, extra, rest);
    StringifierStep(ts, StringifierStart, Stringifier(a, extra), rest);
    BodyDispatch(ts, StringifierStart);
  }

  lemma StaticMemberRoundTrip(s: StaticMemberBody, rest: seq<Token>)
    requires WfMemberBody(StaticMember(s), true)
    ensures ParseMemberBody(EmitMemberBody(StaticMember(s), rest)) == Some(Parsed(StaticMember(s), rest))
  {
    var ts := EmitMemberBody(StaticMember(s), rest);
    StaticShape(s, rest);
    StaticRoundTrip(s, ts[1..], rest);
    StaticStep(ts, StaticStart, StaticMember(s), rest);
    BodyDispatch(ts, StaticStart);
  }

  lemma IterableRoundTrip(k: Type, v: Option<Type>, rest: seq<Token>)
    requires WfType(k, true) && WfOptionalType(v, true)
    ensures ParseMemberBody(EmitMemberBody(Iterable(k, v), rest)) == Some(Parsed(Iterable(k, v), rest))
  {
    var ts := EmitMemberBody(Iterable(k, v), rest);
    IterableShape(k, v, rest);
    IteratedTypesRoundTrip(k, v, [Punct(Semicolon)] + rest);
    IterableStep(ts, IterableStart, k, v, rest);
    BodyDispatch(ts, IterableStart);
  }

  lemma AsyncIterableRoundTrip(k: Type, v: Option<Type>, args: Option<ArgumentList>, rest: seq<Token>)
    requires WfType(k, true) && WfOptionalType(v, true) && (args.Some? ==> WfArgumentList(args.value, true))
    ensures var b := AsyncIterable(k, v, args);
      ParseMemberBody(EmitMemberBody(b, rest)) == Some(Parsed(b, rest))
  {
    var ts := EmitMemberBody(AsyncIterable(k, v, args), rest);
    AsyncIterableShape(k, v, args, rest);
    AsyncIterableBodyRoundTrip(k, v, args, rest);
    AsyncStep(ts, AsyncStart, AsyncIterable(k, v, args), rest);
    BodyDispatch(ts, AsyncStart);
  }

  lemma AttributeMemberRoundTrip(a: Attribute, rest: seq<Token>)
    requires WfAttribute(a, true)
    ensures ParseMemberBody(EmitMemberBody(AttributeMember(a), rest)) == Some(Parsed(AttributeMember(a), rest))
  {
    var ts := EmitMemberBody(AttributeMember(a), rest);
    AttributeShape(a, rest);
    AttributeRoundTrip(a, rest);
    AttributeLeads(a, rest);
    if a.readonly && !a.inherit {
      ReadonlyAttributeRoundTrip(a, rest);
      ReadonlyStep(ts, ReadonlyStart, AttributeMember(a), rest);
      BodyDispatch(ts, ReadonlyStart);
    } else {
      AttributeStep(ts, AttributeStart, a, rest);
      BodyDispatch(ts, AttributeStart);
    }
  }

  lemma MaplikeRoundTrip(readonly: bool, k: Type, v: Type, rest: seq<Token>)
    requires WfType(k, true) && WfType(v, true)
    ensures var b := Maplike(readonly, k, v);
      ParseMemberBody(EmitMemberBody(b, rest)) == Some(Parsed(b, rest))
  {
    var ts := EmitMemberBody(Maplike(readonly, k, v), rest);
    MaplikeShape(readonly, k, v, rest);
    MaplikeTypesRoundTrip(readonly, k, v, rest);
    if readonly {
      ReadonlyMaplikeStep(ts, Maplike(true, k, v), rest);
      ReadonlyStep(ts, ReadonlyStart, Maplike(true, k, v), rest);
      BodyDispatch(ts, ReadonlyStart);
    } else {
      MaplikeStep(ts, MaplikeStart, Maplike(false, k, v), rest);
      BodyDispatch(ts, MaplikeStart);
    }
  }

  lemma SetlikeRoundTrip(readonly: bool, v: Type, rest: seq<Token>)
    requires WfType(v, true)
    ensures var b := Setlike(readonly, v);
      ParseMemberBody(EmitMemberBody(b, rest)) == Some(Parsed(b, rest))
  {
    var ts := EmitMemberBody(Setlike(readonly, v), rest);
    SetlikeShape(readonly, v, rest);
    SetlikeTypesRoundTrip(readonly, v, rest);
    if readonly {
      ReadonlySetlikeStep(ts, Setlike(true, v), rest);
      ReadonlyStep(ts, ReadonlyStart, Setlike(true, v), rest);
      BodyDispatch(ts, ReadonlyStart);
    } else {
      SetlikeStep(ts, SetlikeStart, Setlike(false, v), rest);
      BodyDispatch(ts, SetlikeStart);
    }
  }

  lemma ConstructorRoundTrip(args: ArgumentList, rest: seq<Token>)
    requires WfArgumentList(args, true)
    ensures ParseMemberBody(EmitMemberBody(Constructor(args), rest)) == Some(Parsed(Constructor(args), rest))
  {
    var ts := EmitMemberBody(Constructor(args), rest);
    ConstructorShape(args, rest);
    ArgumentListRoundTrip(args, [Punct(Semicolon)] + rest);
    ConstructorStep(ts, ConstructorStart, args, rest);
    BodyDispatch(ts, ConstructorStart);
  }

  // ---------------------------------------------------------------------------
  // The tokens each alternative prints to

  function StaticTokens(s: StaticMemberBody, rest: seq<Token>): seq<Token> {
    match s
    case StaticAttribute(a) => EmitAttribute(a, rest)
    case StaticOperation(op) => EmitRegularOperation(op, rest)
  }

  lemma ConstShape(c: Const, rest: seq<Token>)
    ensures var ts := EmitMemberBody(ConstMember(c), rest);
      ts == EmitConst(c, rest) && |ts| > 0 && MemberStartOf(ts[0]) == ConstStart
  {
  }

  lemma RegularShape(op: RegularOperation, rest: seq<Token>)
    ensures EmitMemberBody(OperationMember(Regular(op)), rest) == EmitRegularOperation(op, rest)
  {
  }

  lemma SpecialShape(s: Special, op: RegularOperation, rest: seq<Token>)
    ensures var ts := EmitMemberBody(OperationMember(SpecialOperation(s, op)), rest);
      |ts| > 0 && MemberStartOf(ts[0]) == SpecialStart(s) && ts[1..] == EmitRegularOperation(op, rest)
  {
    ConsTail(MemberToken(SpecialKeyword(s)), EmitRegularOperation(op, rest));
  }

  lemma StringifierShape(a: Option<Attribute>, extra: bool, rest: seq<Token>)
    ensures var ts := EmitMemberBody(Stringifier(a, extra), rest);
      |ts| > 0 && MemberStartOf(ts[0]) == StringifierStart &&
      ts[1..] == EmitStringified(a, if extra then [Punct(Semicolon)] + rest else rest)
  {
    ConsTail(MemberToken(KwStringifier), EmitStringified(a, if extra then [Punct(Semicolon)] + rest else rest));
  }

  lemma StaticShape(s: StaticMemberBody, rest: seq<Token>)
    ensures var ts := EmitMemberBody(StaticMember(s), rest);
      |ts| > 0 && MemberStartOf(ts[0]) == StaticStart && ts[1..] == StaticTokens(s, rest)
  {
    ConsTail(MemberToken(KwStatic), StaticTokens(s, rest));
  }

  lemma IterableShape(k: Type, v: Option<Type>, rest: seq<Token>)
    ensures var ts := EmitMemberBody(Iterable(k, v), rest);
      |ts| > 0 && MemberStartOf(ts[0]) == IterableStart &&
      ts[1..] == [Punct(OpenAngle)] + EmitType(k, EmitValueType(v, [Punct(Semicolon)] + rest))
  {
    ConsTail(MemberToken(KwIterable), [Punct(OpenAngle)] + EmitType(k, EmitValueType(v, [Punct(Semicolon)] + rest)));
  }

  lemma AsyncIterableShape(k: Type, v: Option<Type>, args: Option<ArgumentList>, rest: seq<Token>)
    ensures var ts := EmitMemberBody(AsyncIterable(k, v, args), rest);
      |ts| > 0 && MemberStartOf(ts[0]) == AsyncStart &&
      ts[1..] == [MemberToken(KwIterable)] +
        ([Punct(OpenAngle)] + EmitType(k, EmitValueType(v, EmitOptionalArguments(args, [Punct(Semicolon)] + rest))))
  {
    ConsTail(MemberToken(KwAsync), [MemberToken(KwIterable)] +
      ([Punct(OpenAngle)] + EmitType(k, EmitValueType(v, EmitOptionalArguments(args, [Punct(Semicolon)] + rest)))));
  }

  lemma AttributeShape(a: Attribute, rest: seq<Token>)
    ensures EmitMemberBody(AttributeMember(a), rest) == EmitAttribute(a, rest)
  {
  }

  lemma MaplikeShape(readonly: bool, k: Type, v: Type, rest: seq<Token>)
    ensures var ts := EmitMemberBody(Maplike(readonly, k, v), rest);
      var types := [Punct(OpenAngle)] + EmitType(k, EmitValueType(Some(v), [Punct(Semicolon)] + rest));
      if readonly then
        |ts| > 1 && MemberStartOf(ts[0]) == ReadonlyStart && ts[1] == MemberToken(KwMaplike) && ts[2..] == types
      else
        |ts| > 0 && MemberStartOf(ts[0]) == MaplikeStart && ts[1..] == types
  {
    var types := [Punct(OpenAngle)] + EmitType(k, EmitValueType(Some(v), [Punct(Semicolon)] + rest));
    ConsTail(MemberToken(KwMaplike), types);
    DropTwo(MemberToken(KwReadonly), MemberToken(KwMaplike), types);
  }

  lemma SetlikeShape(readonly: bool, v: Type, rest: seq<Token>)
    ensures var ts := EmitMemberBody(Setlike(readonly, v), rest);
      var types := EmitTypeArgument(v, [Punct(Semicolon)] + rest);
      if readonly then
        |ts| > 1 && MemberStartOf(ts[0]) == ReadonlyStart && ts[1] == MemberToken(KwSetlike) && ts[2..] == types
      else
        |ts| > 0 && MemberStartOf(ts[0]) == SetlikeStart && ts[1..] == types
  {
    var types := EmitTypeArgument(v, [Punct(Semicolon)] + rest);
    ConsTail(MemberToken(KwSetlike), types);
    DropTwo(MemberToken(KwReadonly), MemberToken(KwSetlike), types);
  }

  lemma ConstructorShape(args: ArgumentList, rest: seq<Token>)
    ensures var ts := EmitMemberBody(Constructor(args), rest);
      |ts| > 0 && MemberStartOf(ts[0]) == ConstructorStart && ts[1..] == EmitArgumentList(args, [Punct(Semicolon)] + rest)
  {
    ConsTail(MemberToken(KwConstructor), EmitArgumentList(args, [Punct(Semicolon)] + rest));
  }

  lemma DropTwo(x: Token, y: Token, s: seq<Token>)
    ensures |[x] + ([y] + s)| > 1 && ([x] + ([y] + s))[1] == y && ([x] + ([y] + s))[2..] == s
  {
  }

  /** After `async`: `iterable`, the iterated types, the optional arguments
      and `;`. */
  lemma AsyncIterableBodyRoundTrip(k: Type, v: Option<Type>, args: Option<ArgumentList>, rest: seq<Token>)
    requires WfType(k, true) && WfOptionalType(v, true) && (args.Some? ==> WfArgumentList(args.value, true))
    ensures ParseAsyncIterable([MemberToken(KwIterable)] +
        ([Punct(OpenAngle)] + EmitType(k, EmitValueType(v, EmitOptionalArguments(args, [Punct(Semicolon)] + rest)))))
      == Some(Parsed(AsyncIterable(k, v, args), rest))
  {
    var afterTypes := EmitOptionalArguments(args, [Punct(Semicolon)] + rest);
    var types := [Punct(OpenAngle)] + EmitType(k, EmitValueType(v, afterTypes));
    IteratedTypesRoundTrip(k, v, afterTypes);
    OptionalArgumentsRoundTrip(args, [Punct(Semicolon)] + rest);
    ConsTail(MemberToken(KwIterable), types);
    AsyncIterableStep([MemberToken(KwIterable)] + types, k, v, afterTypes, args, rest);
  }

  /** A printed regular operation begins with its return type, so with no
      member keyword. */
  lemma OperationLeads(op: RegularOperation, rest: seq<Token>)
    requires WfRegularOperation(op, true)
    ensures TypeLead(EmitRegularOperation(op, rest)[0])
    ensures MemberStartOf(EmitRegularOperation(op, rest)[0]) == OperationStart
  {
    TypeLeads(op.returnType, EmitOptionalName(op.name, EmitArgumentList(op.arguments, [Punct(Semicolon)] + rest)));
  }

  /** A printed attribute begins with `inherit`, `readonly` or `attribute`. */
  lemma AttributeLeads(a: Attribute, rest: seq<Token>)
    ensures var ts := EmitAttribute(a, rest);
      MemberStartOf(ts[0]) == (if a.readonly && !a.inherit then ReadonlyStart else AttributeStart)
  {
  }

  lemma StringifierRoundTrip(a: Option<Attribute>, extra: bool, rest: seq<Token>)
    requires a.Some? ==> WfAttribute(a.value, true)
    requires !Next(rest, Punct(Semicolon))
    ensures ParseStringifier(EmitStringified(a, if extra then [Punct(Semicolon)] + rest else rest))
      == Some(Parsed(Stringifier(a, extra), rest))
  {
    var tail := if extra then [Punct(Semicolon)] + rest else rest;
    StringifiedRoundTrip(a, tail);
    ConsTail(Punct(Semicolon), rest);
  }

  lemma StaticRoundTrip(s: StaticMemberBody, body: seq<Token>, rest: seq<Token>)
    requires WfMemberBody(StaticMember(s), true) && body == StaticTokens(s, rest)
    ensures ParseStatic(body) == Some(Parsed(StaticMember(s), rest))
  {
    match s
    case StaticAttribute(a) =>
      AttributeRoundTrip(a, rest);
      AttributeLeads(a, rest);
    case StaticOperation(op) =>
      RegularOperationRoundTrip(op, rest);
      OperationLeads(op, rest);
  }

  /** After `readonly`, an attribute's next token is `attribute`. */
  lemma ReadonlyAttributeRoundTrip(a: Attribute, rest: seq<Token>)
    requires WfAttribute(a, true) && a.readonly && !a.inherit
    ensures ParseReadonly(EmitAttribute(a, rest)) == Some(Parsed(AttributeMember(a), rest))
  {
    var body := [MemberToken(KwAttribute)] + EmitAnnotatedType(a.attributeType, [NameToken(a.name)] + ([Punct(Semicolon)] + rest));
    AttributeRoundTrip(a, rest);
    ConsTail(MemberToken(KwReadonly), body);
  }

  lemma MaplikeTypesRoundTrip(readonly: bool, k: Type, v: Type, rest: seq<Token>)
    requires WfType(k, true) && WfType(v, true)
    ensures ParseMaplike(readonly, [Punct(OpenAngle)] + EmitType(k, EmitValueType(Some(v), [Punct(Semicolon)] + rest)))
      == Some(Parsed(Maplike(readonly, k, v), rest))
  {
    IteratedTypesRoundTrip(k, Some(v), [Punct(Semicolon)] + rest);
    ConsTail(Punct(Semicolon), rest);
  }

  lemma SetlikeTypesRoundTrip(readonly: bool, v: Type, rest: seq<Token>)
    requires WfType(v, true)
    ensures ParseSetlike(readonly, EmitTypeArgument(v, [Punct(Semicolon)] + rest)) == Some(Parsed(Setlike(readonly, v), rest))
  {
    TypeArgumentRoundTrip(v, [Punct(Semicolon)] + rest);
    ConsTail(Punct(Semicolon), rest);
  }

  // ---------------------------------------------------------------------------
  // Members and member lists

  /** A printed member body begins with a member keyword or with a type, so
      never with `[`, `;` or `}`. */
  lemma MemberBodyLeads(b: MemberBody, rest: seq<Token>)
    requires WfMemberBody(b, true)
    ensures var t := EmitMemberBody(b, rest)[0];
      (t.KeywordToken? && t.keyword.MemberWord?) || TypeLead(t)
  {
    if b.OperationMember? && b.operation.Regular? {
      OperationLeads(b.operation.regular, rest);
    }
  }

  /** A printed member begins with `[` or with its body, so never with `;`
      or `}`. */
  lemma MemberLeads(m: Member, rest: seq<Token>)
    requires WfMemberBody(m.body, true)
    ensures var t := EmitMember(m, rest)[0];
      t != Punct(Semicolon) && t != Punct(CloseBrace)
  {
    MemberBodyLeads(m.body, rest);
  }

  lemma MemberRoundTrip(m: Member, c: Container, rest: seq<Token>)
    requires WfMember(m, c, true) && !Next(rest, Punct(Semicolon))
    ensures ParseMember(EmitMember(m, rest), c) == Some(Parsed(m, rest))
  {
    var body := EmitMemberBody(m.body, rest);
    MemberBodyLeads(m.body, rest);
    BodyOpens(m.body, c, rest);
    AnnotationsRoundTrip(m.attributes, body);
    MemberBodyRoundTrip(m.body, rest);
  }

  /** A printed body its container allows begins with a token that opens a
      member of that container, so the container's dispatch selects it. */
  lemma BodyOpens(b: MemberBody, c: Container, rest: seq<Token>)
    requires WfMemberBody(b, true) && Allows(c, b)
    ensures Opens(c, MemberStartOf(EmitMemberBody(b, rest)[0]))
  {
    match b
    case OperationMember(Regular(op)) =>
      OperationLeads(op, rest);
      var t := EmitMemberBody(b, rest)[0];
      assert TypeLead(t);
      assert MemberStartOf(t) == OperationStart;
    case AttributeMember(a) => AttributeLeads(a, rest);
    case _ =>
  }

  /** A member list reads back up to the `}` that follows it. */
  lemma {:induction false} MembersRoundTrip(ms: seq<Member>, c: Container, rest: seq<Token>)
    requires WfMembers(ms, c, true) && Next(rest, Punct(CloseBrace))
    ensures ParseMembers(EmitMembers(ms, rest), c) == Some(Parsed(ms, rest))
    decreases |ms|
  {
    if |ms| > 0 {
      var tail := EmitMembers(ms[1..], rest);
      MembersRoundTrip(ms[1..], c, rest);
      MembersFollow(ms[1..], c, rest);
      MemberConsRoundTrip(ms, c, tail, rest);
    }
  }

  /** The first member of a list reads back in front of the others. */
  lemma MemberConsRoundTrip(ms: seq<Member>, c: Container, tail: seq<Token>, rest: seq<Token>)
    requires |ms| > 0 && WfMember(ms[0], c, true) && tail == EmitMembers(ms[1..], rest)
    requires !Next(tail, Punct(Semicolon)) && ParseMembers(tail, c) == Some(Parsed(ms[1..], rest))
    ensures ParseMembers(EmitMembers(ms, rest), c) == Some(Parsed(ms, rest))
  {
    MemberRoundTrip(ms[0], c, tail);
    MemberLeads(ms[0], tail);
    MembersStep(EmitMember(ms[0], tail), c, ms[0], tail, ms[1..], rest);
    assert [ms[0]] + ms[1..] == ms;
  }

  /** What follows a member in a list is never `;`. */
  lemma MembersFollow(ms: seq<Member>, c: Container, rest: seq<Token>)
    requires WfMembers(ms, c, true) && Next(rest, Punct(CloseBrace))
    ensures !Next(EmitMembers(ms, rest), Punct(Semicolon))
  {
    if |ms| > 0 {
      MemberLeads(ms[0], EmitMembers(ms[1..], rest));
    }
  }

  /** One member read, then the rest of the list. */
  lemma MembersStep(ts: seq<Token>, c: Container, m: Member, mid: seq<Token>, more: seq<Member>, rest: seq<Token>)
    requires !Next(ts, Punct(CloseBrace)) && ParseMember(ts, c) == Some(Parsed(m, mid))
    requires ParseMembers(mid, c) == Some(Parsed(more, rest))
    ensures ParseMembers(ts, c) == Some(Parsed([m] + more, rest))
  {
  }

  /** A printed namespace member begins with `const`, an attribute's first
      keyword or a type. */
  lemma NamespaceMemberLeads(m: NamespaceMember, rest: seq<Token>)
    requires WfNamespaceMember(m, true)
    ensures var ts := EmitNamespaceMember(m, rest);
      MemberStartOf(ts[0]) == match m
        case NamespaceConst(_) => ConstStart
        case NamespaceAttribute(a) => if a.readonly && !a.inherit then ReadonlyStart else AttributeStart
        case NamespaceOperation(_) => OperationStart
    ensures EmitNamespaceMember(m, rest)[0] != Punct(CloseBrace)
  {
    match m
    case NamespaceConst(_) =>
    case NamespaceAttribute(a) => AttributeLeads(a, rest);
    case NamespaceOperation(op) => OperationLeads(op, rest);
  }

  lemma NamespaceMemberRoundTrip(m: NamespaceMember, rest: seq<Token>)
    requires WfNamespaceMember(m, true)
    ensures ParseNamespaceMember(EmitNamespaceMember(m, rest)) == Some(Parsed(m, rest))
  {
    NamespaceMemberLeads(m, rest);
    match m
    case NamespaceConst(c) => ConstRoundTrip(c, rest);
    case NamespaceAttribute(a) => AttributeRoundTrip(a, rest);
    case NamespaceOperation(op) => RegularOperationRoundTrip(op, rest);
  }

  lemma {:induction false} NamespaceMembersRoundTrip(ms: seq<NamespaceMember>, rest: seq<Token>)
    requires WfNamespaceMembers(ms, true) && Next(rest, Punct(CloseBrace))
    ensures ParseNamespaceMembers(EmitNamespaceMembers(ms, rest)) == Some(Parsed(ms, rest))
    decreases |ms|
  {
    if |ms| > 0 {
      var tail := EmitNamespaceMembers(ms[1..], rest);
      NamespaceMembersRoundTrip(ms[1..], rest);
      NamespaceMemberRoundTrip(ms[0], tail);
      NamespaceMemberLeads(ms[0], tail);
      assert [ms[0]] + ms[1..] == ms;
    }
  }

  /** A printed dictionary member begins with `[`, `required` or a type. */
  lemma DictionaryMemberLeads(m: DictionaryMember, rest: seq<Token>)
    requires WfDictionaryMember(m, true)
    ensures EmitDictionaryMember(m, rest)[0] != Punct(CloseBrace)
  {
    TypeLeads(m.memberType, [NameToken(m.name)] + EmitDefault(m.defaultValue, [Punct(Semicolon)] + rest));
  }

  lemma DictionaryMemberRoundTrip(m: DictionaryMember, rest: seq<Token>)
    requires WfDictionaryMember(m, true)
    ensures ParseDictionaryMember(EmitDictionaryMember(m, rest)) == Some(Parsed(m, rest))
  {
    var afterName := EmitDefault(m.defaultValue, [Punct(Semicolon)] + rest);
    var named := [NameToken(m.name)] + afterName;
    var typed := EmitType(m.memberType, named);
    var body := if m.required then [MemberToken(KwRequired)] + typed else typed;
    TypeLeads(m.memberType, named);
    AnnotationsRoundTrip(m.attributes, body);
    ConsTail(MemberToken(KwRequired), typed);
    TypeRoundTrip(m.memberType, named);
    ConsTail(NameToken(m.name), afterName);
    DefaultRoundTrip(m.defaultValue, [Punct(Semicolon)] + rest);
    ConsTail(Punct(Semicolon), rest);
  }

  lemma {:induction false} DictionaryMembersRoundTrip(ms: seq<DictionaryMember>, rest: seq<Token>)
    requires WfDictionaryMembers(ms, true) && Next(rest, Punct(CloseBrace))
    ensures ParseDictionaryMembers(EmitDictionaryMembers(ms, rest)) == Some(Parsed(ms, rest))
    decreases |ms|
  {
    if |ms| > 0 {
      var tail := EmitDictionaryMembers(ms[1..], rest);
      DictionaryMembersRoundTrip(ms[1..], rest);
      DictionaryMemberRoundTrip(ms[0], tail);
      DictionaryMemberLeads(ms[0], tail);
      DictionaryMembersStep(EmitDictionaryMember(ms[0], tail), ms[0], tail, ms[1..], rest);
      assert [ms[0]] + ms[1..] == ms;
    }
  }

  lemma DictionaryMembersStep(ts: seq<Token>, m: DictionaryMember, mid: seq<Token>, more: seq<DictionaryMember>, rest: seq<Token>)
    requires !Next(ts, Punct(CloseBrace)) && ParseDictionaryMember(ts) == Some(Parsed(m, mid))
    requires ParseDictionaryMembers(mid) == Some(Parsed(more, rest))
    ensures ParseDictionaryMembers(ts) == Some(Parsed([m] + more, rest))
  {
  }
}
