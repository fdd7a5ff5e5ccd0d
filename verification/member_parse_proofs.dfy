/** The other direction of the member grammar: whatever the parser reads
    prints back to exactly the tokens it was read from, and is well formed
    (with any names) and allowed in its container. */
module MemberParseProofs {
  import opened Wrappers
  import opened Tokens
  import opened Syntax
  import opened TypeGrammar
  import opened ValueGrammar
  import opened ArgumentGrammar
  import opened ExtendedAttributeGrammar
  import opened MemberGrammar

  // ---------------------------------------------------------------------------
  // Which keyword selects which alternative

  /** The keyword that alone selects an alternative; an attribute may begin
      with `inherit` or `attribute`, an operation with any type. */
  function StartKeyword(start: MemberStart): Option<MemberKeyword> {
    match start
    case ConstStart => Some(KwConst)
    case SpecialStart(s) => Some(SpecialKeyword(s))
    case StringifierStart => Some(KwStringifier)
    case StaticStart => Some(KwStatic)
    case IterableStart => Some(KwIterable)
    case AsyncStart => Some(KwAsync)
    case ReadonlyStart => Some(KwReadonly)
    case MaplikeStart => Some(KwMaplike)
    case SetlikeStart => Some(KwSetlike)
    case ConstructorStart => Some(KwConstructor)
    case AttributeStart => None
    case OperationStart => None
  }

  /** A member body's first token selects its alternative, and each keyword
      that selects an alternative is the only token that selects it. */
  lemma StartKeywordSelects(t: Token)
    ensures StartKeyword(MemberStartOf(t)).Some? ==> t == MemberToken(StartKeyword(MemberStartOf(t)).value)
    ensures MemberStartOf(t) == AttributeStart ==> t == MemberToken(KwInherit) || t == MemberToken(KwAttribute)
  {
  }

  lemma StartKeywordSelected(start: MemberStart)
    requires StartKeyword(start).Some?
    ensures MemberStartOf(MemberToken(StartKeyword(start).value)) == start
  {
  }

  // ---------------------------------------------------------------------------
  // Parts of members

  lemma ConstPrintsBack(ts: seq<Token>)
    requires ParseConst(ts).Some?
    ensures var r := ParseConst(ts).value;
      EmitConst(r.value, r.rest) == ts && WfConst(r.value, false)
  {
    var afterConst := ts[1..];
    var t := ParseConstType(afterConst).value;
    var n := ParseName(t.rest).value;
    var v := ParseConstValue(n.rest[1..]).value;
    Uncons(ts);
    ConstTypePrintsBack(afterConst);
    ParsedConstTypeWf(afterConst);
    Uncons(t.rest);
    Uncons(n.rest);
    ConstValuePrintsBack(n.rest[1..]);
    Uncons(v.rest);
  }

  lemma AttributePrintsBack(ts: seq<Token>)
    requires ParseAttribute(ts).Some?
    ensures var r := ParseAttribute(ts).value;
      EmitAttribute(r.value, r.rest) == ts && WfAttribute(r.value, false)
  {
    var inherit := Next(ts, MemberToken(KwInherit));
    var afterInherit := if inherit then ts[1..] else ts;
    var readonly := Next(afterInherit, MemberToken(KwReadonly));
    var afterReadonly := if readonly then afterInherit[1..] else afterInherit;
    AttributeRestPrintsBack(inherit, readonly, afterReadonly);
    if inherit {
      Uncons(ts);
    }
    if readonly {
      Uncons(afterInherit);
    }
  }

  /** What follows the modifiers prints back after them. */
  lemma AttributeRestPrintsBack(inherit: bool, readonly: bool, ts: seq<Token>)
    requires ParseAttributeRest(inherit, readonly, ts).Some?
    ensures var r := ParseAttributeRest(inherit, readonly, ts).value;
      r.value.inherit == inherit && r.value.readonly == readonly && WfAttribute(r.value, false) &&
      [MemberToken(KwAttribute)] + EmitAnnotatedType(r.value.attributeType, [NameToken(r.value.name)] + ([Punct(Semicolon)] + r.rest)) == ts
  {
    var afterKeyword := ts[1..];
    var t := ParseAnnotatedType(afterKeyword).value;
    var n := ParseName(t.rest).value;
    Uncons(ts);
    AnnotatedTypePrintsBack(afterKeyword);
    ParsedAnnotatedTypeWf(afterKeyword);
    Uncons(t.rest);
    Uncons(n.rest);
  }

  lemma OptionalNamePrintsBack(ts: seq<Token>)
    requires ParseOptionalName(ts).Some?
    ensures EmitOptionalName(ParseOptionalName(ts).value.value, ParseOptionalName(ts).value.rest) == ts
  {
    if !Next(ts, Punct(OpenParen)) {
      Uncons(ts);
    }
  }

  lemma RegularOperationPrintsBack(ts: seq<Token>)
    requires ParseRegularOperation(ts).Some?
    ensures var r := ParseRegularOperation(ts).value;
      EmitRegularOperation(r.value, r.rest) == ts && WfRegularOperation(r.value, false)
  {
    var t := ParseType(ts).value;
    var n := ParseOptionalName(t.rest).value;
    var args := ParseArgumentList(n.rest).value;
    TypePrintsBack(ts);
    ParsedTypeWf(ts);
    OptionalNamePrintsBack(t.rest);
    ArgumentListPrintsBack(n.rest);
    ParsedArgumentListWf(n.rest);
    Uncons(args.rest);
  }

  lemma ValueTypePrintsBack(ts: seq<Token>)
    requires ParseValueType(ts).Some?
    ensures var r := ParseValueType(ts).value;
      EmitValueType(r.value, r.rest) == ts && WfOptionalType(r.value, false)
  {
    Uncons(ts);
    if Next(ts, Punct(Comma)) {
      var v := ParseType(ts[1..]).value;
      TypePrintsBack(ts[1..]);
      ParsedTypeWf(ts[1..]);
      Uncons(v.rest);
    }
  }

  lemma IteratedTypesPrintsBack(ts: seq<Token>)
    requires ParseIteratedTypes(ts).Some?
    ensures var r := ParseIteratedTypes(ts).value;
      [Punct(OpenAngle)] + EmitType(r.value.0, EmitValueType(r.value.1, r.rest)) == ts
    ensures var r := ParseIteratedTypes(ts).value;
      WfType(r.value.0, false) && WfOptionalType(r.value.1, false)
  {
    var k := ParseType(ts[1..]).value;
    Uncons(ts);
    TypePrintsBack(ts[1..]);
    ParsedTypeWf(ts[1..]);
    ValueTypePrintsBack(k.rest);
  }

  lemma OptionalArgumentsPrintsBack(ts: seq<Token>)
    requires ParseOptionalArguments(ts).Some?
    ensures var r := ParseOptionalArguments(ts).value;
      EmitOptionalArguments(r.value, r.rest) == ts && (r.value.Some? ==> WfArgumentList(r.value.value, false))
  {
    if Next(ts, Punct(OpenParen)) {
      ArgumentListPrintsBack(ts);
      ParsedArgumentListWf(ts);
    }
  }

  lemma StringifiedPrintsBack(ts: seq<Token>)
    requires ParseStringified(ts).Some?
    ensures var r := ParseStringified(ts).value;
      EmitStringified(r.value, r.rest) == ts && (r.value.Some? ==> WfAttribute(r.value.value, false))
  {
    if Next(ts, Punct(Semicolon)) {
      Uncons(ts);
    } else {
      AttributePrintsBack(ts);
    }
  }

  // ---------------------------------------------------------------------------
  // Each alternative, after its selecting keyword

  lemma ConstMemberPrintsBack(ts: seq<Token>)
    requires ParseConstMember(ts).Some?
    ensures var r := ParseConstMember(ts).value;
      EmitMemberBody(r.value, r.rest) == ts && WfMemberBody(r.value, false)
  {
    ConstPrintsBack(ts);
  }

  lemma SpecialPrintsBack(s: Special, body: seq<Token>)
    requires ParseSpecial(s, body).Some?
    ensures var r := ParseSpecial(s, body).value;
      EmitMemberBody(r.value, r.rest) == [MemberToken(SpecialKeyword(s))] + body && WfMemberBody(r.value, false)
  {
    RegularOperationPrintsBack(body);
  }

  lemma StringifierPrintsBack(body: seq<Token>)
    requires ParseStringifier(body).Some?
    ensures var r := ParseStringifier(body).value;
      EmitMemberBody(r.value, r.rest) == [MemberToken(KwStringifier)] + body && WfMemberBody(r.value, false)
  {
    var a := ParseStringified(body).value;
    StringifiedPrintsBack(body);
    if Next(a.rest, Punct(Semicolon)) {
      Uncons(a.rest);
    }
  }

  lemma StaticPrintsBack(body: seq<Token>)
    requires ParseStatic(body).Some?
    ensures var r := ParseStatic(body).value;
      EmitMemberBody(r.value, r.rest) == [MemberToken(KwStatic)] + body && WfMemberBody(r.value, false)
  {
    if |body| > 0 && (MemberStartOf(body[0]).AttributeStart? || MemberStartOf(body[0]).ReadonlyStart?) {
      AttributePrintsBack(body);
    } else {
      RegularOperationPrintsBack(body);
    }
  }

  lemma IterablePrintsBack(body: seq<Token>)
    requires ParseIterable(body).Some?
    ensures var r := ParseIterable(body).value;
      EmitMemberBody(r.value, r.rest) == [MemberToken(KwIterable)] + body && WfMemberBody(r.value, false)
  {
    var types := ParseIteratedTypes(body).value;
    IteratedTypesPrintsBack(body);
    Uncons(types.rest);
  }

  lemma AsyncIterablePrintsBack(body: seq<Token>)
    requires ParseAsyncIterable(body).Some?
    ensures var r := ParseAsyncIterable(body).value;
      EmitMemberBody(r.value, r.rest) == [MemberToken(KwAsync)] + body && WfMemberBody(r.value, false)
  {
    var types := ParseIteratedTypes(body[1..]).value;
    var args := ParseOptionalArguments(types.rest).value;
    Uncons(body);
    IteratedTypesPrintsBack(body[1..]);
    OptionalArgumentsPrintsBack(types.rest);
    Uncons(args.rest);
  }

  lemma AttributeMemberPrintsBack(ts: seq<Token>)
    requires ParseAttributeMember(ts).Some?
    ensures var r := ParseAttributeMember(ts).value;
      EmitMemberBody(r.value, r.rest) == ts && WfMemberBody(r.value, false)
  {
    AttributePrintsBack(ts);
  }

  lemma MaplikePrintsBack(readonly: bool, body: seq<Token>)
    requires ParseMaplike(readonly, body).Some?
    ensures var r := ParseMaplike(readonly, body).value;
      var keyword := [MemberToken(KwMaplike)] + body;
      EmitMemberBody(r.value, r.rest) == (if readonly then [MemberToken(KwReadonly)] + keyword else keyword)
    ensures WfMemberBody(ParseMaplike(readonly, body).value.value, false)
  {
    var types := ParseIteratedTypes(body).value;
    IteratedTypesPrintsBack(body);
    Uncons(types.rest);
  }

  lemma SetlikePrintsBack(readonly: bool, body: seq<Token>)
    requires ParseSetlike(readonly, body).Some?
    ensures var r := ParseSetlike(readonly, body).value;
      var keyword := [MemberToken(KwSetlike)] + body;
      EmitMemberBody(r.value, r.rest) == (if readonly then [MemberToken(KwReadonly)] + keyword else keyword)
    ensures WfMemberBody(ParseSetlike(readonly, body).value.value, false)
  {
    var v := ParseTypeArgument(body).value;
    TypeArgumentPrintsBack(body);
    ParsedTypeArgumentWf(body);
    Uncons(v.rest);
  }

  /** After `readonly`: a read-only maplike or setlike, or an attribute. */
  lemma ReadonlyPrintsBack(ts: seq<Token>)
    requires |ts| > 0 && ts[0] == MemberToken(KwReadonly) && ParseReadonly(ts).Some?
    ensures var r := ParseReadonly(ts).value;
      EmitMemberBody(r.value, r.rest) == ts && WfMemberBody(r.value, false)
  {
    if Next(ts[1..], MemberToken(KwMaplike)) {
      MaplikePrintsBack(true, ts[2..]);
      SplitTwo(ts);
    } else if Next(ts[1..], MemberToken(KwSetlike)) {
      SplitTwo(ts);
      SetlikePrintsBack(true, ts[2..]);
    } else {
      AttributeMemberPrintsBack(ts);
    }
  }

  lemma SplitTwo(ts: seq<Token>)
    requires |ts| > 1
    ensures ts == [ts[0]] + ([ts[1]] + ts[2..]) && ts[1..][0] == ts[1]
  {
  }

  lemma ConstructorPrintsBack(body: seq<Token>)
    requires ParseConstructor(body).Some?
    ensures var r := ParseConstructor(body).value;
      EmitMemberBody(r.value, r.rest) == [MemberToken(KwConstructor)] + body && WfMemberBody(r.value, false)
  {
    var args := ParseArgumentList(body).value;
    ArgumentListPrintsBack(body);
    ParsedArgumentListWf(body);
    Uncons(args.rest);
  }

  lemma OperationMemberPrintsBack(ts: seq<Token>)
    requires ParseOperationMember(ts).Some?
    ensures var r := ParseOperationMember(ts).value;
      EmitMemberBody(r.value, r.rest) == ts && WfMemberBody(r.value, false)
  {
    RegularOperationPrintsBack(ts);
  }

  // ---------------------------------------------------------------------------
  // Member bodies: one lemma per selected alternative

  /** A parsed member body prints back to the tokens it was read from. */
  lemma MemberBodyPrintsBack(ts: seq<Token>)
    requires ParseMemberBody(ts).Some?
    ensures var r := ParseMemberBody(ts).value;
      EmitMemberBody(r.value, r.rest) == ts && WfMemberBody(r.value, false)
  {
    MemberAfterPrintsBack(ts, MemberStartOf(ts[0]));
  }

  lemma MemberAfterPrintsBack(ts: seq<Token>, start: MemberStart)
    requires |ts| > 0 && MemberStartOf(ts[0]) == start && ParseMemberAfter(start, ts).Some?
    ensures var r := ParseMemberAfter(start, ts).value;
      EmitMemberBody(r.value, r.rest) == ts && WfMemberBody(r.value, false)
  {
    match start
    case ConstStart => ConstAfterPrintsBack(ts, start);
    case SpecialStart(_) => SpecialAfterPrintsBack(ts, start);
    case StringifierStart => StringifierAfterPrintsBack(ts, start);
    case StaticStart => StaticAfterPrintsBack(ts, start);
    case IterableStart => IterableAfterPrintsBack(ts, start);
    case AsyncStart => AsyncAfterPrintsBack(ts, start);
    case AttributeStart => AttributeAfterPrintsBack(ts, start);
    case ReadonlyStart => ReadonlyAfterPrintsBack(ts, start);
    case MaplikeStart => MaplikeAfterPrintsBack(ts, start);
    case SetlikeStart => SetlikeAfterPrintsBack(ts, start);
    case ConstructorStart => ConstructorAfterPrintsBack(ts, start);
    case OperationStart => OperationAfterPrintsBack(ts, start);
  }

  lemma ConstAfterPrintsBack(ts: seq<Token>, start: MemberStart)
    requires |ts| > 0 && MemberStartOf(ts[0]) == start && start == ConstStart && ParseMemberAfter(start, ts).Some?
    ensures var r := ParseMemberAfter(start, ts).value;
      EmitMemberBody(r.value, r.rest) == ts && WfMemberBody(r.value, false)
  {
    ConstMemberPrintsBack(ts);
  }

  lemma SpecialAfterPrintsBack(ts: seq<Token>, start: MemberStart)
    requires |ts| > 0 && MemberStartOf(ts[0]) == start && start.SpecialStart? && ParseMemberAfter(start, ts).Some?
    ensures var r := ParseMemberAfter(start, ts).value;
      EmitMemberBody(r.value, r.rest) == ts && WfMemberBody(r.value, false)
  {
    SpecialPrintsBack(start.special, ts[1..]);
    StartKeywordSelects(ts[0]);
    Uncons(ts);
  }

  lemma StringifierAfterPrintsBack(ts: seq<Token>, start: MemberStart)
    requires |ts| > 0 && MemberStartOf(ts[0]) == start && start == StringifierStart && ParseMemberAfter(start, ts).Some?
    ensures var r := ParseMemberAfter(start, ts).value;
      EmitMemberBody(r.value, r.rest) == ts && WfMemberBody(r.value, false)
  {
    StringifierPrintsBack(ts[1..]);
    StartKeywordSelects(ts[0]);
    Uncons(ts);
  }

  lemma StaticAfterPrintsBack(ts: seq<Token>, start: MemberStart)
    requires |ts| > 0 && MemberStartOf(ts[0]) == start && start == StaticStart && ParseMemberAfter(start, ts).Some?
    ensures var r := ParseMemberAfter(start, ts).value;
      EmitMemberBody(r.value, r.rest) == ts && WfMemberBody(r.value, false)
  {
    StaticPrintsBack(ts[1..]);
    StartKeywordSelects(ts[0]);
    Uncons(ts);
  }

  lemma IterableAfterPrintsBack(ts: seq<Token>, start: MemberStart)
    requires |ts| > 0 && MemberStartOf(ts[0]) == start && start == IterableStart && ParseMemberAfter(start, ts).Some?
    ensures var r := ParseMemberAfter(start, ts).value;
      EmitMemberBody(r.value, r.rest) == ts && WfMemberBody(r.value, false)
  {
    IterablePrintsBack(ts[1..]);
    StartKeywordSelects(ts[0]);
    Uncons(ts);
  }

  lemma AsyncAfterPrintsBack(ts: seq<Token>, start: MemberStart)
    requires |ts| > 0 && MemberStartOf(ts[0]) == start && start == AsyncStart && ParseMemberAfter(start, ts).Some?
    ensures var r := ParseMemberAfter(start, ts).value;
      EmitMemberBody(r.value, r.rest) == ts && WfMemberBody(r.value, false)
  {
    AsyncIterablePrintsBack(ts[1..]);
    StartKeywordSelects(ts[0]);
    Uncons(ts);
  }

  lemma AttributeAfterPrintsBack(ts: seq<Token>, start: MemberStart)
    requires |ts| > 0 && MemberStartOf(ts[0]) == start && start == AttributeStart && ParseMemberAfter(start, ts).Some?
    ensures var r := ParseMemberAfter(start, ts).value;
      EmitMemberBody(r.value, r.rest) == ts && WfMemberBody(r.value, false)
  {
    AttributeMemberPrintsBack(ts);
  }

  lemma ReadonlyAfterPrintsBack(ts: seq<Token>, start: MemberStart)
    requires |ts| > 0 && MemberStartOf(ts[0]) == start && start == ReadonlyStart && ParseMemberAfter(start, ts).Some?
    ensures var r := ParseMemberAfter(start, ts).value;
      EmitMemberBody(r.value, r.rest) == ts && WfMemberBody(r.value, false)
  {
    StartKeywordSelects(ts[0]);
    ReadonlyDispatch(ts, start);
    ReadonlyPrintsBack(ts);
  }

  lemma ReadonlyDispatch(ts: seq<Token>, start: MemberStart)
    requires |ts| > 0 && start == ReadonlyStart
    ensures ParseMemberAfter(start, ts) == ParseReadonly(ts)
  {
  }

  lemma MaplikeAfterPrintsBack(ts: seq<Token>, start: MemberStart)
    requires |ts| > 0 && MemberStartOf(ts[0]) == start && start == MaplikeStart && ParseMemberAfter(start, ts).Some?
    ensures var r := ParseMemberAfter(start, ts).value;
      EmitMemberBody(r.value, r.rest) == ts && WfMemberBody(r.value, false)
  {
    MaplikePrintsBack(false, ts[1..]);
    StartKeywordSelects(ts[0]);
    Uncons(ts);
  }

  lemma SetlikeAfterPrintsBack(ts: seq<Token>, start: MemberStart)
    requires |ts| > 0 && MemberStartOf(ts[0]) == start && start == SetlikeStart && ParseMemberAfter(start, ts).Some?
    ensures var r := ParseMemberAfter(start, ts).value;
      EmitMemberBody(r.value, r.rest) == ts && WfMemberBody(r.value, false)
  {
    SetlikePrintsBack(false, ts[1..]);
    StartKeywordSelects(ts[0]);
    Uncons(ts);
  }

  lemma ConstructorAfterPrintsBack(ts: seq<Token>, start: MemberStart)
    requires |ts| > 0 && MemberStartOf(ts[0]) == start && start == ConstructorStart && ParseMemberAfter(start, ts).Some?
    ensures var r := ParseMemberAfter(start, ts).value;
      EmitMemberBody(r.value, r.rest) == ts && WfMemberBody(r.value, false)
  {
    ConstructorPrintsBack(ts[1..]);
    StartKeywordSelects(ts[0]);
    Uncons(ts);
  }

  lemma OperationAfterPrintsBack(ts: seq<Token>, start: MemberStart)
    requires |ts| > 0 && MemberStartOf(ts[0]) == start && start == OperationStart && ParseMemberAfter(start, ts).Some?
    ensures var r := ParseMemberAfter(start, ts).value;
      EmitMemberBody(r.value, r.rest) == ts && WfMemberBody(r.value, false)
  {
    OperationMemberPrintsBack(ts);
  }

  // ---------------------------------------------------------------------------
  // Members and member lists

  /** A parsed member prints back, is well formed and is allowed in the
      container it was read in. */
  lemma MemberPrintsBack(ts: seq<Token>, c: Container)
    requires ParseMember(ts, c).Some?
    ensures var r := ParseMember(ts, c).value;
      EmitMember(r.value, r.rest) == ts && WfMember(r.value, c, false)
  {
    var a := ParseAnnotations(ts).value;
    AnnotationsPrintsBack(ts);
    ParsedAnnotationsWf(ts);
    MemberBodyInPrintsBack(c, a.rest);
  }

  /** A body read in container `c` prints back and is one `c` allows. */
  lemma MemberBodyInPrintsBack(c: Container, ts: seq<Token>)
    requires ParseMemberBodyIn(c, ts).Some?
    ensures var r := ParseMemberBodyIn(c, ts).value;
      && EmitMemberBody(r.value, r.rest) == ts
      && WfMemberBody(r.value, false)
      && Allows(c, r.value)
  {
    if |ts| > 0 && !Opens(c, MemberStartOf(ts[0])) {
      OperationMemberPrintsBack(ts);
    } else {
      MemberBodyPrintsBack(ts);
      StartSelectsKind(ts, MemberStartOf(ts[0]));
    }
  }

  /** Only `iterable`, `async` and `constructor` select the member kinds some
      container lacks. */
  lemma StartSelectsKind(ts: seq<Token>, start: MemberStart)
    requires |ts| > 0 && ParseMemberAfter(start, ts).Some?
    ensures var b := ParseMemberAfter(start, ts).value.value;
      && (b.Iterable? ==> start.IterableStart?)
      && (b.AsyncIterable? ==> start.AsyncStart?)
      && (b.Constructor? ==> start.ConstructorStart?)
  {
  }

  lemma {:induction false} MembersPrintsBack(ts: seq<Token>, c: Container)
    requires ParseMembers(ts, c).Some?
    ensures var r := ParseMembers(ts, c).value;
      EmitMembers(r.value, r.rest) == ts && WfMembers(r.value, c, false)
    decreases |ts|
  {
    if !Next(ts, Punct(CloseBrace)) {
      var m := ParseMember(ts, c).value;
      var more := ParseMembers(m.rest, c).value;
      MemberPrintsBack(ts, c);
      MembersPrintsBack(m.rest, c);
      MembersCons(m.value, more.value, more.rest, c);
    }
  }

  lemma MembersCons(m: Member, ms: seq<Member>, rest: seq<Token>, c: Container)
    requires WfMember(m, c, false) && WfMembers(ms, c, false)
    ensures EmitMembers([m] + ms, rest) == EmitMember(m, EmitMembers(ms, rest))
    ensures WfMembers([m] + ms, c, false)
  {
    assert ([m] + ms)[1..] == ms;
    assert forall i :: 1 <= i < |[m] + ms| ==> ([m] + ms)[i] == ms[i - 1];
  }

  lemma NamespaceMemberPrintsBack(ts: seq<Token>)
    requires ParseNamespaceMember(ts).Some?
    ensures var r := ParseNamespaceMember(ts).value;
      EmitNamespaceMember(r.value, r.rest) == ts && WfNamespaceMember(r.value, false)
  {
    if |ts| > 0 && MemberStartOf(ts[0]).ConstStart? {
      ConstPrintsBack(ts);
    } else if |ts| > 0 && (MemberStartOf(ts[0]).AttributeStart? || MemberStartOf(ts[0]).ReadonlyStart?) {
      AttributePrintsBack(ts);
    } else {
      RegularOperationPrintsBack(ts);
    }
  }

  lemma {:induction false} NamespaceMembersPrintsBack(ts: seq<Token>)
    requires ParseNamespaceMembers(ts).Some?
    ensures var r := ParseNamespaceMembers(ts).value;
      EmitNamespaceMembers(r.value, r.rest) == ts && WfNamespaceMembers(r.value, false)
    decreases |ts|
  {
    if !Next(ts, Punct(CloseBrace)) {
      var m := ParseNamespaceMember(ts).value;
      var more := ParseNamespaceMembers(m.rest).value;
      NamespaceMemberPrintsBack(ts);
      NamespaceMembersPrintsBack(m.rest);
      var ms := [m.value] + more.value;
      assert ms[1..] == more.value;
      assert forall i :: 1 <= i < |ms| ==> ms[i] == more.value[i - 1];
    }
  }

  lemma DictionaryMemberPrintsBack(ts: seq<Token>)
    requires ParseDictionaryMember(ts).Some?
    ensures var r := ParseDictionaryMember(ts).value;
      EmitDictionaryMember(r.value, r.rest) == ts && WfDictionaryMember(r.value, false)
  {
    var a := ParseAnnotations(ts).value;
    var required := Next(a.rest, MemberToken(KwRequired));
    var afterRequired := if required then a.rest[1..] else a.rest;
    var t := ParseType(afterRequired).value;
    var n := ParseName(t.rest).value;
    var d := ParseDefault(n.rest).value;
    AnnotationsPrintsBack(ts);
    ParsedAnnotationsWf(ts);
    if required {
      Uncons(a.rest);
    }
    TypePrintsBack(afterRequired);
    ParsedTypeWf(afterRequired);
    Uncons(t.rest);
    DefaultPrintsBack(n.rest);
    Uncons(d.rest);
  }

  lemma {:induction false} DictionaryMembersPrintsBack(ts: seq<Token>)
    requires ParseDictionaryMembers(ts).Some?
    ensures var r := ParseDictionaryMembers(ts).value;
      EmitDictionaryMembers(r.value, r.rest) == ts && WfDictionaryMembers(r.value, false)
    decreases |ts|
  {
    if !Next(ts, Punct(CloseBrace)) {
      var m := ParseDictionaryMember(ts).value;
      var more := ParseDictionaryMembers(m.rest).value;
      DictionaryMemberPrintsBack(ts);
      DictionaryMembersPrintsBack(m.rest);
      var ms := [m.value] + more.value;
      assert ms[1..] == more.value;
      assert forall i :: 1 <= i < |ms| ==> ms[i] == more.value[i - 1];
    }
  }

  // ---------------------------------------------------------------------------
  // Modifier order

  /** `inherit` and `readonly` may both qualify an attribute, but only in
      that order: `readonly inherit` begins no member. */
  lemma ReadonlyInheritRejected(ts: seq<Token>)
    ensures ParseAttribute([MemberToken(KwReadonly)] + ([MemberToken(KwInherit)] + ts)) == None
    ensures ParseMemberBody([MemberToken(KwReadonly)] + ([MemberToken(KwInherit)] + ts)) == None
  {
    ConsTail(MemberToken(KwReadonly), [MemberToken(KwInherit)] + ts);
    ConsTail(MemberToken(KwInherit), ts);
  }

  /** `constructor ( ) ;` is a constructor in an interface; in a mixin or a
      partial interface `constructor` opens no member, so the same tokens are
      an operation with no name whose return type is named `constructor`. */
  lemma ConstructorWordByContainer(rest: seq<Token>)
    ensures var ts := [MemberToken(KwConstructor)] + ([Punct(OpenParen)] + ([Punct(CloseParen)] + ([Punct(Semicolon)] + rest)));
      var op := RegularOperation(Single(Named(KeywordName(MemberWord(KwConstructor)))), None, [None]);
      && ParseMember(ts, InterfaceBody) == Some(Parsed(Member(None, Constructor([None])), rest))
      && ParseMember(ts, MixinBody) == Some(Parsed(Member(None, OperationMember(Regular(op))), rest))
      && ParseMember(ts, PartialInterfaceBody) == Some(Parsed(Member(None, OperationMember(Regular(op))), rest))
  {
    var ts := [MemberToken(KwConstructor)] + ([Punct(OpenParen)] + ([Punct(CloseParen)] + ([Punct(Semicolon)] + rest)));
    var afterWord := [Punct(OpenParen)] + ([Punct(CloseParen)] + ([Punct(Semicolon)] + rest));
    ConsTail(MemberToken(KwConstructor), afterWord);
    EmptyParensIsOneEmptySlot([Punct(Semicolon)] + rest);
    ConsTail(Punct(Semicolon), rest);
    ConstructorWordOperation(ts, afterWord, rest);
    ConstructorWordMember(ts, InterfaceBody, Member(None, Constructor([None])), rest);
    ConstructorWordMember(ts, MixinBody, Member(None, OperationMember(Regular(ParseRegularOperation(ts).value.value))), rest);
    ConstructorWordMember(ts, PartialInterfaceBody, Member(None, OperationMember(Regular(ParseRegularOperation(ts).value.value))), rest);
  }

  lemma ConstructorWordOperation(ts: seq<Token>, afterWord: seq<Token>, rest: seq<Token>)
    requires |ts| > 0 && ts[0] == MemberToken(KwConstructor) && ts[1..] == afterWord
    requires Next(afterWord, Punct(OpenParen))
    requires ParseArgumentList(afterWord) == Some(Parsed([None], [Punct(Semicolon)] + rest))
    ensures ParseRegularOperation(ts)
      == Some(Parsed(RegularOperation(Single(Named(KeywordName(MemberWord(KwConstructor)))), None, [None]), rest))
  {
    var base := Named(KeywordName(MemberWord(KwConstructor)));
    assert ParseNonNullableType(ts) == Some(Parsed(base, afterWord));
    assert CountMarks(afterWord) == 0;
    assert afterWord[0..] == afterWord;
    assert ParseType(ts) == Some(Parsed(Single(base), afterWord));
    assert ParseOptionalName(afterWord) == Some(Parsed(None, afterWord));
    ConsTail(Punct(Semicolon), rest);
  }

  lemma ConstructorWordMember(ts: seq<Token>, c: Container, m: Member, rest: seq<Token>)
    requires |ts| > 0 && ts[0] == MemberToken(KwConstructor)
    requires m.attributes.None?
    requires c.InterfaceBody? ==> ParseConstructor(ts[1..]) == Some(Parsed(m.body, rest))
    requires !c.InterfaceBody? ==>
      (m.body.OperationMember? && m.body.operation.Regular?
       && ParseRegularOperation(ts) == Some(Parsed(m.body.operation.regular, rest)))
    ensures ParseMember(ts, c) == Some(Parsed(m, rest))
  {
    assert ParseAnnotations(ts) == Some(Parsed(None, ts));
    if c.InterfaceBody? {
      ConstructorWordOpens(ts, m.body, rest);
    } else {
      ConstructorWordCloses(ts, c, m.body.operation.regular, rest);
    }
  }

  /** In an interface, `constructor` selects the constructor. */
  lemma ConstructorWordOpens(ts: seq<Token>, b: MemberBody, rest: seq<Token>)
    requires |ts| > 0 && ts[0] == MemberToken(KwConstructor)
    requires ParseConstructor(ts[1..]) == Some(Parsed(b, rest))
    ensures ParseMemberBodyIn(InterfaceBody, ts) == Some(Parsed(b, rest))
  {
    ConstructorWordStart();
    ConstructorDispatch(ts, ConstructorStart);
  }

  /** Elsewhere `constructor` begins the return type of an operation. */
  lemma ConstructorWordCloses(ts: seq<Token>, c: Container, op: RegularOperation, rest: seq<Token>)
    requires |ts| > 0 && ts[0] == MemberToken(KwConstructor) && !c.InterfaceBody?
    requires ParseRegularOperation(ts) == Some(Parsed(op, rest))
    ensures ParseMemberBodyIn(c, ts) == Some(Parsed(OperationMember(Regular(op)), rest))
  {
    ConstructorWordStart();
  }

  lemma ConstructorWordStart()
    ensures MemberStartOf(MemberToken(KwConstructor)) == ConstructorStart
  {
  }

  lemma ConstructorDispatch(ts: seq<Token>, start: MemberStart)
    requires |ts| > 0 && start == ConstructorStart
    ensures ParseMemberAfter(start, ts) == ParseConstructor(ts[1..])
  {
  }

  /** A stringifier may be followed by one more `;`, which it takes. */
  lemma StringifierTakesExtraSemicolon(rest: seq<Token>)
    ensures ParseMemberBody([MemberToken(KwStringifier)] + ([Punct(Semicolon)] + ([Punct(Semicolon)] + rest)))
      == Some(Parsed(Stringifier(None, true), rest))
  {
    ConsTail(MemberToken(KwStringifier), [Punct(Semicolon)] + ([Punct(Semicolon)] + rest));
    ConsTail(Punct(Semicolon), [Punct(Semicolon)] + rest);
    ConsTail(Punct(Semicolon), rest);
  }
}
