/** Tokens after a phrase do not change how the phrase is read. Every parser
    decides from the tokens it consumes and at most the one token after them,
    so a result that leaves a token unread stays the same, with the appended
    tokens after its rest, when more tokens are appended; a parser whose
    phrase ends in a fixed token (`;`, `>`, `)`) needs no token after it. */
module TrailingTokens {
  import opened Wrappers
  import opened Tokens
  import opened Syntax
  import opened TypeGrammar
  import opened ValueGrammar
  import opened ArgumentGrammar
  import opened ExtendedAttributeGrammar
  import opened MemberGrammar

  /** A result that succeeded and left at least one token unread. */
  predicate Unfinished<T>(r: Option<Parsed<T>>) {
    r.Some? && |r.value.rest| > 0
  }

  /** `after` is `before` with `tail` appended to its rest. */
  predicate Extends<T(==)>(before: Option<Parsed<T>>, after: Option<Parsed<T>>, tail: seq<Token>) {
    before.Some? && after == Some(Parsed(before.value.value, before.value.rest + tail))
  }

  // ---------------------------------------------------------------------------
  // Tokens

  lemma AppendTail(ts: seq<Token>, tail: seq<Token>)
    requires |ts| > 0
    ensures (ts + tail)[0] == ts[0] && (ts + tail)[1..] == ts[1..] + tail
  {
  }

  lemma AppendDrop(ts: seq<Token>, tail: seq<Token>, k: nat)
    requires k <= |ts|
    ensures (ts + tail)[k..] == ts[k..] + tail
  {
  }

  lemma ExpectAppend(ts: seq<Token>, t: Token, tail: seq<Token>)
    requires Expect(ts, t).Some?
    ensures Expect(ts + tail, t) == Some(Expect(ts, t).value + tail)
  {
    AppendTail(ts, tail);
  }

  lemma NameAppend(ts: seq<Token>, tail: seq<Token>)
    requires ParseName(ts).Some?
    ensures Extends(ParseName(ts), ParseName(ts + tail), tail)
  {
    AppendTail(ts, tail);
  }

  // ---------------------------------------------------------------------------
  // Types

  lemma IntegerBaseAppend(ts: seq<Token>, tail: seq<Token>)
    requires Unfinished(ParseIntegerBase(ts))
    ensures Extends(ParseIntegerBase(ts), ParseIntegerBase(ts + tail), tail)
  {
    AppendTail(ts, tail);
    AppendTail(ts[1..], tail);
    AppendDrop(ts, tail, 2);
  }

  lemma FloatBaseAppend(ts: seq<Token>, tail: seq<Token>)
    requires ParseFloatBase(ts).Some?
    ensures Extends(ParseFloatBase(ts), ParseFloatBase(ts + tail), tail)
  {
    AppendTail(ts, tail);
  }

  lemma PrimitiveTypeAppend(ts: seq<Token>, tail: seq<Token>)
    requires Unfinished(ParsePrimitiveType(ts))
    ensures Extends(ParsePrimitiveType(ts), ParsePrimitiveType(ts + tail), tail)
  {
    AppendTail(ts, tail);
    if Next(ts, KeywordToken(PrimitiveWord(KwUnsigned))) {
      IntegerBaseAppend(ts[1..], tail);
    } else if Next(ts, KeywordToken(PrimitiveWord(KwUnrestricted))) {
      FloatBaseAppend(ts[1..], tail);
    } else if Next(ts, KeywordToken(PrimitiveWord(KwFloat))) || Next(ts, KeywordToken(PrimitiveWord(KwDouble))) {
      FloatBaseAppend(ts, tail);
    } else if !(Next(ts, KeywordToken(PrimitiveWord(KwBoolean))) || Next(ts, KeywordToken(PrimitiveWord(KwByte)))
        || Next(ts, KeywordToken(PrimitiveWord(KwOctet))) || Next(ts, KeywordToken(PrimitiveWord(KwBigint)))) {
      IntegerBaseAppend(ts, tail);
    }
  }

  lemma {:induction false} CountMarksAppend(ts: seq<Token>, tail: seq<Token>)
    requires CountMarks(ts) < |ts|
    ensures CountMarks(ts + tail) == CountMarks(ts)
    decreases |ts|
  {
    AppendTail(ts, tail);
    if Next(ts, Punct(Question)) {
      CountMarksAppend(ts[1..], tail);
    }
  }

  lemma {:induction false} TypeAppend(ts: seq<Token>, tail: seq<Token>)
    requires Unfinished(ParseType(ts))
    ensures Extends(ParseType(ts), ParseType(ts + tail), tail)
    decreases |ts|, 3
  {
    AppendTail(ts, tail);
    if Next(ts, Punct(OpenParen)) {
      var members := ParseOrList(ts[1..]).value;
      OrListAppend(ts[1..], tail);
      var after := Expect(members.rest, Punct(CloseParen)).value;
      ExpectAppend(members.rest, Punct(CloseParen), tail);
      AppendTail(after, tail);
    } else if Next(ts, KeywordToken(TypeWord(KwPromise))) {
      TypeArgumentAppend(ts[1..], tail);
    } else {
      SingleTypeAppend(ts, tail);
    }
  }

  lemma {:induction false} OrListAppend(ts: seq<Token>, tail: seq<Token>)
    requires Unfinished(ParseOrList(ts))
    ensures Extends(ParseOrList(ts), ParseOrList(ts + tail), tail)
    decreases |ts|, 4
  {
    var first := ParseType(ts).value;
    TypeAppend(ts, tail);
    AppendTail(first.rest, tail);
    if Next(first.rest, KeywordToken(OrWord)) {
      OrListAppend(first.rest[1..], tail);
    }
  }

  lemma {:induction false} TypeArgumentAppend(ts: seq<Token>, tail: seq<Token>)
    requires ParseTypeArgument(ts).Some?
    ensures Extends(ParseTypeArgument(ts), ParseTypeArgument(ts + tail), tail)
    decreases |ts|, 0
  {
    var afterOpen := Expect(ts, Punct(OpenAngle)).value;
    ExpectAppend(ts, Punct(OpenAngle), tail);
    var t := ParseType(afterOpen).value;
    TypeAppend(afterOpen, tail);
    ExpectAppend(t.rest, Punct(CloseAngle), tail);
  }

  lemma {:induction false} SingleTypeAppend(ts: seq<Token>, tail: seq<Token>)
    requires Unfinished(ParseSingleType(ts))
    ensures Extends(ParseSingleType(ts), ParseSingleType(ts + tail), tail)
    decreases |ts|, 2
  {
    var base := ParseNonNullableType(ts).value;
    var n := CountMarks(base.rest);
    NonNullableTypeAppend(ts, tail);
    CountMarksAppend(base.rest, tail);
    AppendDrop(base.rest, tail, n);
  }

  lemma {:induction false} RecordBodyAppend(ts: seq<Token>, tail: seq<Token>)
    requires ParseRecordBody(ts).Some?
    ensures Extends(ParseRecordBody(ts), ParseRecordBody(ts + tail), tail)
    decreases |ts|, 0
  {
    var afterOpen := Expect(ts, Punct(OpenAngle)).value;
    ExpectAppend(ts, Punct(OpenAngle), tail);
    AppendTail(afterOpen, tail);
    var afterComma := Expect(afterOpen[1..], Punct(Comma)).value;
    ExpectAppend(afterOpen[1..], Punct(Comma), tail);
    var v := ParseType(afterComma).value;
    TypeAppend(afterComma, tail);
    ExpectAppend(v.rest, Punct(CloseAngle), tail);
  }

  lemma {:induction false} NonNullableTypeAppend(ts: seq<Token>, tail: seq<Token>)
    requires Unfinished(ParseNonNullableType(ts))
    ensures Extends(ParseNonNullableType(ts), ParseNonNullableType(ts + tail), tail)
    decreases |ts|, 1
  {
    AppendTail(ts, tail);
    match TypeStartOf(ts[0])
    case PrimitiveStart => PrimitiveTypeAppend(ts, tail);
    case ArrayStart(_) => TypeArgumentAppend(ts[1..], tail);
    case RecordStart => RecordBodyAppend(ts[1..], tail);
    case _ =>
  }

  // ---------------------------------------------------------------------------
  // Values and arguments

  lemma ConstValueAppend(ts: seq<Token>, tail: seq<Token>)
    requires ParseConstValue(ts).Some?
    ensures Extends(ParseConstValue(ts), ParseConstValue(ts + tail), tail)
  {
    AppendTail(ts, tail);
  }

  lemma DefaultValueAppend(ts: seq<Token>, tail: seq<Token>)
    requires ParseDefaultValue(ts).Some?
    ensures Extends(ParseDefaultValue(ts), ParseDefaultValue(ts + tail), tail)
  {
    AppendTail(ts, tail);
  }

  lemma ConstTypeAppend(ts: seq<Token>, tail: seq<Token>)
    requires Unfinished(ParseConstType(ts))
    ensures Extends(ParseConstType(ts), ParseConstType(ts + tail), tail)
  {
    AppendTail(ts, tail);
    if ts[0].KeywordToken? && ts[0].keyword.PrimitiveWord? {
      PrimitiveTypeAppend(ts, tail);
    } else {
      NameAppend(ts, tail);
    }
  }

  lemma DefaultAppend(ts: seq<Token>, tail: seq<Token>)
    requires Unfinished(ParseDefault(ts))
    ensures Extends(ParseDefault(ts), ParseDefault(ts + tail), tail)
  {
    AppendTail(ts, tail);
    if Next(ts, Punct(Equals)) {
      DefaultValueAppend(ts[1..], tail);
    }
  }

  lemma ArgumentAppend(ts: seq<Token>, tail: seq<Token>)
    requires Unfinished(ParseArgument(ts))
    ensures Extends(ParseArgument(ts), ParseArgument(ts + tail), tail)
  {
    AppendTail(ts, tail);
    var optional := Next(ts, KeywordToken(MemberWord(KwOptional)));
    var start := if optional then ts[1..] else ts;
    var t := ParseType(start).value;
    TypeAppend(start, tail);
    var n := ParseName(t.rest).value;
    NameAppend(t.rest, tail);
    DefaultAppend(n.rest, tail);
  }

  lemma SlotAppend(ts: seq<Token>, tail: seq<Token>)
    requires Unfinished(ParseSlot(ts))
    ensures Extends(ParseSlot(ts), ParseSlot(ts + tail), tail)
  {
    AppendTail(ts, tail);
    if !(Next(ts, Punct(Comma)) || Next(ts, Punct(CloseParen))) {
      ArgumentAppend(ts, tail);
    }
  }

  lemma {:induction false} SlotsAppend(ts: seq<Token>, tail: seq<Token>)
    requires Unfinished(ParseSlots(ts))
    ensures Extends(ParseSlots(ts), ParseSlots(ts + tail), tail)
    decreases |ts|
  {
    var slot := ParseSlot(ts).value;
    SlotAppend(ts, tail);
    AppendTail(slot.rest, tail);
    if Next(slot.rest, Punct(Comma)) {
      SlotsAppend(slot.rest[1..], tail);
    }
  }

  lemma ArgumentListAppend(ts: seq<Token>, tail: seq<Token>)
    requires ParseArgumentList(ts).Some?
    ensures Extends(ParseArgumentList(ts), ParseArgumentList(ts + tail), tail)
  {
    var afterOpen := Expect(ts, Punct(OpenParen)).value;
    ExpectAppend(ts, Punct(OpenParen), tail);
    var slots := ParseSlots(afterOpen).value;
    SlotsAppend(afterOpen, tail);
    ExpectAppend(slots.rest, Punct(CloseParen), tail);
  }

  // ---------------------------------------------------------------------------
  // Extended attributes

  lemma {:induction false} NamesAppend(ts: seq<Token>, tail: seq<Token>)
    requires Unfinished(ParseNames(ts))
    ensures Extends(ParseNames(ts), ParseNames(ts + tail), tail)
    decreases |ts|
  {
    var n := ParseName(ts).value;
    NameAppend(ts, tail);
    AppendTail(n.rest, tail);
    if Next(n.rest, Punct(Comma)) {
      NamesAppend(n.rest[1..], tail);
    }
  }

  lemma AssignedAppend(name: Name, ts: seq<Token>, tail: seq<Token>)
    requires Unfinished(ParseAssigned(name, ts))
    ensures Extends(ParseAssigned(name, ts), ParseAssigned(name, ts + tail), tail)
  {
    AppendTail(ts, tail);
    if Next(ts, Punct(OpenParen)) {
      var vs := ParseNames(ts[1..]).value;
      NamesAppend(ts[1..], tail);
      ExpectAppend(vs.rest, Punct(CloseParen), tail);
    } else {
      var v := ParseName(ts).value;
      NameAppend(ts, tail);
      AppendTail(v.rest, tail);
      if Next(v.rest, Punct(OpenParen)) {
        ArgumentListAppend(v.rest, tail);
      }
    }
  }

  lemma ExtendedAttributeAppend(ts: seq<Token>, tail: seq<Token>)
    requires Unfinished(ParseExtendedAttribute(ts))
    ensures Extends(ParseExtendedAttribute(ts), ParseExtendedAttribute(ts + tail), tail)
  {
    var n := ParseName(ts).value;
    NameAppend(ts, tail);
    AppendTail(n.rest, tail);
    if Next(n.rest, Punct(Equals)) {
      AssignedAppend(n.value, n.rest[1..], tail);
    } else if Next(n.rest, Punct(OpenParen)) {
      ArgumentListAppend(n.rest, tail);
    }
  }

  lemma {:induction false} ExtendedAttributesAppend(ts: seq<Token>, tail: seq<Token>)
    requires Unfinished(ParseExtendedAttributes(ts))
    ensures Extends(ParseExtendedAttributes(ts), ParseExtendedAttributes(ts + tail), tail)
    decreases |ts|
  {
    var x := ParseExtendedAttribute(ts).value;
    ExtendedAttributeAppend(ts, tail);
    AppendTail(x.rest, tail);
    if Next(x.rest, Punct(Comma)) {
      ExtendedAttributesAppend(x.rest[1..], tail);
    }
  }

  lemma AnnotationsAppend(ts: seq<Token>, tail: seq<Token>)
    requires Unfinished(ParseAnnotations(ts))
    ensures Extends(ParseAnnotations(ts), ParseAnnotations(ts + tail), tail)
  {
    AppendTail(ts, tail);
    if Next(ts, Punct(OpenBracket)) {
      var xs := ParseExtendedAttributes(ts[1..]).value;
      ExtendedAttributesAppend(ts[1..], tail);
      ExpectAppend(xs.rest, Punct(CloseBracket), tail);
    }
  }

  lemma AnnotatedTypeAppend(ts: seq<Token>, tail: seq<Token>)
    requires Unfinished(ParseAnnotatedType(ts))
    ensures Extends(ParseAnnotatedType(ts), ParseAnnotatedType(ts + tail), tail)
  {
    var a := ParseAnnotations(ts).value;
    AnnotationsAppend(ts, tail);
    TypeAppend(a.rest, tail);
  }

  // ---------------------------------------------------------------------------
  // Members

  lemma ConstAppend(ts: seq<Token>, tail: seq<Token>)
    requires ParseConst(ts).Some?
    ensures Extends(ParseConst(ts), ParseConst(ts + tail), tail)
  {
    var afterConst := Expect(ts, MemberToken(KwConst)).value;
    ExpectAppend(ts, MemberToken(KwConst), tail);
    var t := ParseConstType(afterConst).value;
    ConstTypeAppend(afterConst, tail);
    var n := ParseName(t.rest).value;
    NameAppend(t.rest, tail);
    var afterEquals := Expect(n.rest, Punct(Equals)).value;
    ExpectAppend(n.rest, Punct(Equals), tail);
    var v := ParseConstValue(afterEquals).value;
    ConstValueAppend(afterEquals, tail);
    ExpectAppend(v.rest, Punct(Semicolon), tail);
  }

  lemma AttributeRestAppend(inherit: bool, readonly: bool, ts: seq<Token>, tail: seq<Token>)
    requires ParseAttributeRest(inherit, readonly, ts).Some?
    ensures Extends(ParseAttributeRest(inherit, readonly, ts), ParseAttributeRest(inherit, readonly, ts + tail), tail)
  {
    var afterKeyword := Expect(ts, MemberToken(KwAttribute)).value;
    ExpectAppend(ts, MemberToken(KwAttribute), tail);
    var t := ParseAnnotatedType(afterKeyword).value;
    AnnotatedTypeAppend(afterKeyword, tail);
    var n := ParseName(t.rest).value;
    NameAppend(t.rest, tail);
    ExpectAppend(n.rest, Punct(Semicolon), tail);
  }

  lemma AttributeAppend(ts: seq<Token>, tail: seq<Token>)
    requires ParseAttribute(ts).Some?
    ensures Extends(ParseAttribute(ts), ParseAttribute(ts + tail), tail)
  {
    var inherit := Next(ts, MemberToken(KwInherit));
    var afterInherit := if inherit then ts[1..] else ts;
    var readonly := Next(afterInherit, MemberToken(KwReadonly));
    var afterReadonly := if readonly then afterInherit[1..] else afterInherit;
    AppendTail(ts, tail);
    AppendTail(afterInherit, tail);
    AttributeRestAppend(inherit, readonly, afterReadonly, tail);
  }

  lemma OptionalNameAppend(ts: seq<Token>, tail: seq<Token>)
    requires Unfinished(ParseOptionalName(ts))
    ensures Extends(ParseOptionalName(ts), ParseOptionalName(ts + tail), tail)
  {
    AppendTail(ts, tail);
    if !Next(ts, Punct(OpenParen)) {
      NameAppend(ts, tail);
    }
  }

  lemma RegularOperationAppend(ts: seq<Token>, tail: seq<Token>)
    requires ParseRegularOperation(ts).Some?
    ensures Extends(ParseRegularOperation(ts), ParseRegularOperation(ts + tail), tail)
  {
    var t := ParseType(ts).value;
    TypeAppend(ts, tail);
    var n := ParseOptionalName(t.rest).value;
    OptionalNameAppend(t.rest, tail);
    var args := ParseArgumentList(n.rest).value;
    ArgumentListAppend(n.rest, tail);
    ExpectAppend(args.rest, Punct(Semicolon), tail);
  }

  lemma ValueTypeAppend(ts: seq<Token>, tail: seq<Token>)
    requires ParseValueType(ts).Some?
    ensures Extends(ParseValueType(ts), ParseValueType(ts + tail), tail)
  {
    AppendTail(ts, tail);
    if Next(ts, Punct(Comma)) {
      var v := ParseType(ts[1..]).value;
      TypeAppend(ts[1..], tail);
      ExpectAppend(v.rest, Punct(CloseAngle), tail);
    } else {
      ExpectAppend(ts, Punct(CloseAngle), tail);
    }
  }

  lemma IteratedTypesAppend(ts: seq<Token>, tail: seq<Token>)
    requires ParseIteratedTypes(ts).Some?
    ensures Extends(ParseIteratedTypes(ts), ParseIteratedTypes(ts + tail), tail)
  {
    var afterOpen := Expect(ts, Punct(OpenAngle)).value;
    ExpectAppend(ts, Punct(OpenAngle), tail);
    var k := ParseType(afterOpen).value;
    TypeAppend(afterOpen, tail);
    ValueTypeAppend(k.rest, tail);
  }

  lemma OptionalArgumentsAppend(ts: seq<Token>, tail: seq<Token>)
    requires Unfinished(ParseOptionalArguments(ts))
    ensures Extends(ParseOptionalArguments(ts), ParseOptionalArguments(ts + tail), tail)
  {
    AppendTail(ts, tail);
    if Next(ts, Punct(OpenParen)) {
      ArgumentListAppend(ts, tail);
    }
  }

  lemma StringifiedAppend(ts: seq<Token>, tail: seq<Token>)
    requires ParseStringified(ts).Some?
    ensures Extends(ParseStringified(ts), ParseStringified(ts + tail), tail)
  {
    AppendTail(ts, tail);
    if !Next(ts, Punct(Semicolon)) {
      AttributeAppend(ts, tail);
    }
  }

  lemma StringifierAppend(ts: seq<Token>, tail: seq<Token>)
    requires Unfinished(ParseStringifier(ts))
    ensures Extends(ParseStringifier(ts), ParseStringifier(ts + tail), tail)
  {
    var body := ParseStringified(ts).value;
    StringifiedAppend(ts, tail);
    AppendTail(body.rest, tail);
  }

  lemma StaticAppend(ts: seq<Token>, tail: seq<Token>)
    requires ParseStatic(ts).Some?
    ensures Extends(ParseStatic(ts), ParseStatic(ts + tail), tail)
  {
    AppendTail(ts, tail);
    if MemberStartOf(ts[0]).AttributeStart? || MemberStartOf(ts[0]).ReadonlyStart? {
      AttributeAppend(ts, tail);
    } else {
      RegularOperationAppend(ts, tail);
    }
  }

  lemma AsyncIterableAppend(ts: seq<Token>, tail: seq<Token>)
    requires ParseAsyncIterable(ts).Some?
    ensures Extends(ParseAsyncIterable(ts), ParseAsyncIterable(ts + tail), tail)
  {
    var afterIterable := Expect(ts, MemberToken(KwIterable)).value;
    ExpectAppend(ts, MemberToken(KwIterable), tail);
    var types := ParseIteratedTypes(afterIterable).value;
    IteratedTypesAppend(afterIterable, tail);
    var args := ParseOptionalArguments(types.rest).value;
    OptionalArgumentsAppend(types.rest, tail);
    ExpectAppend(args.rest, Punct(Semicolon), tail);
  }

  lemma MaplikeAppend(readonly: bool, ts: seq<Token>, tail: seq<Token>)
    requires ParseMaplike(readonly, ts).Some?
    ensures Extends(ParseMaplike(readonly, ts), ParseMaplike(readonly, ts + tail), tail)
  {
    var types := ParseIteratedTypes(ts).value;
    IteratedTypesAppend(ts, tail);
    ExpectAppend(types.rest, Punct(Semicolon), tail);
  }

  lemma SetlikeAppend(readonly: bool, ts: seq<Token>, tail: seq<Token>)
    requires ParseSetlike(readonly, ts).Some?
    ensures Extends(ParseSetlike(readonly, ts), ParseSetlike(readonly, ts + tail), tail)
  {
    var v := ParseTypeArgument(ts).value;
    TypeArgumentAppend(ts, tail);
    ExpectAppend(v.rest, Punct(Semicolon), tail);
  }

  lemma ReadonlyAppend(ts: seq<Token>, tail: seq<Token>)
    requires |ts| > 1 && ParseReadonly(ts).Some?
    ensures Extends(ParseReadonly(ts), ParseReadonly(ts + tail), tail)
  {
    AppendTail(ts, tail);
    AppendTail(ts[1..], tail);
    AppendDrop(ts, tail, 2);
    if Next(ts[1..], MemberToken(KwMaplike)) {
      MaplikeAppend(true, ts[2..], tail);
    } else if Next(ts[1..], MemberToken(KwSetlike)) {
      SetlikeAppend(true, ts[2..], tail);
    } else {
      AttributeAppend(ts, tail);
    }
  }

  lemma ConstructorAppend(ts: seq<Token>, tail: seq<Token>)
    requires ParseConstructor(ts).Some?
    ensures Extends(ParseConstructor(ts), ParseConstructor(ts + tail), tail)
  {
    var args := ParseArgumentList(ts).value;
    ArgumentListAppend(ts, tail);
    ExpectAppend(args.rest, Punct(Semicolon), tail);
  }

  lemma IterableAppend(ts: seq<Token>, tail: seq<Token>)
    requires ParseIterable(ts).Some?
    ensures Extends(ParseIterable(ts), ParseIterable(ts + tail), tail)
  {
    var types := ParseIteratedTypes(ts).value;
    IteratedTypesAppend(ts, tail);
    ExpectAppend(types.rest, Punct(Semicolon), tail);
  }

  lemma ConstMemberAppend(ts: seq<Token>, tail: seq<Token>)
    requires ParseConstMember(ts).Some?
    ensures Extends(ParseConstMember(ts), ParseConstMember(ts + tail), tail)
  {
    ConstAppend(ts, tail);
  }

  lemma SpecialAppend(s: Special, ts: seq<Token>, tail: seq<Token>)
    requires ParseSpecial(s, ts).Some?
    ensures Extends(ParseSpecial(s, ts), ParseSpecial(s, ts + tail), tail)
  {
    RegularOperationAppend(ts, tail);
  }

  lemma AttributeMemberAppend(ts: seq<Token>, tail: seq<Token>)
    requires ParseAttributeMember(ts).Some?
    ensures Extends(ParseAttributeMember(ts), ParseAttributeMember(ts + tail), tail)
  {
    AttributeAppend(ts, tail);
  }

  lemma OperationMemberAppend(ts: seq<Token>, tail: seq<Token>)
    requires ParseOperationMember(ts).Some?
    ensures Extends(ParseOperationMember(ts), ParseOperationMember(ts + tail), tail)
  {
    RegularOperationAppend(ts, tail);
  }

  /** Only the stringifier looks past its own phrase, for an extra `;`. */
  lemma MemberAfterAppend(start: MemberStart, ts: seq<Token>, tail: seq<Token>)
    requires |ts| > 0 && Unfinished(ParseMemberAfter(start, ts))
    ensures Extends(ParseMemberAfter(start, ts), ParseMemberAfter(start, ts + tail), tail)
  {
    AppendTail(ts, tail);
    match start
    case ConstStart => ConstMemberAppend(ts, tail);
    case SpecialStart(s) => SpecialAppend(s, ts[1..], tail);
    case StringifierStart => StringifierAppend(ts[1..], tail);
    case StaticStart => StaticAppend(ts[1..], tail);
    case IterableStart => IterableAppend(ts[1..], tail);
    case AsyncStart => AsyncIterableAppend(ts[1..], tail);
    case AttributeStart => AttributeMemberAppend(ts, tail);
    case ReadonlyStart => ReadonlyAppend(ts, tail);
    case MaplikeStart => MaplikeAppend(false, ts[1..], tail);
    case SetlikeStart => SetlikeAppend(false, ts[1..], tail);
    case ConstructorStart => ConstructorAppend(ts[1..], tail);
    case OperationStart => OperationMemberAppend(ts, tail);
  }

  lemma MemberBodyInAppend(c: Container, ts: seq<Token>, tail: seq<Token>)
    requires Unfinished(ParseMemberBodyIn(c, ts))
    ensures Extends(ParseMemberBodyIn(c, ts), ParseMemberBodyIn(c, ts + tail), tail)
  {
    AppendTail(ts, tail);
    if !Opens(c, MemberStartOf(ts[0])) {
      OperationMemberAppend(ts, tail);
    } else {
      MemberAfterAppend(MemberStartOf(ts[0]), ts, tail);
    }
  }

  lemma MemberAppend(ts: seq<Token>, c: Container, tail: seq<Token>)
    requires Unfinished(ParseMember(ts, c))
    ensures Extends(ParseMember(ts, c), ParseMember(ts + tail, c), tail)
  {
    var a := ParseAnnotations(ts).value;
    assert |a.rest| > 0;
    AnnotationsAppend(ts, tail);
    MemberBodyInAppend(c, a.rest, tail);
  }

  /** Member lists stop at `}`, which is never the last token they read. */
  lemma {:induction false} MembersAppend(ts: seq<Token>, c: Container, tail: seq<Token>)
    requires ParseMembers(ts, c).Some?
    ensures Extends(ParseMembers(ts, c), ParseMembers(ts + tail, c), tail)
    decreases |ts|
  {
    AppendTail(ts, tail);
    if !Next(ts, Punct(CloseBrace)) {
      var m := ParseMember(ts, c).value;
      assert |m.rest| > 0;
      MemberAppend(ts, c, tail);
      MembersAppend(m.rest, c, tail);
    }
  }

  lemma NamespaceMemberAppend(ts: seq<Token>, tail: seq<Token>)
    requires ParseNamespaceMember(ts).Some?
    ensures Extends(ParseNamespaceMember(ts), ParseNamespaceMember(ts + tail), tail)
  {
    AppendTail(ts, tail);
    if |ts| > 0 && MemberStartOf(ts[0]).ConstStart? {
      ConstAppend(ts, tail);
    } else if |ts| > 0 && (MemberStartOf(ts[0]).AttributeStart? || MemberStartOf(ts[0]).ReadonlyStart?) {
      AttributeAppend(ts, tail);
    } else {
      RegularOperationAppend(ts, tail);
    }
  }

  lemma {:induction false} NamespaceMembersAppend(ts: seq<Token>, tail: seq<Token>)
    requires ParseNamespaceMembers(ts).Some?
    ensures Extends(ParseNamespaceMembers(ts), ParseNamespaceMembers(ts + tail), tail)
    decreases |ts|
  {
    AppendTail(ts, tail);
    if !Next(ts, Punct(CloseBrace)) {
      var m := ParseNamespaceMember(ts).value;
      NamespaceMemberAppend(ts, tail);
      NamespaceMembersAppend(m.rest, tail);
    }
  }

  lemma DictionaryMemberAppend(ts: seq<Token>, tail: seq<Token>)
    requires ParseDictionaryMember(ts).Some?
    ensures Extends(ParseDictionaryMember(ts), ParseDictionaryMember(ts + tail), tail)
  {
    var a := ParseAnnotations(ts).value;
    assert |a.rest| > 0;
    AnnotationsAppend(ts, tail);
    AppendTail(a.rest, tail);
    var required := Next(a.rest, MemberToken(KwRequired));
    var start := if required then a.rest[1..] else a.rest;
    var t := ParseType(start).value;
    TypeAppend(start, tail);
    var n := ParseName(t.rest).value;
    NameAppend(t.rest, tail);
    var d := ParseDefault(n.rest).value;
    assert |d.rest| > 0;
    DefaultAppend(n.rest, tail);
    ExpectAppend(d.rest, Punct(Semicolon), tail);
  }

  lemma {:induction false} DictionaryMembersAppend(ts: seq<Token>, tail: seq<Token>)
    requires ParseDictionaryMembers(ts).Some?
    ensures Extends(ParseDictionaryMembers(ts), ParseDictionaryMembers(ts + tail), tail)
    decreases |ts|
  {
    AppendTail(ts, tail);
    if !Next(ts, Punct(CloseBrace)) {
      var m := ParseDictionaryMember(ts).value;
      DictionaryMemberAppend(ts, tail);
      DictionaryMembersAppend(m.rest, tail);
    }
  }
}
