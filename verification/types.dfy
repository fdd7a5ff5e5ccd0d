/** The type sub-grammar (`_type` and everything under it): a printer from
    type trees to tokens, a recursive-descent parser back, and the two facts
    that make them inverse -- parsing a printed type yields the type, and a
    parsed type prints to exactly the tokens it was parsed from. */
module TypeGrammar {
  import opened Wrappers
  import opened Tokens
  import opened Syntax

  // ---------------------------------------------------------------------------
  // Keywords of the type grammar

  /** The single types written as one keyword. */
  predicate IsKeywordType(s: SingleType) {
    s.StringT? || s.BufferT? || s.ObjectType? || s.SymbolType? || s.AnyType? || s.UndefinedType?
  }

  // ---------------------------------------------------------------------------
  // Printing

  function FloatBaseKeyword(b: FloatBase): PrimitiveKeyword {
    match b
    case Float => KwFloat
    case Double => KwDouble
  }

  function EmitIntegerBase(b: IntegerBase, rest: seq<Token>): seq<Token> {
    match b
    case Short => [KeywordToken(PrimitiveWord(KwShort))] + rest
    case Long => [KeywordToken(PrimitiveWord(KwLong))] + rest
    case LongLong => [KeywordToken(PrimitiveWord(KwLong))] + ([KeywordToken(PrimitiveWord(KwLong))] + rest)
  }

  /** `primitive_type`, in front of `rest`. */
  function EmitPrimitiveType(p: PrimitiveType, rest: seq<Token>): (r: seq<Token>)
    ensures |r| > |rest| && r[0].KeywordToken? && r[0].keyword.PrimitiveWord?
  {
    match p
    case IntegerType(u, b) =>
      if u then [KeywordToken(PrimitiveWord(KwUnsigned))] + EmitIntegerBase(b, rest) else EmitIntegerBase(b, rest)
    case FloatType(u, b) =>
      var base := [KeywordToken(PrimitiveWord(FloatBaseKeyword(b)))] + rest;
      if u then [KeywordToken(PrimitiveWord(KwUnrestricted))] + base else base
    case Boolean => [KeywordToken(PrimitiveWord(KwBoolean))] + rest
    case Byte => [KeywordToken(PrimitiveWord(KwByte))] + rest
    case Octet => [KeywordToken(PrimitiveWord(KwOctet))] + rest
    case Bigint => [KeywordToken(PrimitiveWord(KwBigint))] + rest
  }

  function NameToken(n: Name): Token {
    match n
    case Identifier(w) => Word(w)
    case KeywordName(k) => KeywordToken(k)
  }

  /** The printers emit in front of the tokens that follow, so that a
      printed construct followed by more input is one function application
      rather than a concatenation to re-associate. */
  function EmitType(t: Type, rest: seq<Token>): (r: seq<Token>)
    ensures |r| > |rest|
    decreases t, 0
  {
    match t
    case Single(s) => EmitSingleType(s, rest)
    case UnionType(ms, nullable) =>
      [Punct(OpenParen)] + EmitOrList(ms, [Punct(CloseParen)] + (if nullable then [Punct(Question)] + rest else rest))
    case PromiseType(r) => [KeywordToken(TypeWord(KwPromise))] + EmitTypeArgument(r, rest)
  }

  /** The member types of a union, separated by `or`. */
  function EmitOrList(ms: seq<Type>, rest: seq<Token>): (r: seq<Token>)
    ensures |r| >= |rest|
    decreases ms
  {
    if |ms| == 0 then rest
    else if |ms| == 1 then EmitType(ms[0], rest)
    else EmitType(ms[0], [KeywordToken(OrWord)] + EmitOrList(ms[1..], rest))
  }

  /** `<` T `>` */
  function EmitTypeArgument(t: Type, rest: seq<Token>): (r: seq<Token>)
    ensures |r| > |rest|
    decreases t, 1
  {
    [Punct(OpenAngle)] + EmitType(t, [Punct(CloseAngle)] + rest)
  }

  /** `<` string_type `,` T `>` */
  function EmitRecordBody(k: StringType, v: Type, rest: seq<Token>): (r: seq<Token>)
    ensures |r| > |rest|
    decreases v, 1
  {
    [Punct(OpenAngle)] + ([KeywordToken(StringTypeWord(k))] + ([Punct(Comma)] + EmitType(v, [Punct(CloseAngle)] + rest)))
  }

  function EmitSingleType(s: SingleType, rest: seq<Token>): (r: seq<Token>)
    ensures |r| > |rest| && (r[0].KeywordToken? || r[0].Word?)
    decreases s
  {
    match s
    case PrimitiveT(p) => EmitPrimitiveType(p, rest)
    case StringT(x) => [KeywordToken(StringTypeWord(x))] + rest
    case BufferT(b) => [KeywordToken(BufferTypeWord(b))] + rest
    case Named(n) => [NameToken(n)] + rest
    case SequenceType(e) => [KeywordToken(TypeWord(KwSequence))] + EmitTypeArgument(e, rest)
    case FrozenArrayType(e) => [KeywordToken(TypeWord(KwFrozenArray))] + EmitTypeArgument(e, rest)
    case ObservableArrayType(e) => [KeywordToken(TypeWord(KwObservableArray))] + EmitTypeArgument(e, rest)
    case RecordType(k, v) => [KeywordToken(TypeWord(KwRecord))] + EmitRecordBody(k, v, rest)
    case ObjectType => [KeywordToken(TypeWord(KwObject))] + rest
    case SymbolType => [KeywordToken(TypeWord(KwSymbol))] + rest
    case NullableType(inner) => EmitSingleType(inner, [Punct(Question)] + rest)
    case AnyType => [KeywordToken(TypeWord(KwAny))] + rest
    case UndefinedType => [KeywordToken(TypeWord(KwUndefined))] + rest
  }

  // ---------------------------------------------------------------------------
  // Parsing

  /** The name an `identifier` position reads: a word, or a keyword the
      context gives no meaning. */
  function ParseName(ts: seq<Token>): (r: Option<Parsed<Name>>)
    ensures r.Some? <==> |ts| > 0 && (ts[0].Word? || ts[0].KeywordToken?)
    ensures r.Some? ==> NameToken(r.value.value) == ts[0] && r.value.rest == ts[1..]
  {
    if |ts| == 0 then None
    else match ts[0]
      case Word(w) => Some(Parsed(Identifier(w), ts[1..]))
      case KeywordToken(k) => Some(Parsed(KeywordName(k), ts[1..]))
      case _ => None
  }

  function ParseIntegerBase(ts: seq<Token>): (r: Option<Parsed<IntegerBase>>)
    ensures r.Some? ==> |r.value.rest| < |ts|
  {
    if Next(ts, KeywordToken(PrimitiveWord(KwShort))) then Some(Parsed(Short, ts[1..]))
    else if Next(ts, KeywordToken(PrimitiveWord(KwLong))) then
      if Next(ts[1..], KeywordToken(PrimitiveWord(KwLong))) then Some(Parsed(LongLong, ts[2..])) else Some(Parsed(Long, ts[1..]))
    else None
  }

  function ParseFloatBase(ts: seq<Token>): (r: Option<Parsed<FloatBase>>)
    ensures r.Some? ==> |r.value.rest| < |ts|
  {
    if Next(ts, KeywordToken(PrimitiveWord(KwFloat))) then Some(Parsed(Float, ts[1..]))
    else if Next(ts, KeywordToken(PrimitiveWord(KwDouble))) then Some(Parsed(Double, ts[1..]))
    else None
  }

  /** `primitive_type`: a modifier comes first and at most once. */
  function ParsePrimitiveType(ts: seq<Token>): (r: Option<Parsed<PrimitiveType>>)
    ensures r.Some? ==> |r.value.rest| < |ts|
  {
    if Next(ts, KeywordToken(PrimitiveWord(KwUnsigned))) then
      var b :- ParseIntegerBase(ts[1..]);
      Some(Parsed(IntegerType(true, b.value), b.rest))
    else if Next(ts, KeywordToken(PrimitiveWord(KwUnrestricted))) then
      var b :- ParseFloatBase(ts[1..]);
      Some(Parsed(FloatType(true, b.value), b.rest))
    else if Next(ts, KeywordToken(PrimitiveWord(KwBoolean))) then Some(Parsed(Boolean, ts[1..]))
    else if Next(ts, KeywordToken(PrimitiveWord(KwByte))) then Some(Parsed(Byte, ts[1..]))
    else if Next(ts, KeywordToken(PrimitiveWord(KwOctet))) then Some(Parsed(Octet, ts[1..]))
    else if Next(ts, KeywordToken(PrimitiveWord(KwBigint))) then Some(Parsed(Bigint, ts[1..]))
    else if Next(ts, KeywordToken(PrimitiveWord(KwFloat))) || Next(ts, KeywordToken(PrimitiveWord(KwDouble))) then
      var b :- ParseFloatBase(ts);
      Some(Parsed(FloatType(false, b.value), b.rest))
    else
      var b :- ParseIntegerBase(ts);
      Some(Parsed(IntegerType(false, b.value), b.rest))
  }

  /** `_type`: a union in parentheses, a promise, or a single type. */
  function ParseType(ts: seq<Token>): (r: Option<Parsed<Type>>)
    ensures r.Some? ==> |r.value.rest| < |ts|
    decreases |ts|, 3
  {
    if Next(ts, Punct(OpenParen)) then
      var members :- ParseOrList(ts[1..]);
      var after :- Expect(members.rest, Punct(CloseParen));
      if |members.value| < 2 then None
      else if Next(after, Punct(Question)) then Some(Parsed(UnionType(members.value, true), after[1..]))
      else Some(Parsed(UnionType(members.value, false), after))
    else if Next(ts, KeywordToken(TypeWord(KwPromise))) then
      var r :- ParseTypeArgument(ts[1..]);
      Some(Parsed(PromiseType(r.value), r.rest))
    else
      var s :- ParseSingleType(ts);
      Some(Parsed(Single(s.value), s.rest))
  }

  /** One or more types separated by `or`. */
  function ParseOrList(ts: seq<Token>): (r: Option<Parsed<seq<Type>>>)
    ensures r.Some? ==> |r.value.rest| < |ts| && |r.value.value| > 0
    decreases |ts|, 4
  {
    var first :- ParseType(ts);
    if Next(first.rest, KeywordToken(OrWord)) then
      var more :- ParseOrList(first.rest[1..]);
      Some(Parsed([first.value] + more.value, more.rest))
    else
      Some(Parsed([first.value], first.rest))
  }

  /** `<` T `>` */
  function ParseTypeArgument(ts: seq<Token>): (r: Option<Parsed<Type>>)
    ensures r.Some? ==> |r.value.rest| < |ts|
    decreases |ts|, 0
  {
    var afterOpen :- Expect(ts, Punct(OpenAngle));
    var t :- ParseType(afterOpen);
    var afterClose :- Expect(t.rest, Punct(CloseAngle));
    Some(Parsed(t.value, afterClose))
  }

  /** `rest` after `n` question marks. */
  function Marked(n: nat, rest: seq<Token>): (r: seq<Token>)
    ensures |r| == n + |rest|
  {
    if n == 0 then rest else [Punct(Question)] + Marked(n - 1, rest)
  }

  /** The number of `?` at the start of `ts`. */
  function CountMarks(ts: seq<Token>): (n: nat)
    ensures n <= |ts|
  {
    if Next(ts, Punct(Question)) then CountMarks(ts[1..]) + 1 else 0
  }

  /** `s` under `n` nullable wrappers. */
  function Wrap(s: SingleType, n: nat): SingleType
    decreases n
  {
    if n == 0 then s else Wrap(NullableType(s), n - 1)
  }

  /** `_single_type`: a non-nullable single type followed by any number of
      `?`, each wrapping what precedes it in a `nullable_type`. */
  function ParseSingleType(ts: seq<Token>): (r: Option<Parsed<SingleType>>)
    ensures r.Some? ==> |r.value.rest| < |ts|
    decreases |ts|, 2
  {
    var base :- ParseNonNullableType(ts);
    var n := CountMarks(base.rest);
    Some(Parsed(Wrap(base.value, n), base.rest[n..]))
  }

  /** `<` string_type `,` T `>`: a record's key and value types. */
  function ParseRecordBody(ts: seq<Token>): (r: Option<Parsed<SingleType>>)
    ensures r.Some? ==> |r.value.rest| < |ts|
    decreases |ts|, 0
  {
    var afterOpen :- Expect(ts, Punct(OpenAngle));
    if |afterOpen| == 0 || !afterOpen[0].KeywordToken? || !afterOpen[0].keyword.StringTypeWord? then None
    else
      var afterComma :- Expect(afterOpen[1..], Punct(Comma));
      var v :- ParseType(afterComma);
      var afterClose :- Expect(v.rest, Punct(CloseAngle));
      Some(Parsed(RecordType(afterOpen[0].keyword.stringType, v.value), afterClose))
  }

  predicate IsArrayKeyword(k: TypeKeyword) {
    k.KwSequence? || k.KwFrozenArray? || k.KwObservableArray?
  }

  /** `sequence`, `FrozenArray` or `ObservableArray` of `e`. */
  function ArrayType(k: TypeKeyword, e: Type): (r: SingleType)
    requires IsArrayKeyword(k)
    ensures (r.SequenceType? || r.FrozenArrayType? || r.ObservableArrayType?) && r.elementType == e
  {
    match k
    case KwSequence => SequenceType(e)
    case KwFrozenArray => FrozenArrayType(e)
    case KwObservableArray => ObservableArrayType(e)
  }

  /** What the first token of a non-nullable single type selects. */
  datatype TypeStart =
    | PrimitiveStart
    | KeywordStart(single: SingleType)
    | ArrayStart(arrayKeyword: TypeKeyword)
    | RecordStart
    | NameStart(name: Name)
    | NoSingleType

  /** A type keyword is read as that keyword, so it is never a named type;
      any other keyword here is a name. `Promise` begins a type but not a
      single one. */
  function TypeStartOf(t: Token): (r: TypeStart)
    ensures r.KeywordStart? ==> IsKeywordType(r.single)
    ensures r.ArrayStart? ==> IsArrayKeyword(r.arrayKeyword)
    ensures r.NameStart? ==> !(r.name.KeywordName? && IsTypeKeyword(r.name.keyword)) && NameToken(r.name) == t
  {
    match t
    case Word(w) => NameStart(Identifier(w))
    case KeywordToken(k) =>
      (match k
       case PrimitiveWord(_) => PrimitiveStart
       case StringTypeWord(x) => KeywordStart(StringT(x))
       case BufferTypeWord(b) => KeywordStart(BufferT(b))
       case TypeWord(w) => TypeWordStart(w)
       case _ => NameStart(KeywordName(k)))
    case _ => NoSingleType
  }

  function TypeWordStart(w: TypeKeyword): (r: TypeStart)
    ensures r.KeywordStart? ==> IsKeywordType(r.single)
    ensures r.ArrayStart? ==> IsArrayKeyword(r.arrayKeyword)
    ensures !r.NameStart?
  {
    match w
    case KwPromise => NoSingleType
    case KwRecord => RecordStart
    case KwSequence => ArrayStart(w)
    case KwFrozenArray => ArrayStart(w)
    case KwObservableArray => ArrayStart(w)
    case KwObject => KeywordStart(ObjectType)
    case KwSymbol => KeywordStart(SymbolType)
    case KwAny => KeywordStart(AnyType)
    case KwUndefined => KeywordStart(UndefinedType)
  }

  /** The alternatives of `_single_type` other than `nullable_type`. */
  function ParseNonNullableType(ts: seq<Token>): (r: Option<Parsed<SingleType>>)
    ensures r.Some? ==> |r.value.rest| < |ts| && !r.value.value.NullableType?
    decreases |ts|, 1
  {
    if |ts| == 0 then None
    else match TypeStartOf(ts[0])
      case PrimitiveStart =>
        var p :- ParsePrimitiveType(ts);
        Some(Parsed(PrimitiveT(p.value), p.rest))
      case KeywordStart(s) => Some(Parsed(s, ts[1..]))
      case ArrayStart(k) =>
        var e :- ParseTypeArgument(ts[1..]);
        Some(Parsed(ArrayType(k, e.value), e.rest))
      case RecordStart =>
        ParseRecordBody(ts[1..])
      case NameStart(n) => Some(Parsed(Named(n), ts[1..]))
      case NoSingleType => None
  }

  // ---------------------------------------------------------------------------
  // Helpers for the inverse proofs

  lemma {:induction false} EmitWrap(s: SingleType, n: nat, rest: seq<Token>)
    ensures EmitSingleType(Wrap(s, n), rest) == EmitSingleType(s, Marked(n, rest))
    decreases n
  {
    if n > 0 {
      EmitWrap(NullableType(s), n - 1, rest);
    }
  }

  /** The marks counted are all the marks there are. */
  lemma {:induction false} CountMarksSplits(ts: seq<Token>)
    ensures ts == Marked(CountMarks(ts), ts[CountMarks(ts)..])
    ensures !Next(ts[CountMarks(ts)..], Punct(Question))
  {
    if Next(ts, Punct(Question)) {
      var m := CountMarks(ts[1..]);
      CountMarksSplits(ts[1..]);
      assert ts[1..][m..] == ts[m + 1..];
      Uncons(ts);
    }
  }

  /** Nullable wrappers change no well-formedness. */
  lemma {:induction false} WrapWf(s: SingleType, n: nat, plain: bool)
    ensures WfSingleType(Wrap(s, n), plain) == WfSingleType(s, plain)
    decreases n
  {
    if n > 0 {
      WrapWf(NullableType(s), n - 1, plain);
    }
  }

  lemma {:induction false} CountMarked(n: nat, rest: seq<Token>)
    requires !Next(rest, Punct(Question))
    ensures CountMarks(Marked(n, rest)) == n && Marked(n, rest)[n..] == rest
    decreases n
  {
    if n > 0 {
      ConsTail(Punct(Question), Marked(n - 1, rest));
      CountMarked(n - 1, rest);
    }
  }

  // ---------------------------------------------------------------------------
  // Parsing a printed type gives the type back

  /** Tokens that can follow a complete type without extending it: a further
      `?` would make it nullable, a further `long` would continue `long long`. */
  predicate EndsType(rest: seq<Token>) {
    !Next(rest, Punct(Question)) && !Next(rest, KeywordToken(PrimitiveWord(KwLong)))
  }

  lemma IntegerBaseRoundTrip(b: IntegerBase, rest: seq<Token>)
    requires !Next(rest, KeywordToken(PrimitiveWord(KwLong)))
    ensures ParseIntegerBase(EmitIntegerBase(b, rest)) == Some(Parsed(b, rest))
  {
    ConsTail(KeywordToken(PrimitiveWord(KwLong)), rest);
    ConsTail(KeywordToken(PrimitiveWord(KwShort)), rest);
    ConsTail(KeywordToken(PrimitiveWord(KwLong)), [KeywordToken(PrimitiveWord(KwLong))] + rest);
  }

  lemma FloatBaseRoundTrip(b: FloatBase, rest: seq<Token>)
    ensures ParseFloatBase([KeywordToken(PrimitiveWord(FloatBaseKeyword(b)))] + rest) == Some(Parsed(b, rest))
  {
    ConsTail(KeywordToken(PrimitiveWord(FloatBaseKeyword(b))), rest);
  }

  lemma PrimitiveRoundTrip(p: PrimitiveType, rest: seq<Token>)
    requires !Next(rest, KeywordToken(PrimitiveWord(KwLong)))
    ensures ParsePrimitiveType(EmitPrimitiveType(p, rest)) == Some(Parsed(p, rest))
  {
    match p
    case IntegerType(u, b) =>
      IntegerBaseRoundTrip(b, rest);
      ConsTail(KeywordToken(PrimitiveWord(KwUnsigned)), EmitIntegerBase(b, rest));
    case FloatType(u, b) =>
      var base := [KeywordToken(PrimitiveWord(FloatBaseKeyword(b)))] + rest;
      FloatBaseRoundTrip(b, rest);
      ConsTail(KeywordToken(PrimitiveWord(KwUnrestricted)), base);
    case _ =>
      ConsTail(EmitPrimitiveType(p, rest)[0], rest);
  }

  lemma {:induction false} TypeRoundTrip(t: Type, rest: seq<Token>)
    requires WfType(t, true) && EndsType(rest)
    ensures ParseType(EmitType(t, rest)) == Some(Parsed(t, rest))
    decreases t, 2
  {
    match t
    case Single(s) =>
      SingleMarksRoundTrip(s, 0, rest);
      var ts := EmitSingleType(s, rest);
      Uncons(ts);
      PromiseIsNotSingle(ts[1..]);
    case UnionType(ms, nullable) =>
      UnionRoundTrip(ms, nullable, rest);
    case PromiseType(r) =>
      ConsTail(KeywordToken(TypeWord(KwPromise)), EmitTypeArgument(r, rest));
      TypeArgumentRoundTrip(r, rest);
  }

  lemma {:induction false} UnionRoundTrip(ms: seq<Type>, nullable: bool, rest: seq<Token>)
    requires |ms| >= 2 && WfTypes(ms, true) && EndsType(rest)
    ensures ParseType(EmitType(UnionType(ms, nullable), rest)) == Some(Parsed(UnionType(ms, nullable), rest))
    decreases ms, 1
  {
    var after := if nullable then [Punct(Question)] + rest else rest;
    ConsTail(Punct(OpenParen), EmitOrList(ms, [Punct(CloseParen)] + after));
    OrListRoundTrip(ms, [Punct(CloseParen)] + after);
    ConsTail(Punct(CloseParen), after);
    ConsTail(Punct(Question), rest);
  }

  lemma {:induction false} OrListRoundTrip(ms: seq<Type>, rest: seq<Token>)
    requires |ms| > 0 && WfTypes(ms, true) && EndsType(rest) && !Next(rest, KeywordToken(OrWord))
    ensures ParseOrList(EmitOrList(ms, rest)) == Some(Parsed(ms, rest))
    decreases ms, 0
  {
    if |ms| == 1 {
      TypeRoundTrip(ms[0], rest);
      assert [ms[0]] == ms;
    } else {
      var more := EmitOrList(ms[1..], rest);
      TypeRoundTrip(ms[0], [KeywordToken(OrWord)] + more);
      ConsTail(KeywordToken(OrWord), more);
      OrListRoundTrip(ms[1..], rest);
      assert [ms[0]] + ms[1..] == ms;
    }
  }

  lemma {:induction false} TypeArgumentRoundTrip(t: Type, rest: seq<Token>)
    requires WfType(t, true)
    ensures ParseTypeArgument(EmitTypeArgument(t, rest)) == Some(Parsed(t, rest))
    decreases t, 3
  {
    ConsTail(Punct(OpenAngle), EmitType(t, [Punct(CloseAngle)] + rest));
    TypeRoundTrip(t, [Punct(CloseAngle)] + rest);
    ConsTail(Punct(CloseAngle), rest);
  }

  /** The single type `s` followed by `k` further question marks parses as
      `s` wrapped `k` more times. */
  lemma {:induction false} SingleMarksRoundTrip(s: SingleType, k: nat, rest: seq<Token>)
    requires WfSingleType(s, true) && EndsType(rest)
    ensures ParseSingleType(EmitSingleType(s, Marked(k, rest))) == Some(Parsed(Wrap(s, k), rest))
    decreases s, 2
  {
    if s.NullableType? {
      SingleMarksRoundTrip(s.inner, k + 1, rest);
    } else {
      NonNullableRoundTrip(s, Marked(k, rest));
      CountMarked(k, rest);
    }
  }

  lemma {:induction false} NonNullableRoundTrip(s: SingleType, rest: seq<Token>)
    requires WfSingleType(s, true) && !s.NullableType? && !Next(rest, KeywordToken(PrimitiveWord(KwLong)))
    ensures ParseNonNullableType(EmitSingleType(s, rest)) == Some(Parsed(s, rest))
    decreases s, 1
  {
    match s
    case PrimitiveT(p) => PrimitiveTypeRoundTrip(p, rest);
    case Named(n) => NamedTypeRoundTrip(n, rest);
    case SequenceType(_) => GenericTypeRoundTrip(s, rest);
    case FrozenArrayType(_) => GenericTypeRoundTrip(s, rest);
    case ObservableArrayType(_) => GenericTypeRoundTrip(s, rest);
    case RecordType(k, v) => RecordTypeRoundTrip(k, v, rest);
    case _ => KeywordTypeRoundTrip(s, rest);
  }

  // One step of `ParseNonNullableType` per kind of first token.

  lemma PrimitiveStep(ts: seq<Token>, p: PrimitiveType, rest: seq<Token>)
    requires |ts| > 0 && TypeStartOf(ts[0]).PrimitiveStart? && ParsePrimitiveType(ts) == Some(Parsed(p, rest))
    ensures ParseNonNullableType(ts) == Some(Parsed(PrimitiveT(p), rest))
  {
  }

  lemma KeywordStep(ts: seq<Token>, s: SingleType)
    requires |ts| > 0 && TypeStartOf(ts[0]) == KeywordStart(s)
    ensures ParseNonNullableType(ts) == Some(Parsed(s, ts[1..]))
  {
  }

  lemma ArrayStep(ts: seq<Token>, k: TypeKeyword, e: Type, rest: seq<Token>)
    requires |ts| > 0 && TypeStartOf(ts[0]) == ArrayStart(k) && ParseTypeArgument(ts[1..]) == Some(Parsed(e, rest))
    ensures ParseNonNullableType(ts) == Some(Parsed(ArrayType(k, e), rest))
  {
  }

  lemma RecordStep(k: StringType, v: Type, rest: seq<Token>)
    requires ParseRecordBody(EmitRecordBody(k, v, rest)) == Some(Parsed(RecordType(k, v), rest))
    ensures ParseNonNullableType(EmitSingleType(RecordType(k, v), rest)) == Some(Parsed(RecordType(k, v), rest))
  {
    var body := EmitRecordBody(k, v, rest);
    var ts := [KeywordToken(TypeWord(KwRecord))] + body;
    ConsTail(KeywordToken(TypeWord(KwRecord)), body);
    assert TypeStartOf(ts[0]) == RecordStart;
    assert EmitSingleType(RecordType(k, v), rest) == ts;
  }

  lemma NameStep(ts: seq<Token>, n: Name)
    requires |ts| > 0 && TypeStartOf(ts[0]) == NameStart(n)
    ensures ParseNonNullableType(ts) == Some(Parsed(Named(n), ts[1..]))
  {
  }

  lemma PrimitiveTypeRoundTrip(p: PrimitiveType, rest: seq<Token>)
    requires !Next(rest, KeywordToken(PrimitiveWord(KwLong)))
    ensures ParseNonNullableType(EmitSingleType(PrimitiveT(p), rest)) == Some(Parsed(PrimitiveT(p), rest))
  {
    PrimitiveRoundTrip(p, rest);
    PrimitiveStep(EmitPrimitiveType(p, rest), p, rest);
  }

  lemma NamedTypeRoundTrip(n: Name, rest: seq<Token>)
    requires n.Identifier?
    ensures ParseNonNullableType(EmitSingleType(Named(n), rest)) == Some(Parsed(Named(n), rest))
  {
    ConsTail(NameToken(n), rest);
    NameStep([NameToken(n)] + rest, n);
  }

  lemma {:induction false} GenericTypeRoundTrip(s: SingleType, rest: seq<Token>)
    requires s.SequenceType? || s.FrozenArrayType? || s.ObservableArrayType?
    requires WfSingleType(s, true)
    ensures ParseNonNullableType(EmitSingleType(s, rest)) == Some(Parsed(s, rest))
    decreases s, 0
  {
    var e := s.elementType;
    var args := EmitTypeArgument(e, rest);
    var k := match s case SequenceType(_) => KwSequence case FrozenArrayType(_) => KwFrozenArray case _ => KwObservableArray;
    TypeArgumentRoundTrip(e, rest);
    assert EmitSingleType(s, rest) == [KeywordToken(TypeWord(k))] + args && ArrayType(k, e) == s;
    ConsTail(KeywordToken(TypeWord(k)), args);
    ArrayStep([KeywordToken(TypeWord(k))] + args, k, e, rest);
  }

  lemma {:induction false} RecordTypeRoundTrip(k: StringType, v: Type, rest: seq<Token>)
    requires WfType(v, true)
    ensures ParseNonNullableType(EmitSingleType(RecordType(k, v), rest)) == Some(Parsed(RecordType(k, v), rest))
    decreases v, 5
  {
    RecordValueRoundTrip(k, v, rest);
    RecordStep(k, v, rest);
  }

  lemma {:induction false} RecordValueRoundTrip(k: StringType, v: Type, rest: seq<Token>)
    requires WfType(v, true)
    ensures ParseRecordBody(EmitRecordBody(k, v, rest)) == Some(Parsed(RecordType(k, v), rest))
    decreases v, 4
  {
    TypeRoundTrip(v, [Punct(CloseAngle)] + rest);
    RecordBodyRoundTrip(k, v, EmitType(v, [Punct(CloseAngle)] + rest), rest);
  }

  lemma RecordBodyRoundTrip(k: StringType, v: Type, value: seq<Token>, rest: seq<Token>)
    requires ParseType(value) == Some(Parsed(v, [Punct(CloseAngle)] + rest))
    ensures ParseRecordBody([Punct(OpenAngle)] + ([KeywordToken(StringTypeWord(k))] + ([Punct(Comma)] + value)))
      == Some(Parsed(RecordType(k, v), rest))
  {
    var key := [KeywordToken(StringTypeWord(k))] + ([Punct(Comma)] + value);
    ConsTail(Punct(OpenAngle), key);
    ConsTail(KeywordToken(StringTypeWord(k)), [Punct(Comma)] + value);
    ConsTail(Punct(Comma), value);
    ConsTail(Punct(CloseAngle), rest);
  }

  /** A one-keyword type prints as its keyword, which reads back as it. */
  lemma KeywordTypeRoundTrip(s: SingleType, rest: seq<Token>)
    requires IsKeywordType(s)
    ensures ParseNonNullableType(EmitSingleType(s, rest)) == Some(Parsed(s, rest))
  {
    var t := EmitSingleType(s, rest)[0];
    assert EmitSingleType(s, rest) == [t] + rest && TypeStartOf(t) == KeywordStart(s);
    ConsTail(t, rest);
    KeywordStep([t] + rest, s);
  }

  /** `Promise` is a type keyword that no single-type alternative takes. */
  lemma PromiseIsNotSingle(rest: seq<Token>)
    ensures ParseSingleType([KeywordToken(TypeWord(KwPromise))] + rest).None?
  {
    ConsTail(KeywordToken(TypeWord(KwPromise)), rest);
  }

  // ---------------------------------------------------------------------------
  // A parsed type prints back to the tokens it was parsed from

  /** The first token of a non-nullable single type is the one its printed
      form begins with. */
  lemma TypeStartInverse(t: Token, rest: seq<Token>)
    ensures TypeStartOf(t).KeywordStart? ==> EmitSingleType(TypeStartOf(t).single, rest) == [t] + rest
    ensures TypeStartOf(t).ArrayStart? ==> t == KeywordToken(TypeWord(TypeStartOf(t).arrayKeyword))
    ensures TypeStartOf(t).RecordStart? ==> t == KeywordToken(TypeWord(KwRecord))
    ensures TypeStartOf(t).PrimitiveStart? ==> t.KeywordToken? && t.keyword.PrimitiveWord?
  {
    if t.KeywordToken? && t.keyword.TypeWord? {
      match t.keyword.typeKeyword
      case KwObject =>
      case KwSymbol =>
      case KwAny =>
      case KwUndefined =>
      case _ =>
    }
  }

  lemma IntegerBasePrintsBack(ts: seq<Token>)
    requires ParseIntegerBase(ts).Some?
    ensures EmitIntegerBase(ParseIntegerBase(ts).value.value, ParseIntegerBase(ts).value.rest) == ts
  {
    Uncons(ts);
    if Next(ts, KeywordToken(PrimitiveWord(KwLong))) && Next(ts[1..], KeywordToken(PrimitiveWord(KwLong))) {
      Uncons(ts[1..]);
      assert ts[1..][1..] == ts[2..];
    }
  }

  lemma FloatBasePrintsBack(ts: seq<Token>)
    requires ParseFloatBase(ts).Some?
    ensures [KeywordToken(PrimitiveWord(FloatBaseKeyword(ParseFloatBase(ts).value.value)))] + ParseFloatBase(ts).value.rest == ts
  {
    Uncons(ts);
  }

  lemma PrimitivePrintsBack(ts: seq<Token>)
    requires ParsePrimitiveType(ts).Some?
    ensures EmitPrimitiveType(ParsePrimitiveType(ts).value.value, ParsePrimitiveType(ts).value.rest) == ts
  {
    Uncons(ts);
    if Next(ts, KeywordToken(PrimitiveWord(KwUnsigned))) {
      IntegerBasePrintsBack(ts[1..]);
    } else if Next(ts, KeywordToken(PrimitiveWord(KwUnrestricted))) {
      FloatBasePrintsBack(ts[1..]);
    } else if Next(ts, KeywordToken(PrimitiveWord(KwBoolean))) || Next(ts, KeywordToken(PrimitiveWord(KwByte)))
      || Next(ts, KeywordToken(PrimitiveWord(KwOctet))) || Next(ts, KeywordToken(PrimitiveWord(KwBigint))) {
    } else if Next(ts, KeywordToken(PrimitiveWord(KwFloat))) || Next(ts, KeywordToken(PrimitiveWord(KwDouble))) {
      FloatBasePrintsBack(ts);
    } else {
      IntegerBasePrintsBack(ts);
    }
  }

  lemma {:induction false} TypePrintsBack(ts: seq<Token>)
    requires ParseType(ts).Some?
    ensures EmitType(ParseType(ts).value.value, ParseType(ts).value.rest) == ts
    decreases |ts|, 3
  {
    Uncons(ts);
    if Next(ts, Punct(OpenParen)) {
      var members := ParseOrList(ts[1..]).value;
      OrListPrintsBack(ts[1..]);
      var after := members.rest[1..];
      Uncons(members.rest);
      if Next(after, Punct(Question)) {
        Uncons(after);
      }
    } else if Next(ts, KeywordToken(TypeWord(KwPromise))) {
      TypeArgumentPrintsBack(ts[1..]);
    } else {
      SingleTypePrintsBack(ts);
    }
  }

  lemma {:induction false} OrListPrintsBack(ts: seq<Token>)
    requires ParseOrList(ts).Some?
    ensures EmitOrList(ParseOrList(ts).value.value, ParseOrList(ts).value.rest) == ts
    decreases |ts|, 4
  {
    var first := ParseType(ts).value;
    TypePrintsBack(ts);
    if Next(first.rest, KeywordToken(OrWord)) {
      var more := ParseOrList(first.rest[1..]).value;
      OrListPrintsBack(first.rest[1..]);
      Uncons(first.rest);
      var ms := [first.value] + more.value;
      assert ms[0] == first.value && ms[1..] == more.value;
    }
  }

  lemma {:induction false} TypeArgumentPrintsBack(ts: seq<Token>)
    requires ParseTypeArgument(ts).Some?
    ensures EmitTypeArgument(ParseTypeArgument(ts).value.value, ParseTypeArgument(ts).value.rest) == ts
    decreases |ts|, 0
  {
    Uncons(ts);
    var t := ParseType(ts[1..]).value;
    TypePrintsBack(ts[1..]);
    Uncons(t.rest);
  }

  lemma {:induction false} SingleTypePrintsBack(ts: seq<Token>)
    requires ParseSingleType(ts).Some?
    ensures EmitSingleType(ParseSingleType(ts).value.value, ParseSingleType(ts).value.rest) == ts
    decreases |ts|, 2
  {
    var base := ParseNonNullableType(ts).value;
    var n := CountMarks(base.rest);
    NonNullablePrintsBack(ts);
    CountMarksSplits(base.rest);
    EmitWrap(base.value, n, base.rest[n..]);
  }

  lemma {:induction false} NonNullablePrintsBack(ts: seq<Token>)
    requires ParseNonNullableType(ts).Some?
    ensures EmitSingleType(ParseNonNullableType(ts).value.value, ParseNonNullableType(ts).value.rest) == ts
    decreases |ts|, 1
  {
    Uncons(ts);
    TypeStartInverse(ts[0], ts[1..]);
    match TypeStartOf(ts[0])
    case PrimitiveStart => PrimitivePrintsBack(ts);
    case KeywordStart(_) =>
    case ArrayStart(k) => TypeArgumentPrintsBack(ts[1..]);
    case RecordStart => RecordBodyPrintsBack(ts[1..]);
    case NameStart(_) =>
  }

  lemma {:induction false} RecordBodyPrintsBack(ts: seq<Token>)
    requires ParseRecordBody(ts).Some?
    ensures ParseRecordBody(ts).value.value.RecordType?
    ensures var r := ParseRecordBody(ts).value;
      EmitRecordBody(r.value.keyType, r.value.valueType, r.rest) == ts
    decreases |ts|, 0
  {
    Uncons(ts);
    var afterOpen := ts[1..];
    Uncons(afterOpen);
    var afterComma := afterOpen[1..][1..];
    Uncons(afterOpen[1..]);
    var v := ParseType(afterComma).value;
    TypePrintsBack(afterComma);
    Uncons(v.rest);
  }

  // ---------------------------------------------------------------------------
  // What the parser builds is well formed

  lemma {:induction false} ParsedTypeWf(ts: seq<Token>)
    requires ParseType(ts).Some?
    ensures WfType(ParseType(ts).value.value, false)
    decreases |ts|, 3
  {
    if Next(ts, Punct(OpenParen)) {
      ParsedOrListWf(ts[1..]);
    } else if Next(ts, KeywordToken(TypeWord(KwPromise))) {
      ParsedTypeArgumentWf(ts[1..]);
    } else {
      ParsedSingleTypeWf(ts);
    }
  }

  lemma {:induction false} ParsedOrListWf(ts: seq<Token>)
    requires ParseOrList(ts).Some?
    ensures WfTypes(ParseOrList(ts).value.value, false)
    decreases |ts|, 4
  {
    var first := ParseType(ts).value;
    ParsedTypeWf(ts);
    if Next(first.rest, KeywordToken(OrWord)) {
      var more := ParseOrList(first.rest[1..]).value;
      ParsedOrListWf(first.rest[1..]);
      var ms := [first.value] + more.value;
      assert forall i :: 1 <= i < |ms| ==> ms[i] == more.value[i - 1];
    }
  }

  lemma {:induction false} ParsedTypeArgumentWf(ts: seq<Token>)
    requires ParseTypeArgument(ts).Some?
    ensures WfType(ParseTypeArgument(ts).value.value, false)
    decreases |ts|, 0
  {
    ParsedTypeWf(ts[1..]);
  }

  lemma {:induction false} ParsedSingleTypeWf(ts: seq<Token>)
    requires ParseSingleType(ts).Some?
    ensures WfSingleType(ParseSingleType(ts).value.value, false)
    decreases |ts|, 2
  {
    var base := ParseNonNullableType(ts).value;
    ParsedNonNullableWf(ts);
    WrapWf(base.value, CountMarks(base.rest), false);
  }

  lemma {:induction false} ParsedNonNullableWf(ts: seq<Token>)
    requires ParseNonNullableType(ts).Some?
    ensures WfSingleType(ParseNonNullableType(ts).value.value, false)
    decreases |ts|, 1
  {
    match TypeStartOf(ts[0])
    case PrimitiveStart =>
    case KeywordStart(_) =>
    case ArrayStart(k) => ParsedTypeArgumentWf(ts[1..]);
    case RecordStart => ParsedRecordBodyWf(ts[1..]);
    case NameStart(_) =>
  }

  lemma {:induction false} ParsedRecordBodyWf(ts: seq<Token>)
    requires ParseRecordBody(ts).Some?
    ensures WfSingleType(ParseRecordBody(ts).value.value, false)
    decreases |ts|, 0
  {
    ParsedTypeWf(ts[1..][1..][1..]);
  }

  // ---------------------------------------------------------------------------
  // The first token of a printed type

  /** The tokens a printed type with plain names can begin with: never a
      keyword of the member or definition grammar, a literal, or a
      punctuator other than `(`. */
  predicate TypeLead(t: Token) {
    t.Word? || t == Punct(OpenParen) || (t.KeywordToken? && IsTypeKeyword(t.keyword))
  }

  lemma TypeLeads(t: Type, rest: seq<Token>)
    requires WfType(t, true)
    ensures TypeLead(EmitType(t, rest)[0])
  {
    if t.Single? {
      SingleTypeLeads(t.single, rest);
    }
  }

  lemma {:induction false} SingleTypeLeads(s: SingleType, rest: seq<Token>)
    requires WfSingleType(s, true)
    ensures TypeLead(EmitSingleType(s, rest)[0])
    decreases s
  {
    if s.NullableType? {
      SingleTypeLeads(s.inner, [Punct(Question)] + rest);
    }
  }
}
