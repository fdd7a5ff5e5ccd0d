/** Constant and default values (`_const_value`, `_default_value`) and the
    type of a constant (`_const_type`). Literal nodes keep their lexeme, so a
    value prints to one token and is read back from that token. */
module ValueGrammar {
  import opened Wrappers
  import opened Tokens
  import opened Syntax
  import opened TypeGrammar

  // ---------------------------------------------------------------------------
  // Printing

  function ConstValueToken(v: ConstValue): Token {
    match v
    case BooleanLiteral(b) => KeywordToken(ValueWord(if b then KwTrue else KwFalse))
    case FloatValue(Decimal(x)) => DecimalToken(x)
    case FloatValue(NegativeInfinity) => KeywordToken(ValueWord(KwNegativeInfinity))
    case FloatValue(Infinity) => KeywordToken(ValueWord(KwInfinity))
    case FloatValue(NaN) => KeywordToken(ValueWord(KwNaN))
    case IntegerValue(x) => IntegerToken(x)
  }

  function DefaultValueToken(v: DefaultValue): Token {
    match v
    case ConstDefault(c) => ConstValueToken(c)
    case StringDefault(x) => StringToken(x)
    case EmptySequence => Punct(EmptyBrackets)
    case DefaultDictionary => Punct(EmptyBraces)
    case NullDefault => KeywordToken(ValueWord(KwNull))
    case UndefinedDefault => KeywordToken(TypeWord(KwUndefined))
  }

  /** `_const_type`: a primitive type or a name. */
  function EmitConstType(c: ConstType, rest: seq<Token>): (r: seq<Token>)
    ensures |r| > |rest|
  {
    match c
    case ConstPrimitive(p) => EmitPrimitiveType(p, rest)
    case ConstNamed(n) => [NameToken(n)] + rest
  }

  // ---------------------------------------------------------------------------
  // Parsing

  /** The constant a value word stands for; `null` is a value word that is
      no constant. */
  function ValueWordConstant(v: ValueKeyword): Option<ConstValue> {
    match v
    case KwTrue => Some(BooleanLiteral(true))
    case KwFalse => Some(BooleanLiteral(false))
    case KwNegativeInfinity => Some(FloatValue(NegativeInfinity))
    case KwInfinity => Some(FloatValue(Infinity))
    case KwNaN => Some(FloatValue(NaN))
    case KwNull => None
  }

  /** The constant value one token spells, if any. */
  function ConstValueOf(t: Token): Option<ConstValue> {
    match t
    case KeywordToken(k) => if k.ValueWord? then ValueWordConstant(k.value) else None
    case DecimalToken(x) => Some(FloatValue(Decimal(x)))
    case IntegerToken(x) => Some(IntegerValue(x))
    case _ => None
  }

  /** The default value one token spells, if any. */
  function DefaultValueOf(t: Token): Option<DefaultValue> {
    if t.StringToken? then Some(StringDefault(t.text))
    else if t == Punct(EmptyBrackets) then Some(EmptySequence)
    else if t == Punct(EmptyBraces) then Some(DefaultDictionary)
    else if t == KeywordToken(ValueWord(KwNull)) then Some(NullDefault)
    else if t == KeywordToken(TypeWord(KwUndefined)) then Some(UndefinedDefault)
    else
      var c :- ConstValueOf(t);
      Some(ConstDefault(c))
  }

  /** `_const_value`: a boolean, a float literal or an integer. */
  function ParseConstValue(ts: seq<Token>): (r: Option<Parsed<ConstValue>>)
    ensures r.Some? ==> |ts| > 0 && r.value.rest == ts[1..]
  {
    if |ts| == 0 then None
    else
      var v :- ConstValueOf(ts[0]);
      Some(Parsed(v, ts[1..]))
  }

  /** `_default_value`: a constant value, a string, `[]`, `{}`, `null` or
      `undefined`. */
  function ParseDefaultValue(ts: seq<Token>): (r: Option<Parsed<DefaultValue>>)
    ensures r.Some? ==> |ts| > 0 && r.value.rest == ts[1..]
  {
    if |ts| == 0 then None
    else
      var v :- DefaultValueOf(ts[0]);
      Some(Parsed(v, ts[1..]))
  }

  /** `_const_type`: a primitive keyword begins a primitive type, anything
      else that can be a name is one. */
  function ParseConstType(ts: seq<Token>): (r: Option<Parsed<ConstType>>)
    ensures r.Some? ==> |r.value.rest| < |ts|
  {
    if |ts| > 0 && ts[0].KeywordToken? && ts[0].keyword.PrimitiveWord? then
      var p :- ParsePrimitiveType(ts);
      Some(Parsed(ConstPrimitive(p.value), p.rest))
    else
      var n :- ParseName(ts);
      Some(Parsed(ConstNamed(n.value), n.rest))
  }

  // ---------------------------------------------------------------------------
  // Round trips

  /** Every constant value is read back from its token. */
  lemma ConstValueRoundTrip(v: ConstValue, rest: seq<Token>)
    ensures ParseConstValue([ConstValueToken(v)] + rest) == Some(Parsed(v, rest))
  {
    ConsTail(ConstValueToken(v), rest);
  }

  lemma DefaultValueRoundTrip(v: DefaultValue, rest: seq<Token>)
    ensures ParseDefaultValue([DefaultValueToken(v)] + rest) == Some(Parsed(v, rest))
  {
    ConsTail(DefaultValueToken(v), rest);
    if v.ConstDefault? {
      ConstValueRoundTrip(v.constValue, rest);
    }
  }

  /** The token a value is read from is the token it prints to. */
  lemma ConstValuePrintsBack(ts: seq<Token>)
    requires ParseConstValue(ts).Some?
    ensures [ConstValueToken(ParseConstValue(ts).value.value)] + ParseConstValue(ts).value.rest == ts
  {
    Uncons(ts);
  }

  lemma DefaultValuePrintsBack(ts: seq<Token>)
    requires ParseDefaultValue(ts).Some?
    ensures [DefaultValueToken(ParseDefaultValue(ts).value.value)] + ParseDefaultValue(ts).value.rest == ts
  {
    Uncons(ts);
    if ParseDefaultValue(ts).value.value.ConstDefault? {
      ConstValuePrintsBack(ts);
    }
  }

  lemma ConstTypeRoundTrip(c: ConstType, rest: seq<Token>)
    requires WfConstType(c, false) && !Next(rest, KeywordToken(PrimitiveWord(KwLong)))
    ensures ParseConstType(EmitConstType(c, rest)) == Some(Parsed(c, rest))
  {
    match c
    case ConstPrimitive(p) => PrimitiveRoundTrip(p, rest);
    case ConstNamed(n) => ConsTail(NameToken(n), rest);
  }

  lemma ConstTypePrintsBack(ts: seq<Token>)
    requires ParseConstType(ts).Some?
    ensures EmitConstType(ParseConstType(ts).value.value, ParseConstType(ts).value.rest) == ts
  {
    if |ts| > 0 && ts[0].KeywordToken? && ts[0].keyword.PrimitiveWord? {
      PrimitivePrintsBack(ts);
    } else {
      Uncons(ts);
    }
  }

  /** A constant's type is never a primitive keyword read as a name. */
  lemma ParsedConstTypeWf(ts: seq<Token>)
    requires ParseConstType(ts).Some?
    ensures WfConstType(ParseConstType(ts).value.value, false)
  {
  }
}
