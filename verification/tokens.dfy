/** The tokens the grammar is written over. Following the grammar's `word`
    declaration, every identifier-shaped lexeme is first read as a word and
    then, if it spells a keyword, as that keyword; a keyword token in a place
    where the grammar expects no keyword is read back as an identifier by the
    rules that take names. Whether a member keyword is expected depends on the
    container: in a mixin, `constructor` is a name. Keywords are grouped by
    the rules that use them. */
module Tokens {
  import opened Lexical
  import opened Wrappers

  /** The words that open a definition. */
  datatype DefinitionKeyword =
    | KwCallback | KwInterface | KwMixin | KwNamespace | KwPartial | KwDictionary | KwEnum
    | KwTypedef | KwIncludes

  /** The words of member declarations. */
  datatype MemberKeyword =
    | KwAttribute | KwConst | KwGetter | KwSetter | KwDeleter | KwStatic | KwStringifier
    | KwInherit | KwReadonly | KwIterable | KwAsync | KwMaplike | KwSetlike | KwConstructor
    | KwRequired | KwOptional

  /** The words that are literal values (`undefined`, also a value, is a type word). */
  datatype ValueKeyword =
    | KwTrue | KwFalse | KwNegativeInfinity | KwInfinity | KwNaN | KwNull

  /** The words of `primitive_type`. */
  datatype PrimitiveKeyword =
    | KwUnsigned | KwUnrestricted | KwShort | KwLong | KwFloat | KwDouble | KwBoolean | KwByte
    | KwOctet | KwBigint

  /** `string_type`: the node is the keyword itself. */
  datatype StringType =
    | ByteString | DOMString | USVString

  /** `buffer_related_type`: the node is the keyword itself. */
  datatype BufferType =
    | ArrayBuffer | SharedArrayBuffer | DataView | Int8Array | Int16Array | Int32Array
    | Uint8Array | Uint16Array | Uint32Array | Uint8ClampedArray | BigInt64Array
    | BigUint64Array | Float16Array | Float32Array | Float64Array

  /** The other words that begin a type. */
  datatype TypeKeyword =
    | KwPromise | KwRecord | KwSequence | KwFrozenArray | KwObservableArray | KwObject
    | KwSymbol | KwAny | KwUndefined

  datatype Keyword =
    | DefinitionWord(definition: DefinitionKeyword)
    | MemberWord(member: MemberKeyword)
    | ValueWord(value: ValueKeyword)
    | PrimitiveWord(primitive: PrimitiveKeyword)
    | StringTypeWord(stringType: StringType)
    | BufferTypeWord(bufferType: BufferType)
    | TypeWord(typeKeyword: TypeKeyword)
    | OrWord

  function DefinitionSpelling(x: DefinitionKeyword): string {
    match x
    case KwCallback => "callback"
    case KwInterface => "interface"
    case KwMixin => "mixin"
    case KwNamespace => "namespace"
    case KwPartial => "partial"
    case KwDictionary => "dictionary"
    case KwEnum => "enum"
    case KwTypedef => "typedef"
    case KwIncludes => "includes"
  }

  function MemberSpelling(x: MemberKeyword): string {
    match x
    case KwAttribute => "attribute"
    case KwConst => "const"
    case KwGetter => "getter"
    case KwSetter => "setter"
    case KwDeleter => "deleter"
    case KwStatic => "static"
    case KwStringifier => "stringifier"
    case KwInherit => "inherit"
    case KwReadonly => "readonly"
    case KwIterable => "iterable"
    case KwAsync => "async"
    case KwMaplike => "maplike"
    case KwSetlike => "setlike"
    case KwConstructor => "constructor"
    case KwRequired => "required"
    case KwOptional => "optional"
  }

  function ValueSpelling(x: ValueKeyword): string {
    match x
    case KwTrue => "true"
    case KwFalse => "false"
    case KwNegativeInfinity => "-Infinity"
    case KwInfinity => "Infinity"
    case KwNaN => "NaN"
    case KwNull => "null"
  }

  function PrimitiveSpelling(x: PrimitiveKeyword): string {
    match x
    case KwUnsigned => "unsigned"
    case KwUnrestricted => "unrestricted"
    case KwShort => "short"
    case KwLong => "long"
    case KwFloat => "float"
    case KwDouble => "double"
    case KwBoolean => "boolean"
    case KwByte => "byte"
    case KwOctet => "octet"
    case KwBigint => "bigint"
  }

  function StringTypeSpelling(x: StringType): string {
    match x
    case ByteString => "ByteString"
    case DOMString => "DOMString"
    case USVString => "USVString"
  }

  function BufferTypeSpelling(x: BufferType): string {
    match x
    case ArrayBuffer => "ArrayBuffer"
    case SharedArrayBuffer => "SharedArrayBuffer"
    case DataView => "DataView"
    case Int8Array => "Int8Array"
    case Int16Array => "Int16Array"
    case Int32Array => "Int32Array"
    case Uint8Array => "Uint8Array"
    case Uint16Array => "Uint16Array"
    case Uint32Array => "Uint32Array"
    case Uint8ClampedArray => "Uint8ClampedArray"
    case BigInt64Array => "BigInt64Array"
    case BigUint64Array => "BigUint64Array"
    case Float16Array => "Float16Array"
    case Float32Array => "Float32Array"
    case Float64Array => "Float64Array"
  }

  function TypeKeywordSpelling(x: TypeKeyword): string {
    match x
    case KwPromise => "Promise"
    case KwRecord => "record"
    case KwSequence => "sequence"
    case KwFrozenArray => "FrozenArray"
    case KwObservableArray => "ObservableArray"
    case KwObject => "object"
    case KwSymbol => "symbol"
    case KwAny => "any"
    case KwUndefined => "undefined"
  }

  function KeywordSpelling(k: Keyword): string {
    match k
    case DefinitionWord(x) => DefinitionSpelling(x)
    case MemberWord(x) => MemberSpelling(x)
    case ValueWord(x) => ValueSpelling(x)
    case PrimitiveWord(x) => PrimitiveSpelling(x)
    case StringTypeWord(x) => StringTypeSpelling(x)
    case BufferTypeWord(x) => BufferTypeSpelling(x)
    case TypeWord(x) => TypeKeywordSpelling(x)
    case OrWord => "or"
  }

  /** The words that begin a type other than a named one. */
  predicate IsTypeKeyword(k: Keyword) {
    k.PrimitiveWord? || k.StringTypeWord? || k.BufferTypeWord? || k.TypeWord?
  }

  /** The literal punctuation of the grammar; `[]` and `{}` are single tokens
      (the `empty_sequence` and `default_dictionary` defaults). */
  datatype Punctuator =
    | OpenBrace | CloseBrace | Semicolon | Colon | OpenParen | CloseParen
    | OpenAngle | CloseAngle | Comma | Equals | Question | OpenBracket
    | CloseBracket | EmptyBrackets | EmptyBraces

  function PunctuatorSpelling(p: Punctuator): string {
    match p
    case OpenBrace => "{"
    case CloseBrace => "}"
    case Semicolon => ";"
    case Colon => ":"
    case OpenParen => "("
    case CloseParen => ")"
    case OpenAngle => "<"
    case CloseAngle => ">"
    case Comma => ","
    case Equals => "="
    case Question => "?"
    case OpenBracket => "["
    case CloseBracket => "]"
    case EmptyBrackets => "[]"
    case EmptyBraces => "{}"
  }

  datatype Token =
    | Word(text: string)
    | KeywordToken(keyword: Keyword)
    | Punct(punctuator: Punctuator)
    | IntegerToken(text: string)
    | DecimalToken(text: string)
    | StringToken(text: string)

  /** The source text of a token. */
  function Spelling(t: Token): string {
    match t
    case Word(w) => w
    case KeywordToken(k) => KeywordSpelling(k)
    case Punct(p) => PunctuatorSpelling(p)
    case IntegerToken(x) => x
    case DecimalToken(x) => x
    case StringToken(x) => x
  }

  ghost predicate IsKeywordSpelling(w: string) {
    exists k :: KeywordSpelling(k) == w
  }

  /** A token the lexer can produce: a word is an identifier that spells no
      keyword, and a literal token's text belongs to its lexical class. */
  ghost predicate IsWellLexed(t: Token) {
    match t
    case Word(w) => IsIdentifier(w) && !IsKeywordSpelling(w)
    case IntegerToken(x) => IsInteger(x)
    case DecimalToken(x) => IsDecimal(x)
    case StringToken(x) => IsString(x)
    case _ => true
  }

  ghost predicate AllWellLexed(ts: seq<Token>) {
    forall i :: 0 <= i < |ts| ==> IsWellLexed(ts[i])
  }

  /** Every keyword has the shape of an identifier, which is why the grammar
      can lex all of them as its `word` token. */
  lemma KeywordsAreIdentifiers(k: Keyword)
    ensures IsIdentifier(KeywordSpelling(k))
  {
    match k
    case DefinitionWord(x) => DefinitionKeywordAreIdentifiers(x);
    case MemberWord(x) => MemberKeywordAreIdentifiers(x);
    case ValueWord(x) => ValueKeywordAreIdentifiers(x);
    case PrimitiveWord(x) => PrimitiveKeywordAreIdentifiers(x);
    case StringTypeWord(x) => StringTypeAreIdentifiers(x);
    case BufferTypeWord(x) => BufferTypeAreIdentifiers(x);
    case TypeWord(x) => TypeKeywordAreIdentifiers(x);
    case OrWord => assert IsIdentifier("or");
  }

  lemma DefinitionKeywordAreIdentifiers(x: DefinitionKeyword)
    ensures IsIdentifier(DefinitionSpelling(x))
  {
    Literals0AreIdentifiers();
    Literals1AreIdentifiers();
    Literals2AreIdentifiers();
    Literals3AreIdentifiers();
  }

  lemma Literals0AreIdentifiers()
    ensures IsIdentifier("callback")
         && IsIdentifier("interface")
         && IsIdentifier("mixin")
  {
  }

  lemma Literals1AreIdentifiers()
    ensures IsIdentifier("namespace")
         && IsIdentifier("partial")
  {
  }

  lemma Literals2AreIdentifiers()
    ensures IsIdentifier("dictionary")
         && IsIdentifier("enum")
         && IsIdentifier("typedef")
  {
  }

  lemma Literals3AreIdentifiers()
    ensures IsIdentifier("includes")
  {
  }

  lemma MemberKeywordAreIdentifiers(x: MemberKeyword)
    ensures IsIdentifier(MemberSpelling(x))
  {
    Literals4AreIdentifiers();
    Literals5AreIdentifiers();
    Literals6AreIdentifiers();
    Literals7AreIdentifiers();
    Literals8AreIdentifiers();
    Literals9AreIdentifiers();
    Literals10AreIdentifiers();
  }

  lemma Literals4AreIdentifiers()
    ensures IsIdentifier("attribute")
         && IsIdentifier("const")
         && IsIdentifier("getter")
  {
  }

  lemma Literals5AreIdentifiers()
    ensures IsIdentifier("setter")
         && IsIdentifier("deleter")
         && IsIdentifier("static")
  {
  }

  lemma Literals6AreIdentifiers()
    ensures IsIdentifier("stringifier")
         && IsIdentifier("inherit")
  {
  }

  lemma Literals7AreIdentifiers()
    ensures IsIdentifier("readonly")
         && IsIdentifier("iterable")
         && IsIdentifier("async")
  {
  }

  lemma Literals8AreIdentifiers()
    ensures IsIdentifier("maplike")
         && IsIdentifier("setlike")
  {
  }

  lemma Literals9AreIdentifiers()
    ensures IsIdentifier("constructor")
         && IsIdentifier("required")
  {
  }

  lemma Literals10AreIdentifiers()
    ensures IsIdentifier("optional")
  {
  }

  lemma ValueKeywordAreIdentifiers(x: ValueKeyword)
    ensures IsIdentifier(ValueSpelling(x))
  {
    Literals11AreIdentifiers();
    Literals12AreIdentifiers();
  }

  lemma Literals11AreIdentifiers()
    ensures IsIdentifier("true")
         && IsIdentifier("false")
         && IsIdentifier("-Infinity")
  {
  }

  lemma Literals12AreIdentifiers()
    ensures IsIdentifier("Infinity")
         && IsIdentifier("NaN")
         && IsIdentifier("null")
  {
  }

  lemma PrimitiveKeywordAreIdentifiers(x: PrimitiveKeyword)
    ensures IsIdentifier(PrimitiveSpelling(x))
  {
    Literals13AreIdentifiers();
    Literals14AreIdentifiers();
    Literals15AreIdentifiers();
  }

  lemma Literals13AreIdentifiers()
    ensures IsIdentifier("unsigned")
         && IsIdentifier("unrestricted")
  {
  }

  lemma Literals14AreIdentifiers()
    ensures IsIdentifier("short")
         && IsIdentifier("long")
         && IsIdentifier("float")
         && IsIdentifier("double")
  {
  }

  lemma Literals15AreIdentifiers()
    ensures IsIdentifier("boolean")
         && IsIdentifier("byte")
         && IsIdentifier("octet")
         && IsIdentifier("bigint")
  {
  }

  lemma StringTypeAreIdentifiers(x: StringType)
    ensures IsIdentifier(StringTypeSpelling(x))
  {
    Literals16AreIdentifiers();
    Literals17AreIdentifiers();
  }

  lemma Literals16AreIdentifiers()
    ensures IsIdentifier("ByteString")
         && IsIdentifier("DOMString")
  {
  }

  lemma Literals17AreIdentifiers()
    ensures IsIdentifier("USVString")
  {
  }

  lemma BufferTypeAreIdentifiers(x: BufferType)
    ensures IsIdentifier(BufferTypeSpelling(x))
  {
    Literals18AreIdentifiers();
    Literals19AreIdentifiers();
    Literals20AreIdentifiers();
    Literals21AreIdentifiers();
    Literals22AreIdentifiers();
    Literals23AreIdentifiers();
    Literals24AreIdentifiers();
    Literals25AreIdentifiers();
    Literals26AreIdentifiers();
    Literals27AreIdentifiers();
    Literals28AreIdentifiers();
    Literals29AreIdentifiers();
  }

  lemma Literals18AreIdentifiers()
    ensures IsIdentifier("ArrayBuffer")
  {
  }

  lemma Literals19AreIdentifiers()
    ensures IsIdentifier("SharedArrayBuffer")
  {
  }

  lemma Literals20AreIdentifiers()
    ensures IsIdentifier("DataView")
         && IsIdentifier("Int8Array")
  {
  }

  lemma Literals21AreIdentifiers()
    ensures IsIdentifier("Int16Array")
         && IsIdentifier("Int32Array")
  {
  }

  lemma Literals22AreIdentifiers()
    ensures IsIdentifier("Uint8Array")
         && IsIdentifier("Uint16Array")
  {
  }

  lemma Literals23AreIdentifiers()
    ensures IsIdentifier("Uint32Array")
  {
  }

  lemma Literals24AreIdentifiers()
    ensures IsIdentifier("Uint8ClampedArray")
  {
  }

  lemma Literals25AreIdentifiers()
    ensures IsIdentifier("BigInt64Array")
  {
  }

  lemma Literals26AreIdentifiers()
    ensures IsIdentifier("BigUint64Array")
  {
  }

  lemma Literals27AreIdentifiers()
    ensures IsIdentifier("Float16Array")
  {
  }

  lemma Literals28AreIdentifiers()
    ensures IsIdentifier("Float32Array")
  {
  }

  lemma Literals29AreIdentifiers()
    ensures IsIdentifier("Float64Array")
  {
  }

  lemma TypeKeywordAreIdentifiers(x: TypeKeyword)
    ensures IsIdentifier(TypeKeywordSpelling(x))
  {
    Literals30AreIdentifiers();
    Literals31AreIdentifiers();
    Literals32AreIdentifiers();
    Literals33AreIdentifiers();
  }

  lemma Literals30AreIdentifiers()
    ensures IsIdentifier("Promise")
         && IsIdentifier("record")
         && IsIdentifier("sequence")
  {
  }

  lemma Literals31AreIdentifiers()
    ensures IsIdentifier("FrozenArray")
  {
  }

  lemma Literals32AreIdentifiers()
    ensures IsIdentifier("ObservableArray")
         && IsIdentifier("object")
  {
  }

  lemma Literals33AreIdentifiers()
    ensures IsIdentifier("symbol")
         && IsIdentifier("any")
         && IsIdentifier("undefined")
  {
  }

  /** A rule's result together with the tokens after it. */
  datatype Parsed<+T> = Parsed(value: T, rest: seq<Token>)

  predicate Next(ts: seq<Token>, t: Token) {
    |ts| > 0 && ts[0] == t
  }

  /** Consumes the expected token `t`. */
  function Expect(ts: seq<Token>, t: Token): (r: Option<seq<Token>>)
    ensures r.Some? <==> Next(ts, t)
    ensures r.Some? ==> r.value == ts[1..]
  {
    if Next(ts, t) then Some(ts[1..]) else None
  }

  /** The first token and the rest of a non-empty stream. */
  lemma Uncons(ts: seq<Token>)
    requires |ts| > 0
    ensures ts == [ts[0]] + ts[1..]
  {
  }

  lemma ConsTail(t: Token, rest: seq<Token>)
    ensures Next([t] + rest, t) && ([t] + rest)[1..] == rest
  {
  }
}
