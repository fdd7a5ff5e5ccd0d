/** The syntax tree of a WebIDL source: one datatype per grammar rule, with
    the grammar's supertypes (`_definition`, `_type`, `_single_type`, the
    member bodies, `_extended_attribute`, ...) as closed sum types, `Option`
    for every `optional(...)`, and `seq` for every `repeat`. Literal nodes keep
    their lexeme: the grammar gives them no value.

    The shape rules the datatypes cannot express are the `Wf` predicates.
    `Wf...(x, false)` is what every tree the parser builds satisfies: non-empty
    comma lists, unions of two or more members, the members each container
    allows, named types that are no type keyword. `Wf...(x, true)` adds that
    every name is a plain identifier rather than a keyword read as a name --
    the trees that print to tokens the parser reads back unchanged. */
module Syntax {
  import opened Wrappers
  import opened Tokens

  /** An `identifier` node. The lexer reads a keyword as that keyword; where
      the grammar expects no keyword it is taken as a name after all. */
  datatype Name = Identifier(text: string) | KeywordName(keyword: Keyword)

  // ---------------------------------------------------------------------------
  // Types

  datatype IntegerBase = Short | Long | LongLong

  datatype FloatBase = Float | Double

  datatype PrimitiveType =
    | IntegerType(unsigned: bool, integerBase: IntegerBase)
    | FloatType(unrestricted: bool, floatBase: FloatBase)
    | Boolean
    | Byte
    | Octet
    | Bigint

  /** `_type`: a single type, a union, or a promise. */
  datatype Type =
    | Single(single: SingleType)
    | UnionType(memberTypes: seq<Type>, nullable: bool)
    | PromiseType(resolveType: Type)

  /** `_single_type`. A nullable type wraps a single type only, so `?` after a
      union is the union's own flag and `Promise<T>?` has no tree. */
  datatype SingleType =
    | PrimitiveT(primitive: PrimitiveType)
    | StringT(stringType: StringType)
    | BufferT(buffer: BufferType)
    | Named(name: Name)
    | SequenceType(elementType: Type)
    | FrozenArrayType(elementType: Type)
    | ObservableArrayType(elementType: Type)
    | RecordType(keyType: StringType, valueType: Type)
    | ObjectType
    | SymbolType
    | NullableType(inner: SingleType)
    | AnyType
    | UndefinedType

  // ---------------------------------------------------------------------------
  // Literals and values

  /** `float_literal`: a decimal lexeme or one of three words. */
  datatype FloatLiteral = Decimal(text: string) | NegativeInfinity | Infinity | NaN

  /** `_const_value` */
  datatype ConstValue =
    | BooleanLiteral(b: bool)
    | FloatValue(float: FloatLiteral)
    | IntegerValue(text: string)

  /** `_default_value` */
  datatype DefaultValue =
    | ConstDefault(constValue: ConstValue)
    | StringDefault(text: string)
    | EmptySequence
    | DefaultDictionary
    | NullDefault
    | UndefinedDefault

  /** `_const_type` */
  datatype ConstType = ConstPrimitive(primitive: PrimitiveType) | ConstNamed(name: Name)

  // ---------------------------------------------------------------------------
  // Arguments and extended attributes

  datatype Argument = Argument(optional: bool, argumentType: Type, name: Name, defaultValue: Option<DefaultValue>)

  /** `argument_list` is `commaList(optional(argument))`: one or more slots,
      each of which may be empty, so `()` is a single empty slot. */
  type ArgumentList = seq<Option<Argument>>

  /** `_extended_attribute`: its five shapes. */
  datatype ExtendedAttribute =
    | NoArgs(name: Name)
    | ArgList(name: Name, arguments: ArgumentList)
    | Ident(name: Name, value: Name)
    | IdentList(name: Name, values: seq<Name>)
    | NamedArgList(name: Name, identifier: Name, arguments: ArgumentList)

  /** The optional `extended_attribute_list` in front of a construct. */
  type Annotations = Option<seq<ExtendedAttribute>>

  datatype TypeWithExtendedAttributes = Annotated(attributes: Annotations, annotatedType: Type)

  // ---------------------------------------------------------------------------
  // Members

  datatype RegularOperation = RegularOperation(returnType: Type, name: Option<Name>, arguments: ArgumentList)

  datatype Special = Getter | Setter | Deleter

  /** `_operation` */
  datatype Operation = Regular(regular: RegularOperation) | SpecialOperation(special: Special, operation: RegularOperation)

  /** `attribute`: `inherit` and `readonly` may both be present, in that order. */
  datatype Attribute = Attribute(inherit: bool, readonly: bool, attributeType: TypeWithExtendedAttributes, name: Name)

  datatype Const = Const(constType: ConstType, name: Name, value: ConstValue)

  /** `_static_member_body` */
  datatype StaticMemberBody = StaticAttribute(attribute: Attribute) | StaticOperation(operation: RegularOperation)

  /** The shared member vocabulary; `_interface_member_body`,
      `_mixin_member_body` and `_partial_interface_member_body` are the
      subsets `Allows` admits. A stringifier wraps an attribute or stands
      alone, and may be followed by one extra `;`. */
  datatype MemberBody =
    | ConstMember(constant: Const)
    | OperationMember(operation: Operation)
    | Stringifier(stringified: Option<Attribute>, extraSemicolon: bool)
    | StaticMember(staticBody: StaticMemberBody)
    | Iterable(keyType: Type, valueType: Option<Type>)
    | AsyncIterable(keyType: Type, valueType: Option<Type>, iteratorArguments: Option<ArgumentList>)
    | AttributeMember(attribute: Attribute)
    | Maplike(readonly: bool, keyType: Type, mapValueType: Type)
    | Setlike(readonly: bool, setValueType: Type)
    | Constructor(arguments: ArgumentList)

  datatype Member = Member(attributes: Annotations, body: MemberBody)

  /** The three containers whose members are drawn from `MemberBody`. */
  datatype Container = InterfaceBody | MixinBody | PartialInterfaceBody

  /** `_namespace_member`: no extended attributes of its own. */
  datatype NamespaceMember =
    | NamespaceOperation(operation: RegularOperation)
    | NamespaceAttribute(attribute: Attribute)
    | NamespaceConst(constant: Const)

  datatype DictionaryMember = DictionaryMember(
    attributes: Annotations, required: bool, memberType: Type, name: Name, defaultValue: Option<DefaultValue>)

  // ---------------------------------------------------------------------------
  // Definitions

  /** `_partial` */
  datatype Partial =
    | PartialInterface(attributes: Annotations, name: Name, members: seq<Member>)
    | PartialDictionary(attributes: Annotations, name: Name, dictionaryMembers: seq<DictionaryMember>)
    | PartialNamespace(attributes: Annotations, name: Name, namespaceMembers: seq<NamespaceMember>)

  /** `_definition`. An includes statement takes no extended attributes. */
  datatype Definition =
    | CallbackInterface(attributes: Annotations, name: Name, members: seq<Member>)
    | Interface(attributes: Annotations, name: Name, inherits: Option<Name>, members: seq<Member>)
    | Mixin(attributes: Annotations, name: Name, members: seq<Member>)
    | Namespace(attributes: Annotations, name: Name, namespaceMembers: seq<NamespaceMember>)
    | PartialDefinition(partial: Partial)
    | Dictionary(attributes: Annotations, name: Name, inherits: Option<Name>, dictionaryMembers: seq<DictionaryMember>)
    | Enum(attributes: Annotations, name: Name, values: seq<string>, trailingComma: bool)
    | Typedef(attributes: Annotations, typedefType: TypeWithExtendedAttributes, name: Name)
    | Includes(target: Name, mixin: Name)

  // ---------------------------------------------------------------------------
  // Well-formedness

  /** A name in a place where the grammar expects an `identifier`. */
  predicate NameOk(n: Name, plain: bool) {
    !plain || n.Identifier?
  }

  predicate WfType(t: Type, plain: bool) {
    match t
    case Single(s) => WfSingleType(s, plain)
    case UnionType(ms, _) => |ms| >= 2 && WfTypes(ms, plain)
    case PromiseType(r) => WfType(r, plain)
  }

  predicate WfTypes(ts: seq<Type>, plain: bool) {
    forall i :: 0 <= i < |ts| ==> WfType(ts[i], plain)
  }

  predicate WfSingleType(s: SingleType, plain: bool) {
    match s
    case Named(n) => !(n.KeywordName? && IsTypeKeyword(n.keyword)) && NameOk(n, plain)
    case SequenceType(e) => WfType(e, plain)
    case FrozenArrayType(e) => WfType(e, plain)
    case ObservableArrayType(e) => WfType(e, plain)
    case RecordType(_, v) => WfType(v, plain)
    case NullableType(inner) => WfSingleType(inner, plain)
    case _ => true
  }

  predicate WfConstType(c: ConstType, plain: bool) {
    match c
    case ConstPrimitive(_) => true
    case ConstNamed(n) => !(n.KeywordName? && n.keyword.PrimitiveWord?) && NameOk(n, plain)
  }

  predicate WfArgument(a: Argument, plain: bool) {
    WfType(a.argumentType, plain) && NameOk(a.name, plain)
  }

  predicate WfArgumentSlots(args: ArgumentList, plain: bool) {
    forall i :: 0 <= i < |args| ==> args[i].Some? ==> WfArgument(args[i].value, plain)
  }

  predicate WfArgumentList(args: ArgumentList, plain: bool) {
    |args| > 0 && WfArgumentSlots(args, plain)
  }

  predicate WfExtendedAttribute(x: ExtendedAttribute, plain: bool) {
    NameOk(x.name, plain) &&
    match x
    case NoArgs(_) => true
    case ArgList(_, args) => WfArgumentList(args, plain)
    case Ident(_, v) => NameOk(v, plain)
    case IdentList(_, vs) => |vs| > 0 && forall i :: 0 <= i < |vs| ==> NameOk(vs[i], plain)
    case NamedArgList(_, v, args) => NameOk(v, plain) && WfArgumentList(args, plain)
  }

  predicate WfExtendedAttributes(xs: seq<ExtendedAttribute>, plain: bool) {
    forall i :: 0 <= i < |xs| ==> WfExtendedAttribute(xs[i], plain)
  }

  predicate WfAnnotations(a: Annotations, plain: bool) {
    a.Some? ==> |a.value| > 0 && WfExtendedAttributes(a.value, plain)
  }

  predicate WfAnnotatedType(t: TypeWithExtendedAttributes, plain: bool) {
    WfAnnotations(t.attributes, plain) && WfType(t.annotatedType, plain)
  }

  predicate WfRegularOperation(op: RegularOperation, plain: bool) {
    && WfType(op.returnType, plain)
    && (op.name.Some? ==> NameOk(op.name.value, plain))
    && WfArgumentList(op.arguments, plain)
  }

  predicate WfAttribute(a: Attribute, plain: bool) {
    WfAnnotatedType(a.attributeType, plain) && NameOk(a.name, plain)
  }

  predicate WfConst(c: Const, plain: bool) {
    WfConstType(c.constType, plain) && NameOk(c.name, plain)
  }

  predicate WfOptionalType(t: Option<Type>, plain: bool) {
    t.Some? ==> WfType(t.value, plain)
  }

  predicate WfMemberBody(b: MemberBody, plain: bool) {
    match b
    case ConstMember(c) => WfConst(c, plain)
    case OperationMember(Regular(op)) => WfRegularOperation(op, plain)
    case OperationMember(SpecialOperation(_, op)) => WfRegularOperation(op, plain)
    case Stringifier(a, _) => a.Some? ==> WfAttribute(a.value, plain)
    case StaticMember(StaticAttribute(a)) => WfAttribute(a, plain)
    case StaticMember(StaticOperation(op)) => WfRegularOperation(op, plain)
    case Iterable(k, v) => WfType(k, plain) && WfOptionalType(v, plain)
    case AsyncIterable(k, v, args) =>
      WfType(k, plain) && WfOptionalType(v, plain) && (args.Some? ==> WfArgumentList(args.value, plain))
    case AttributeMember(a) => WfAttribute(a, plain)
    case Maplike(_, k, v) => WfType(k, plain) && WfType(v, plain)
    case Setlike(_, v) => WfType(v, plain)
    case Constructor(args) => WfArgumentList(args, plain)
  }

  /** Which member bodies each container admits: mixins have no iterable,
      async iterable or constructor, partial interfaces no constructor. */
  predicate Allows(c: Container, b: MemberBody) {
    match c
    case InterfaceBody => true
    case MixinBody => !(b.Iterable? || b.AsyncIterable? || b.Constructor?)
    case PartialInterfaceBody => !b.Constructor?
  }

  predicate WfMember(m: Member, c: Container, plain: bool) {
    WfAnnotations(m.attributes, plain) && Allows(c, m.body) && WfMemberBody(m.body, plain)
  }

  predicate WfMembers(ms: seq<Member>, c: Container, plain: bool) {
    forall i :: 0 <= i < |ms| ==> WfMember(ms[i], c, plain)
  }

  predicate WfNamespaceMember(m: NamespaceMember, plain: bool) {
    match m
    case NamespaceOperation(op) => WfRegularOperation(op, plain)
    case NamespaceAttribute(a) => WfAttribute(a, plain)
    case NamespaceConst(c) => WfConst(c, plain)
  }

  predicate WfNamespaceMembers(ms: seq<NamespaceMember>, plain: bool) {
    forall i :: 0 <= i < |ms| ==> WfNamespaceMember(ms[i], plain)
  }

  predicate WfDictionaryMember(m: DictionaryMember, plain: bool) {
    && WfAnnotations(m.attributes, plain)
    && WfType(m.memberType, plain)
    && NameOk(m.name, plain)
  }

  predicate WfDictionaryMembers(ms: seq<DictionaryMember>, plain: bool) {
    forall i :: 0 <= i < |ms| ==> WfDictionaryMember(ms[i], plain)
  }

  predicate WfPartial(p: Partial, plain: bool) {
    WfAnnotations(p.attributes, plain) && NameOk(p.name, plain) &&
    match p
    case PartialInterface(_, _, ms) => WfMembers(ms, PartialInterfaceBody, plain)
    case PartialDictionary(_, _, ms) => WfDictionaryMembers(ms, plain)
    case PartialNamespace(_, _, ms) => WfNamespaceMembers(ms, plain)
  }

  predicate WfInherits(i: Option<Name>, plain: bool) {
    i.Some? ==> NameOk(i.value, plain)
  }

  predicate WfDefinition(d: Definition, plain: bool) {
    match d
    case CallbackInterface(a, n, ms) => WfAnnotations(a, plain) && NameOk(n, plain) && WfMembers(ms, InterfaceBody, plain)
    case Interface(a, n, i, ms) =>
      WfAnnotations(a, plain) && NameOk(n, plain) && WfInherits(i, plain) && WfMembers(ms, InterfaceBody, plain)
    case Mixin(a, n, ms) => WfAnnotations(a, plain) && NameOk(n, plain) && WfMembers(ms, MixinBody, plain)
    case Namespace(a, n, ms) => WfAnnotations(a, plain) && NameOk(n, plain) && WfNamespaceMembers(ms, plain)
    case PartialDefinition(p) => WfPartial(p, plain)
    case Dictionary(a, n, i, ms) =>
      WfAnnotations(a, plain) && NameOk(n, plain) && WfInherits(i, plain) && WfDictionaryMembers(ms, plain)
    case Enum(a, n, vs, _) => WfAnnotations(a, plain) && NameOk(n, plain) && |vs| > 0
    case Typedef(a, t, n) => WfAnnotations(a, plain) && WfAnnotatedType(t, plain) && NameOk(n, plain)
    case Includes(t, m) => NameOk(t, plain) && NameOk(m, plain)
  }

  predicate WfDefinitions(ds: seq<Definition>, plain: bool) {
    forall i :: 0 <= i < |ds| ==> WfDefinition(ds[i], plain)
  }
}
