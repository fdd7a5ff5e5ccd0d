# WebIDL grammar, modelled in Dafny

A model of the tree-sitter grammar for WebIDL (`grammar.js`). It covers the
grammar's lexical classes and the abstract syntax of its definitions, members,
types and extended attributes. For that syntax it gives a printer and a
recursive-descent parser over tokens, and proves that the two are inverse to
each other.

- `lexical.dfy` (module `Lexical`): the `identifier`, `integer`, `decimal`,
  `string` and `comment` expressions as predicates over lexemes. It adds
  scanners for the longest identifier, the string at the start of a text and
  the block-comment automaton, plus the facts that set integers and decimals
  apart.
- `tokens.dfy` (module `Tokens`): a token is a word, a keyword, a punctuator,
  an integer, a decimal or a string. Every keyword's spelling is an
  identifier, which is why the grammar can use `identifier` as its `word`
  rule.
- `syntax.dfy` (module `Syntax`): one datatype per rule, plus well-formedness
  `Wf…(x, plain)`.
  - With `plain == false` it is what the grammar itself demands:
    - a union has two or more members
    - extended-attribute lists and identifier lists are non-empty
    - an argument list has at least one slot
    - an enum has at least one value
    - each container admits only its own member kinds
  - With `plain == true` it also demands that every name is a plain
    identifier rather than a keyword used as a name.
- `types.dfy`, `values.dfy`, `arguments.dfy`, `extended_attributes.dfy`,
  `members.dfy`, `definitions.dfy`: printers `EmitX(x, rest)` and parsers
  `ParseX(ts)` for the types, constants and default values, argument lists,
  extended attributes, members and definitions. Parsers return
  `Option<Parsed<X>>`: the value and the unread tokens.
- `member_proofs.dfy`, `definition_proofs.dfy`: round trips. Printing a
  well-formed value with plain names in front of any suitable continuation
  and parsing it gives the value and the continuation back.
- `member_parse_proofs.dfy`, `definition_parse_proofs.dfy`: the converse.
  Whatever the parser accepts prints back to exactly the tokens it read, and
  is well formed. Together with the round trips, this makes printing
  injective on well-formed plain trees, and every accepted sequence is the
  printing of the tree read from it. That tree may use keywords as names,
  so it need not be plain.
- `trailing_tokens.dfy` (module `TrailingTokens`), `source_concatenation.dfy`
  (module `SourceConcatenation`): tokens appended after a phrase do not change
  how the phrase is read. A parser looks at most one token past its phrase,
  and enum values two, so every such result that leaves tokens unread keeps
  its value when more tokens are appended. Each definition ends in `;`, so
  two sources written one after the other read as the definitions of the
  first followed by those of the second.

Where a prose description of the grammar differs from `grammar.js`, the
model follows `grammar.js`:

- `inherit` and `readonly` may qualify the same attribute, in that order.
- A stringifier may be followed by one more `;`.
- `()` is an argument list with one empty slot, since each comma-separated
  argument is optional.
- An includes statement takes no extended attributes.
- A mixin excludes async iterables as well as iterables and constructors.
- Which member keywords have a meaning depends on the container. In a mixin,
  `iterable`, `async` and `constructor` begin no member, and in a partial
  interface `constructor` begins none. There the word is read as the name of
  the operation's return type, so `constructor();` in a mixin is an
  operation.

## Model

| member | source | states |
|---|---|---|
| Lexical.LongestIdentifier | grammar.js:50 | returns the length of the longest prefix of the text that is an identifier (optional `_`/`-`, a letter, then letters, digits, `_`, `-`), and 0 when no prefix is one |
| Lexical.DigitRunIsNotDecimal | grammar.js:574-575 | a run of digits alone is never a decimal: a decimal needs a point next to a digit, or an exponent |
| Lexical.DecimalShape | grammar.js:574-575 | every decimal has a point with a digit beside it or ends in an exponent part |
| Lexical.DecimalChars | grammar.js:574-575 | a decimal lexeme is made only of digits, `.`, `E`/`e` and signs |
| Lexical.IntegerAndDecimalAreDisjoint | grammar.js:572-575 | no lexeme is both an integer and a decimal |
| Lexical.DigitRunInteger | grammar.js:572 | a digit run is an integer exactly when it does not start with 0 or is an octal run after its leading 0 |
| Lexical.ScanString | grammar.js:577 | finds the only prefix that is a string: from the opening quote to the first closing quote, with no quote inside |
| Lexical.MatchBlockComment | grammar.js:579-582 | the block-comment automaton accepts exactly `/*`, text without `*/`, `*/` |
| Tokens.KeywordsAreIdentifiers | grammar.js:26 | the spelling of every keyword of the grammar matches the identifier expression |
| TypeGrammar.TypeRoundTrip | grammar.js:417-418 | a well-formed type printed before a token that cannot continue a type parses back to itself |
| TypeGrammar.UnionRoundTrip | grammar.js:437-446 | a union of two or more types, with or without its own `?`, parses back to itself |
| TypeGrammar.SingleMarksRoundTrip | grammar.js:508-509 | a single type followed by k question marks parses as that type wrapped k times in nullable |
| TypeGrammar.NonNullableRoundTrip | grammar.js:420-435 | each single-type alternative other than nullable parses back to itself |
| TypeGrammar.PrimitiveRoundTrip | grammar.js:448-468 | every primitive type, including `unsigned long long` and `unrestricted double`, parses back to itself |
| TypeGrammar.RecordTypeRoundTrip | grammar.js:478-489 | `record<K, V>` parses back with K one of the string types |
| TypeGrammar.GenericTypeRoundTrip | grammar.js:491-507 | `sequence`, `FrozenArray` and `ObservableArray` take exactly one type argument and parse back to themselves |
| TypeGrammar.PromiseIsNotSingle | grammar.js:420-435 | `Promise` does not begin a single type, so a promise can be neither nullable nor the inner type of `?` |
| TypeGrammar.TypePrintsBack | grammar.js:417-418 | an accepted type prints back to exactly the tokens it was read from |
| TypeGrammar.ParsedTypeWf | grammar.js:437-446 | every union the parser accepts has at least two members |
| ValueGrammar.ConstValueRoundTrip | grammar.js:283-287 | a boolean, float literal or integer token parses back to the same constant value |
| ValueGrammar.DefaultValueRoundTrip | grammar.js:342-353 | each default value (constant, string, `[]`, `{}`, `null`, `undefined`) parses back to itself |
| ValueGrammar.ConstTypeRoundTrip | grammar.js:281 | a constant's type, primitive or named (keyword names included), parses back to itself unless the next token is `long`, which would extend it |
| ArgumentGrammar.ArgumentRoundTrip | grammar.js:333-339 | an argument with its optional `optional`, type, name and optional default parses back to itself |
| ArgumentGrammar.ArgumentListRoundTrip | grammar.js:330-331 | a parenthesised list of slots, each an argument or empty, parses back to itself |
| ArgumentGrammar.EmptyParensIsOneEmptySlot | grammar.js:330-331 | `()` reads as a list of one empty slot |
| ArgumentGrammar.ArgumentListPrintsBack | grammar.js:330-331 | an accepted argument list prints back to its tokens |
| ArgumentGrammar.ParsedArgumentListWf | grammar.js:586-588 | an accepted argument list has at least one slot |
| ExtendedAttributeGrammar.ExtendedAttributeRoundTrip | grammar.js:534-569 | each of the five extended-attribute forms parses back to itself |
| ExtendedAttributeGrammar.ExtendedAttributesRoundTrip | grammar.js:531-532 | a non-empty comma list of extended attributes parses back to itself up to the `]` |
| ExtendedAttributeGrammar.AnnotationsRoundTrip | grammar.js:590-592 | an optional bracketed extended-attribute list parses back to itself |
| ExtendedAttributeGrammar.AnnotatedTypeRoundTrip | grammar.js:260-261 | a type with its own extended attributes parses back to itself |
| ExtendedAttributeGrammar.ExtendedAttributePrintsBack | grammar.js:534-569 | an accepted extended attribute prints back to its tokens |
| ExtendedAttributeGrammar.ParsedAnnotationsWf | grammar.js:531-532 | an accepted extended-attribute list is non-empty |
| MemberProofs.ConstRoundTrip | grammar.js:271-279 | `const` type name `=` value `;` parses back to the constant, for keyword names too, except the name `long` |
| MemberProofs.AttributeRoundTrip | grammar.js:292-300 | an attribute parses back with its `inherit` and `readonly` flags, in any combination |
| MemberProofs.RegularOperationRoundTrip | grammar.js:303-312 | an operation parses back, with or without a name |
| MemberProofs.StringifierRoundTrip | grammar.js:355-360 | a stringifier of an attribute or of `;`, with or without the extra `;`, parses back to itself |
| MemberProofs.StaticRoundTrip | grammar.js:363-365 | a static attribute or static operation parses back to itself |
| MemberProofs.IterableRoundTrip | grammar.js:368-376 | `iterable<K>` and `iterable<K, V>` parse back to themselves |
| MemberProofs.AsyncIterableRoundTrip | grammar.js:378-388 | an async iterable with one or two types, with or without arguments, parses back to itself |
| MemberProofs.MaplikeRoundTrip | grammar.js:394-404 | a maplike, read-only or not, parses back with both its types |
| MemberProofs.SetlikeRoundTrip | grammar.js:406-414 | a setlike, read-only or not, parses back with its type |
| MemberProofs.ConstructorRoundTrip | grammar.js:327-328 | `constructor` arguments `;` parses back to the constructor |
| MemberProofs.MemberBodyRoundTrip | grammar.js:111-123 | every member body alternative parses back to itself |
| MemberProofs.MemberRoundTrip | grammar.js:104-108 | a member with its own extended attributes, allowed in its container, parses back to itself |
| MemberProofs.MembersRoundTrip | grammar.js:95-102 | a container's member list parses back to itself, stopping at `}` |
| MemberProofs.NamespaceMembersRoundTrip | grammar.js:154 | a namespace's operations, attributes and constants parse back to themselves |
| MemberProofs.DictionaryMemberRoundTrip | grammar.js:214-222 | a dictionary member with `required`, type, name and default parses back to itself |
| MemberProofs.DictionaryMembersRoundTrip | grammar.js:211-212 | a dictionary's member list parses back to itself |
| MemberParseProofs.AttributePrintsBack | grammar.js:292-300 | an accepted attribute prints back to its tokens, modifiers in their source order |
| MemberParseProofs.ReadonlyInheritRejected | grammar.js:292-300 | `readonly inherit` begins neither an attribute nor any member |
| MemberParseProofs.StringifierTakesExtraSemicolon | grammar.js:355-360 | `stringifier ; ;` is one member that takes both semicolons |
| MemberProofs.BodyOpens | grammar.js:125-141 | a member body a container admits begins with a token that selects a member in that container, never one that the container reads as a type name |
| MemberParseProofs.MemberBodyInPrintsBack | grammar.js:111-141 | an accepted member body of a container prints back to its tokens, is well formed and is of a kind the container admits |
| MemberParseProofs.ConstructorWordByContainer | grammar.js:111-141 | `constructor ( ) ;` is a constructor in an interface but an unnamed operation returning type `constructor` in a mixin or a partial interface |
| MemberParseProofs.MemberBodyPrintsBack | grammar.js:111-123 | an accepted member body prints back to its tokens and is well formed |
| MemberParseProofs.MemberPrintsBack | grammar.js:104-108 | an accepted member prints back to its tokens, is well formed and is allowed in its container |
| MemberParseProofs.MembersPrintsBack | grammar.js:95-102 | an accepted member list prints back to its tokens and every member is allowed in the container |
| MemberParseProofs.NamespaceMembersPrintsBack | grammar.js:154 | an accepted namespace member list prints back to its tokens |
| MemberParseProofs.DictionaryMembersPrintsBack | grammar.js:211-222 | an accepted dictionary member list prints back to its tokens |
| DefinitionProofs.InheritanceRoundTrip | grammar.js:93 | an optional `:` and inherited name parse back to themselves |
| DefinitionProofs.EnumValuesRoundTrip | grammar.js:244-249 | a non-empty list of enum strings parses back with or without its trailing comma |
| DefinitionProofs.CallbackRoundTrip | grammar.js:66-73 | `callback interface` name and members parse back to the callback interface |
| DefinitionProofs.InterfaceRoundTrip | grammar.js:75-82 | an interface with or without inheritance parses back to itself |
| DefinitionProofs.MixinRoundTrip | grammar.js:84-91 | `interface mixin` name and mixin members parse back to the mixin |
| DefinitionProofs.NamespaceRoundTrip | grammar.js:143-152 | a namespace parses back to itself |
| DefinitionProofs.PartialRoundTrip | grammar.js:156-231 | each of the three partial definitions parses back to itself: partial namespace and partial interface (156-181) and partial dictionary (224-231) |
| DefinitionProofs.DictionaryRoundTrip | grammar.js:202-209 | a dictionary with or without inheritance parses back to itself |
| DefinitionProofs.EnumRoundTrip | grammar.js:233-242 | an enum parses back to itself, trailing comma included |
| DefinitionProofs.TypedefRoundTrip | grammar.js:251-258 | a typedef of a type with extended attributes parses back to itself |
| DefinitionProofs.IncludesRoundTrip | grammar.js:263-269 | `target includes mixin ;` parses back to itself |
| DefinitionProofs.DefinitionBodyRoundTrip | grammar.js:53-64 | the token after a definition's extended attributes selects the alternative that reads the definition back |
| DefinitionProofs.DefinitionRoundTrip | grammar.js:53-64 | a well-formed definition with its extended attributes parses back to itself |
| DefinitionProofs.SourceRoundTrip | grammar.js:48 | a printed list of well-formed definitions parses back to exactly that list, taking every token |
| TrailingTokens.TypeAppend | grammar.js:417-446 | a type that leaves a token unread reads the same, with the same unread tokens followed by the appended ones, when tokens are appended |
| TrailingTokens.ArgumentListAppend | grammar.js:330-339 | an argument list, which ends in `)`, reads the same whatever tokens are appended after it |
| TrailingTokens.AnnotationsAppend | grammar.js:531-532 | an optional extended-attribute list that leaves a token unread reads the same when tokens are appended |
| TrailingTokens.MemberAfterAppend | grammar.js:111-123 | a member body that leaves a token unread reads the same when tokens are appended; only the stringifier looks past its own `;` |
| TrailingTokens.MembersAppend | grammar.js:95-102 | a member list, which stops at `}`, reads the same whatever tokens are appended |
| SourceConcatenation.EnumValuesAppend | grammar.js:244-249 | enum values that leave a token unread read the same when tokens are appended, although they look two tokens ahead |
| SourceConcatenation.DefinitionAppend | grammar.js:53-64 | a definition reads the same whatever tokens are appended after it |
| SourceConcatenation.DefinitionsAppend | grammar.js:48 | definitions read from two token sequences one after the other are those of the first followed by those of the second |
| SourceConcatenation.SourceConcat | grammar.js:48 | two accepted sources concatenated are accepted, and read as the first's definitions followed by the second's |
| DefinitionParseProofs.EnumValuesPrintsBack | grammar.js:244-249 | accepted enum values print back to their tokens, trailing comma included |
| DefinitionParseProofs.MembersBodyPrintsBack | grammar.js:95-102 | an accepted `{` members `}` `;` prints back to its tokens |
| DefinitionParseProofs.PartialPrintsBack | grammar.js:156-231 | an accepted partial interface, dictionary or namespace prints back to its tokens |
| DefinitionParseProofs.DefinitionAfterPrintsBack | grammar.js:53-64 | the alternative selected by a definition's first token prints back to its tokens |
| DefinitionParseProofs.DefinitionPrintsBack | grammar.js:53-64 | an accepted definition prints back to its tokens and is well formed |
| DefinitionParseProofs.SourcePrintsBack | grammar.js:48 | an accepted source is the printing of the definitions read from it, and they are well formed |
| DefinitionParseProofs.MembersBodyCloses | grammar.js:95-102 | the member list of an interface, callback interface, mixin or partial interface is followed by `}` `;` |
| DefinitionParseProofs.NamespaceBodyCloses | grammar.js:143-152 | a namespace's member list is followed by `}` `;` |
| DefinitionParseProofs.DictionaryBodyCloses | grammar.js:211-212 | a dictionary's member list is followed by `}` `;` |
| DefinitionParseProofs.EnumCloses | grammar.js:233-242 | an enum's values, with or without a trailing comma, are followed by `}` `;` |
| DefinitionParseProofs.ParsedIncludesUnannotated | grammar.js:263-269 | an accepted includes statement begins with its target name, never with `[` |
| DefinitionParseProofs.ParsedMembersAllowed | grammar.js:125-200 | a parsed mixin has no iterable, async iterable or constructor; a parsed partial interface has no constructor |

## Left out

- Package.swift: the Swift package manifest describes no grammar.
- Precedences and conflict resolution (grammar.js:4-19): the generated LR/GLR
  tables are not modelled. The model's parser is deterministic and decides
  each choice from the next token.
- The `extras` (grammar.js:24): the model parses a token sequence, so
  whitespace and comments between tokens are not modelled. Turning characters
  into tokens is modelled only through the lexeme predicates and scanners of
  `Lexical`.
- The node types and field names of the produced tree (grammar.js:28-45):
  supertypes, field names, node positions, error recovery and incremental
  re-parsing are not modelled. The model's syntax trees are plain datatypes.
- Float literals are not given a numeric value. A decimal token keeps its
  text, and `Infinity`, `-Infinity` and `NaN` are keywords.
- Semantic checks, such as an includes target naming a real interface, are
  outside the grammar.
- Names that are keywords: tree-sitter's keyword extraction lets a keyword
  stand where an identifier is expected when the context gives it no meaning.
  The parser approximates this: it first tests the keywords meaningful at a
  position, then reads any keyword token as a name. Where a keyword is
  meaningful it wins, so an interface named `mixin` is read as the start of
  a mixin. For member keywords, "meaningful" depends on the container, as
  described above.
- DefinitionProofs.SourceRoundTrip: requires every name to be a plain
  identifier (`Wf…(x, true)`), because a name spelled as a keyword prints to
  a keyword token that the parser may read as that keyword.
- DefinitionProofs.DefinitionRoundTrip: same plain-name requirement as
  SourceRoundTrip.
- MemberProofs.MembersRoundTrip: same plain-name requirement as
  SourceRoundTrip.
- TypeGrammar.TypeRoundTrip: same plain-name requirement as
  SourceRoundTrip. It also requires the following token not to continue a
  type (`EndsType`).
- TypeGrammar.UnionRoundTrip: same plain-name requirement as SourceRoundTrip.
- TypeGrammar.SingleMarksRoundTrip: same plain-name requirement as SourceRoundTrip.
- TypeGrammar.NonNullableRoundTrip: same plain-name requirement as SourceRoundTrip.
- TypeGrammar.RecordTypeRoundTrip: same plain-name requirement as SourceRoundTrip.
- TypeGrammar.GenericTypeRoundTrip: same plain-name requirement as SourceRoundTrip.
- ArgumentGrammar.ArgumentRoundTrip: same plain-name requirement as SourceRoundTrip.
- ArgumentGrammar.ArgumentListRoundTrip: same plain-name requirement as SourceRoundTrip.
- ExtendedAttributeGrammar.ExtendedAttributeRoundTrip: same plain-name requirement as SourceRoundTrip.
- ExtendedAttributeGrammar.ExtendedAttributesRoundTrip: same plain-name requirement as SourceRoundTrip.
- ExtendedAttributeGrammar.AnnotationsRoundTrip: same plain-name requirement as SourceRoundTrip.
- ExtendedAttributeGrammar.AnnotatedTypeRoundTrip: same plain-name requirement as SourceRoundTrip.
- MemberProofs.ConstRoundTrip: admits keyword names except a constant named `long`. After a type that ends in `long`, that name is read as the second word of `long long`.
- MemberProofs.AttributeRoundTrip: same plain-name requirement as SourceRoundTrip.
- MemberProofs.RegularOperationRoundTrip: same plain-name requirement as SourceRoundTrip.
- MemberProofs.StringifierRoundTrip: same plain-name requirement as SourceRoundTrip.
- MemberProofs.StaticRoundTrip: same plain-name requirement as SourceRoundTrip.
- MemberProofs.IterableRoundTrip: same plain-name requirement as SourceRoundTrip.
- MemberProofs.AsyncIterableRoundTrip: same plain-name requirement as SourceRoundTrip.
- MemberProofs.MaplikeRoundTrip: same plain-name requirement as SourceRoundTrip.
- MemberProofs.SetlikeRoundTrip: same plain-name requirement as SourceRoundTrip.
- MemberProofs.ConstructorRoundTrip: same plain-name requirement as SourceRoundTrip.
- MemberProofs.MemberBodyRoundTrip: same plain-name requirement as SourceRoundTrip.
- MemberProofs.MemberRoundTrip: same plain-name requirement as SourceRoundTrip.
- MemberProofs.NamespaceMembersRoundTrip: same plain-name requirement as SourceRoundTrip.
- MemberProofs.DictionaryMemberRoundTrip: same plain-name requirement as SourceRoundTrip.
- MemberProofs.DictionaryMembersRoundTrip: same plain-name requirement as SourceRoundTrip.
- DefinitionProofs.InheritanceRoundTrip: same plain-name requirement as SourceRoundTrip.
- DefinitionProofs.CallbackRoundTrip: same plain-name requirement as SourceRoundTrip.
- DefinitionProofs.InterfaceRoundTrip: same plain-name requirement as SourceRoundTrip.
- DefinitionProofs.MixinRoundTrip: same plain-name requirement as SourceRoundTrip.
- DefinitionProofs.NamespaceRoundTrip: same plain-name requirement as SourceRoundTrip.
- DefinitionProofs.PartialRoundTrip: same plain-name requirement as SourceRoundTrip.
- DefinitionProofs.DictionaryRoundTrip: same plain-name requirement as SourceRoundTrip.
- DefinitionProofs.EnumRoundTrip: same plain-name requirement as SourceRoundTrip.
- DefinitionProofs.TypedefRoundTrip: same plain-name requirement as SourceRoundTrip.
- DefinitionProofs.IncludesRoundTrip: same plain-name requirement as SourceRoundTrip.
- DefinitionProofs.DefinitionBodyRoundTrip: same plain-name requirement as SourceRoundTrip.
- Comment placement: `IsComment` classifies comment lexemes, but comments are
  not attached to syntax nodes.
