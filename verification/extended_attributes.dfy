/** Extended attributes: the bracketed annotation list in front of
    definitions, members and types. After its name an attribute takes `=`
    and an identifier list in parentheses, `=` and one identifier (with an
    argument list after it or not), an argument list, or nothing. */
module ExtendedAttributeGrammar {
  import opened Wrappers
  import opened Tokens
  import opened Syntax
  import opened TypeGrammar
  import opened ArgumentGrammar

  // ---------------------------------------------------------------------------
  // Printing

  /** Names separated by commas. */
  function EmitNames(ns: seq<Name>, rest: seq<Token>): (r: seq<Token>)
    ensures |r| >= |rest|
  {
    if |ns| == 0 then rest
    else if |ns| == 1 then [NameToken(ns[0])] + rest
    else [NameToken(ns[0])] + ([Punct(Comma)] + EmitNames(ns[1..], rest))
  }

  function EmitExtendedAttribute(x: ExtendedAttribute, rest: seq<Token>): (r: seq<Token>)
    ensures |r| > |rest|
  {
    [NameToken(x.name)] +
    match x
    case NoArgs(_) => rest
    case ArgList(_, args) => EmitArgumentList(args, rest)
    case Ident(_, v) => [Punct(Equals)] + ([NameToken(v)] + rest)
    case IdentList(_, vs) => [Punct(Equals)] + ([Punct(OpenParen)] + EmitNames(vs, [Punct(CloseParen)] + rest))
    case NamedArgList(_, v, args) => [Punct(Equals)] + ([NameToken(v)] + EmitArgumentList(args, rest))
  }

  function EmitExtendedAttributes(xs: seq<ExtendedAttribute>, rest: seq<Token>): (r: seq<Token>)
    ensures |r| >= |rest|
  {
    if |xs| == 0 then rest
    else if |xs| == 1 then EmitExtendedAttribute(xs[0], rest)
    else EmitExtendedAttribute(xs[0], [Punct(Comma)] + EmitExtendedAttributes(xs[1..], rest))
  }

  /** `extended_attribute_list`, when there is one. */
  function EmitAnnotations(a: Annotations, rest: seq<Token>): (r: seq<Token>)
    ensures |r| >= |rest|
  {
    match a
    case None => rest
    case Some(xs) => [Punct(OpenBracket)] + EmitExtendedAttributes(xs, [Punct(CloseBracket)] + rest)
  }

  /** `type_with_extended_attributes` */
  function EmitAnnotatedType(t: TypeWithExtendedAttributes, rest: seq<Token>): (r: seq<Token>)
    ensures |r| > |rest|
  {
    EmitAnnotations(t.attributes, EmitType(t.annotatedType, rest))
  }

  // ---------------------------------------------------------------------------
  // Parsing

  function ParseNames(ts: seq<Token>): (r: Option<Parsed<seq<Name>>>)
    ensures r.Some? ==> |r.value.rest| < |ts| && |r.value.value| > 0
    decreases |ts|
  {
    var n :- ParseName(ts);
    if Next(n.rest, Punct(Comma)) then
      var more :- ParseNames(n.rest[1..]);
      Some(Parsed([n.value] + more.value, more.rest))
    else
      Some(Parsed([n.value], n.rest))
  }

  /** What follows `name =`: a parenthesised identifier list, or an
      identifier with or without an argument list. */
  function ParseAssigned(name: Name, ts: seq<Token>): (r: Option<Parsed<ExtendedAttribute>>)
    ensures r.Some? ==> |r.value.rest| < |ts|
  {
    if Next(ts, Punct(OpenParen)) then
      var vs :- ParseNames(ts[1..]);
      var afterClose :- Expect(vs.rest, Punct(CloseParen));
      Some(Parsed(IdentList(name, vs.value), afterClose))
    else
      var v :- ParseName(ts);
      if Next(v.rest, Punct(OpenParen)) then
        var args :- ParseArgumentList(v.rest);
        Some(Parsed(NamedArgList(name, v.value, args.value), args.rest))
      else
        Some(Parsed(Ident(name, v.value), v.rest))
  }

  function ParseExtendedAttribute(ts: seq<Token>): (r: Option<Parsed<ExtendedAttribute>>)
    ensures r.Some? ==> |r.value.rest| < |ts|
  {
    var n :- ParseName(ts);
    if Next(n.rest, Punct(Equals)) then
      ParseAssigned(n.value, n.rest[1..])
    else if Next(n.rest, Punct(OpenParen)) then
      var args :- ParseArgumentList(n.rest);
      Some(Parsed(ArgList(n.value, args.value), args.rest))
    else
      Some(Parsed(NoArgs(n.value), n.rest))
  }

  function ParseExtendedAttributes(ts: seq<Token>): (r: Option<Parsed<seq<ExtendedAttribute>>>)
    ensures r.Some? ==> |r.value.rest| < |ts| && |r.value.value| > 0
    decreases |ts|
  {
    var x :- ParseExtendedAttribute(ts);
    if Next(x.rest, Punct(Comma)) then
      var more :- ParseExtendedAttributes(x.rest[1..]);
      Some(Parsed([x.value] + more.value, more.rest))
    else
      Some(Parsed([x.value], x.rest))
  }

  /** An optional `extended_attribute_list`: present exactly when the next
      token is `[`. */
  function ParseAnnotations(ts: seq<Token>): (r: Option<Parsed<Annotations>>)
    ensures r.Some? ==> |r.value.rest| <= |ts|
    ensures r.Some? && r.value.value.None? ==> r.value.rest == ts
  {
    if Next(ts, Punct(OpenBracket)) then
      var xs :- ParseExtendedAttributes(ts[1..]);
      var afterClose :- Expect(xs.rest, Punct(CloseBracket));
      Some(Parsed(Some(xs.value), afterClose))
    else
      Some(Parsed(None, ts))
  }

  function ParseAnnotatedType(ts: seq<Token>): (r: Option<Parsed<TypeWithExtendedAttributes>>)
    ensures r.Some? ==> |r.value.rest| < |ts|
  {
    var a :- ParseAnnotations(ts);
    var t :- ParseType(a.rest);
    Some(Parsed(Annotated(a.value, t.value), t.rest))
  }

  // ---------------------------------------------------------------------------
  // Round trips

  lemma {:induction false} NamesRoundTrip(ns: seq<Name>, rest: seq<Token>)
    requires |ns| > 0 && (forall i :: 0 <= i < |ns| ==> NameOk(ns[i], true)) && !Next(rest, Punct(Comma))
    ensures ParseNames(EmitNames(ns, rest)) == Some(Parsed(ns, rest))
    decreases |ns|
  {
    ConsTail(NameToken(ns[0]), rest);
    if |ns| == 1 {
      assert [ns[0]] == ns;
    } else {
      var more := EmitNames(ns[1..], rest);
      ConsTail(NameToken(ns[0]), [Punct(Comma)] + more);
      ConsTail(Punct(Comma), more);
      NamesRoundTrip(ns[1..], rest);
      assert [ns[0]] + ns[1..] == ns;
    }
  }

  /** The tokens that can follow an extended attribute: a comma or the
      closing bracket of the list. */
  predicate EndsAttribute(rest: seq<Token>) {
    Next(rest, Punct(Comma)) || Next(rest, Punct(CloseBracket))
  }

  lemma ExtendedAttributeRoundTrip(x: ExtendedAttribute, rest: seq<Token>)
    requires WfExtendedAttribute(x, true) && EndsAttribute(rest)
    ensures ParseExtendedAttribute(EmitExtendedAttribute(x, rest)) == Some(Parsed(x, rest))
  {
    match x
    case NoArgs(n) => NoArgsRoundTrip(n, rest);
    case ArgList(n, args) => ArgListRoundTrip(n, args, rest);
    case Ident(n, v) => IdentRoundTrip(n, v, rest);
    case IdentList(n, vs) => IdentListRoundTrip(n, vs, rest);
    case NamedArgList(n, v, args) => NamedArgListRoundTrip(n, v, args, rest);
  }

  lemma NoArgsRoundTrip(n: Name, rest: seq<Token>)
    requires EndsAttribute(rest)
    ensures ParseExtendedAttribute(EmitExtendedAttribute(NoArgs(n), rest)) == Some(Parsed(NoArgs(n), rest))
  {
    ConsTail(NameToken(n), rest);
  }

  lemma ArgListRoundTrip(n: Name, args: ArgumentList, rest: seq<Token>)
    requires WfArgumentList(args, true)
    ensures ParseExtendedAttribute(EmitExtendedAttribute(ArgList(n, args), rest)) == Some(Parsed(ArgList(n, args), rest))
  {
    ConsTail(NameToken(n), EmitArgumentList(args, rest));
    ArgumentListRoundTrip(args, rest);
  }

  lemma IdentRoundTrip(n: Name, v: Name, rest: seq<Token>)
    requires EndsAttribute(rest)
    ensures ParseExtendedAttribute(EmitExtendedAttribute(Ident(n, v), rest)) == Some(Parsed(Ident(n, v), rest))
  {
    var afterEquals := [NameToken(v)] + rest;
    ConsTail(NameToken(n), [Punct(Equals)] + afterEquals);
    ConsTail(Punct(Equals), afterEquals);
    ConsTail(NameToken(v), rest);
  }

  lemma IdentListRoundTrip(n: Name, vs: seq<Name>, rest: seq<Token>)
    requires |vs| > 0 && forall i :: 0 <= i < |vs| ==> NameOk(vs[i], true)
    ensures ParseExtendedAttribute(EmitExtendedAttribute(IdentList(n, vs), rest)) == Some(Parsed(IdentList(n, vs), rest))
  {
    var names := EmitNames(vs, [Punct(CloseParen)] + rest);
    var afterEquals := [Punct(OpenParen)] + names;
    ConsTail(NameToken(n), [Punct(Equals)] + afterEquals);
    ConsTail(Punct(Equals), afterEquals);
    ConsTail(Punct(OpenParen), names);
    NamesRoundTrip(vs, [Punct(CloseParen)] + rest);
    ConsTail(Punct(CloseParen), rest);
  }

  lemma NamedArgListRoundTrip(n: Name, v: Name, args: ArgumentList, rest: seq<Token>)
    requires WfArgumentList(args, true)
    ensures ParseExtendedAttribute(EmitExtendedAttribute(NamedArgList(n, v, args), rest))
      == Some(Parsed(NamedArgList(n, v, args), rest))
  {
    var afterEquals := [NameToken(v)] + EmitArgumentList(args, rest);
    ConsTail(NameToken(n), [Punct(Equals)] + afterEquals);
    ConsTail(Punct(Equals), afterEquals);
    ConsTail(NameToken(v), EmitArgumentList(args, rest));
    ArgumentListRoundTrip(args, rest);
  }

  lemma {:induction false} ExtendedAttributesRoundTrip(xs: seq<ExtendedAttribute>, rest: seq<Token>)
    requires |xs| > 0 && WfExtendedAttributes(xs, true) && Next(rest, Punct(CloseBracket))
    ensures ParseExtendedAttributes(EmitExtendedAttributes(xs, rest)) == Some(Parsed(xs, rest))
    decreases |xs|
  {
    if |xs| == 1 {
      ExtendedAttributeRoundTrip(xs[0], rest);
      assert [xs[0]] == xs;
    } else {
      var more := EmitExtendedAttributes(xs[1..], rest);
      ExtendedAttributeRoundTrip(xs[0], [Punct(Comma)] + more);
      ConsTail(Punct(Comma), more);
      ExtendedAttributesRoundTrip(xs[1..], rest);
      assert [xs[0]] + xs[1..] == xs;
    }
  }

  /** Without annotations nothing is read when the next token is no `[`. */
  lemma AnnotationsRoundTrip(a: Annotations, rest: seq<Token>)
    requires WfAnnotations(a, true) && !Next(rest, Punct(OpenBracket))
    ensures ParseAnnotations(EmitAnnotations(a, rest)) == Some(Parsed(a, rest))
  {
    if a.Some? {
      var list := EmitExtendedAttributes(a.value, [Punct(CloseBracket)] + rest);
      ConsTail(Punct(OpenBracket), list);
      ExtendedAttributesRoundTrip(a.value, [Punct(CloseBracket)] + rest);
      ConsTail(Punct(CloseBracket), rest);
    }
  }

  lemma AnnotatedTypeRoundTrip(t: TypeWithExtendedAttributes, rest: seq<Token>)
    requires WfAnnotatedType(t, true) && EndsType(rest)
    ensures ParseAnnotatedType(EmitAnnotatedType(t, rest)) == Some(Parsed(t, rest))
  {
    TypeLeads(t.annotatedType, rest);
    AnnotationsRoundTrip(t.attributes, EmitType(t.annotatedType, rest));
    TypeRoundTrip(t.annotatedType, rest);
  }

  // ---------------------------------------------------------------------------
  // Prints back

  lemma {:induction false} NamesPrintsBack(ts: seq<Token>)
    requires ParseNames(ts).Some?
    ensures EmitNames(ParseNames(ts).value.value, ParseNames(ts).value.rest) == ts
    decreases |ts|
  {
    var n := ParseName(ts).value;
    Uncons(ts);
    if Next(n.rest, Punct(Comma)) {
      var more := ParseNames(n.rest[1..]).value;
      NamesPrintsBack(n.rest[1..]);
      Uncons(n.rest);
      var ns := [n.value] + more.value;
      assert ns[0] == n.value && ns[1..] == more.value;
    }
  }

  lemma AssignedPrintsBack(name: Name, ts: seq<Token>)
    requires ParseAssigned(name, ts).Some?
    ensures var r := ParseAssigned(name, ts).value;
      r.value.name == name && !r.value.NoArgs? && !r.value.ArgList? &&
      EmitExtendedAttribute(r.value, r.rest) == [NameToken(name)] + ([Punct(Equals)] + ts)
  {
    Uncons(ts);
    if Next(ts, Punct(OpenParen)) {
      var vs := ParseNames(ts[1..]).value;
      NamesPrintsBack(ts[1..]);
      Uncons(vs.rest);
    } else {
      var v := ParseName(ts).value;
      if Next(v.rest, Punct(OpenParen)) {
        ArgumentListPrintsBack(v.rest);
      }
    }
  }

  lemma ExtendedAttributePrintsBack(ts: seq<Token>)
    requires ParseExtendedAttribute(ts).Some?
    ensures EmitExtendedAttribute(ParseExtendedAttribute(ts).value.value, ParseExtendedAttribute(ts).value.rest) == ts
  {
    var n := ParseName(ts).value;
    Uncons(ts);
    if Next(n.rest, Punct(Equals)) {
      Uncons(n.rest);
      AssignedPrintsBack(n.value, n.rest[1..]);
    } else if Next(n.rest, Punct(OpenParen)) {
      ArgumentListPrintsBack(n.rest);
    }
  }

  lemma {:induction false} ExtendedAttributesPrintsBack(ts: seq<Token>)
    requires ParseExtendedAttributes(ts).Some?
    ensures EmitExtendedAttributes(ParseExtendedAttributes(ts).value.value, ParseExtendedAttributes(ts).value.rest) == ts
    decreases |ts|
  {
    var x := ParseExtendedAttribute(ts).value;
    ExtendedAttributePrintsBack(ts);
    if Next(x.rest, Punct(Comma)) {
      var more := ParseExtendedAttributes(x.rest[1..]).value;
      ExtendedAttributesPrintsBack(x.rest[1..]);
      Uncons(x.rest);
      var xs := [x.value] + more.value;
      assert xs[0] == x.value && xs[1..] == more.value;
    }
  }

  lemma AnnotationsPrintsBack(ts: seq<Token>)
    requires ParseAnnotations(ts).Some?
    ensures EmitAnnotations(ParseAnnotations(ts).value.value, ParseAnnotations(ts).value.rest) == ts
  {
    if Next(ts, Punct(OpenBracket)) {
      Uncons(ts);
      var xs := ParseExtendedAttributes(ts[1..]).value;
      ExtendedAttributesPrintsBack(ts[1..]);
      Uncons(xs.rest);
    }
  }

  lemma AnnotatedTypePrintsBack(ts: seq<Token>)
    requires ParseAnnotatedType(ts).Some?
    ensures EmitAnnotatedType(ParseAnnotatedType(ts).value.value, ParseAnnotatedType(ts).value.rest) == ts
  {
    var a := ParseAnnotations(ts).value;
    AnnotationsPrintsBack(ts);
    TypePrintsBack(a.rest);
  }

  // ---------------------------------------------------------------------------
  // What the parser builds is well formed

  lemma ParsedExtendedAttributeWf(ts: seq<Token>)
    requires ParseExtendedAttribute(ts).Some?
    ensures WfExtendedAttribute(ParseExtendedAttribute(ts).value.value, false)
  {
    var n := ParseName(ts).value;
    if Next(n.rest, Punct(Equals)) {
      var after := n.rest[1..];
      if !Next(after, Punct(OpenParen)) {
        var v := ParseName(after).value;
        if Next(v.rest, Punct(OpenParen)) {
          ParsedArgumentListWf(v.rest);
        }
      }
    } else if Next(n.rest, Punct(OpenParen)) {
      ParsedArgumentListWf(n.rest);
    }
  }

  lemma {:induction false} ParsedExtendedAttributesWf(ts: seq<Token>)
    requires ParseExtendedAttributes(ts).Some?
    ensures WfExtendedAttributes(ParseExtendedAttributes(ts).value.value, false)
    decreases |ts|
  {
    var x := ParseExtendedAttribute(ts).value;
    ParsedExtendedAttributeWf(ts);
    if Next(x.rest, Punct(Comma)) {
      var more := ParseExtendedAttributes(x.rest[1..]).value;
      ParsedExtendedAttributesWf(x.rest[1..]);
      var xs := [x.value] + more.value;
      assert forall i :: 1 <= i < |xs| ==> xs[i] == more.value[i - 1];
    }
  }

  /** A parsed annotation list is never empty. */
  lemma ParsedAnnotationsWf(ts: seq<Token>)
    requires ParseAnnotations(ts).Some?
    ensures WfAnnotations(ParseAnnotations(ts).value.value, false)
  {
    if Next(ts, Punct(OpenBracket)) {
      ParsedExtendedAttributesWf(ts[1..]);
    }
  }

  lemma ParsedAnnotatedTypeWf(ts: seq<Token>)
    requires ParseAnnotatedType(ts).Some?
    ensures WfAnnotatedType(ParseAnnotatedType(ts).value.value, false)
  {
    var a := ParseAnnotations(ts).value;
    ParsedAnnotationsWf(ts);
    ParsedTypeWf(a.rest);
  }
}
