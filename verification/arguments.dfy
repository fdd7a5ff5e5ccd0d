/** Arguments and argument lists. An `argument_list` is a parenthesised
    comma list of slots, each of which may be empty: `()` is one empty slot,
    `(a, , b)` three slots of which the middle one is empty. */
module ArgumentGrammar {
  import opened Wrappers
  import opened Tokens
  import opened Syntax
  import opened TypeGrammar
  import opened ValueGrammar

  // ---------------------------------------------------------------------------
  // Printing

  /** `= value`, when there is a default. */
  function EmitDefault(d: Option<DefaultValue>, rest: seq<Token>): (r: seq<Token>)
    ensures |r| >= |rest|
  {
    match d
    case None => rest
    case Some(v) => [Punct(Equals)] + ([DefaultValueToken(v)] + rest)
  }

  /** `argument`: `optional`? type name (`=` default)? */
  function EmitArgument(a: Argument, rest: seq<Token>): (r: seq<Token>)
    ensures |r| > |rest|
  {
    var typed := EmitType(a.argumentType, [NameToken(a.name)] + EmitDefault(a.defaultValue, rest));
    if a.optional then [KeywordToken(MemberWord(KwOptional))] + typed else typed
  }

  function EmitSlot(slot: Option<Argument>, rest: seq<Token>): (r: seq<Token>)
    ensures |r| >= |rest|
  {
    match slot
    case None => rest
    case Some(a) => EmitArgument(a, rest)
  }

  /** The slots of an argument list, separated by commas. */
  function EmitSlots(args: ArgumentList, rest: seq<Token>): (r: seq<Token>)
    ensures |r| >= |rest|
  {
    if |args| == 0 then rest
    else if |args| == 1 then EmitSlot(args[0], rest)
    else EmitSlot(args[0], [Punct(Comma)] + EmitSlots(args[1..], rest))
  }

  /** `(` slots `)` */
  function EmitArgumentList(args: ArgumentList, rest: seq<Token>): (r: seq<Token>)
    ensures |r| > |rest| + 1
  {
    [Punct(OpenParen)] + EmitSlots(args, [Punct(CloseParen)] + rest)
  }

  // ---------------------------------------------------------------------------
  // Parsing

  function ParseDefault(ts: seq<Token>): (r: Option<Parsed<Option<DefaultValue>>>)
    ensures r.Some? ==> |r.value.rest| <= |ts|
  {
    if Next(ts, Punct(Equals)) then
      var v :- ParseDefaultValue(ts[1..]);
      Some(Parsed(Some(v.value), v.rest))
    else
      Some(Parsed(None, ts))
  }

  function ParseArgument(ts: seq<Token>): (r: Option<Parsed<Argument>>)
    ensures r.Some? ==> |r.value.rest| < |ts|
  {
    var optional := Next(ts, KeywordToken(MemberWord(KwOptional)));
    var t :- ParseType(if optional then ts[1..] else ts);
    var n :- ParseName(t.rest);
    var d :- ParseDefault(n.rest);
    Some(Parsed(Argument(optional, t.value, n.value, d.value), d.rest))
  }

  /** An empty slot is one directly followed by `,` or `)`. */
  function ParseSlot(ts: seq<Token>): (r: Option<Parsed<Option<Argument>>>)
    ensures r.Some? ==> |r.value.rest| <= |ts|
  {
    if Next(ts, Punct(Comma)) || Next(ts, Punct(CloseParen)) then Some(Parsed(None, ts))
    else
      var a :- ParseArgument(ts);
      Some(Parsed(Some(a.value), a.rest))
  }

  function ParseSlots(ts: seq<Token>): (r: Option<Parsed<ArgumentList>>)
    ensures r.Some? ==> |r.value.rest| <= |ts| && |r.value.value| > 0
    decreases |ts|
  {
    var slot :- ParseSlot(ts);
    if Next(slot.rest, Punct(Comma)) then
      var more :- ParseSlots(slot.rest[1..]);
      Some(Parsed([slot.value] + more.value, more.rest))
    else
      Some(Parsed([slot.value], slot.rest))
  }

  function ParseArgumentList(ts: seq<Token>): (r: Option<Parsed<ArgumentList>>)
    ensures r.Some? ==> |r.value.rest| < |ts|
  {
    var afterOpen :- Expect(ts, Punct(OpenParen));
    var slots :- ParseSlots(afterOpen);
    var afterClose :- Expect(slots.rest, Punct(CloseParen));
    Some(Parsed(slots.value, afterClose))
  }

  // ---------------------------------------------------------------------------
  // Round trips

  lemma DefaultRoundTrip(d: Option<DefaultValue>, rest: seq<Token>)
    requires !Next(rest, Punct(Equals))
    ensures ParseDefault(EmitDefault(d, rest)) == Some(Parsed(d, rest))
  {
    if d.Some? {
      ConsTail(Punct(Equals), [DefaultValueToken(d.value)] + rest);
      DefaultValueRoundTrip(d.value, rest);
    }
  }

  /** A printed argument begins with `optional` or with its type. */
  lemma ArgumentLeads(a: Argument, rest: seq<Token>)
    requires WfArgument(a, true)
    ensures var ts := EmitArgument(a, rest);
      ts[0] == KeywordToken(MemberWord(KwOptional)) || TypeLead(ts[0])
  {
    TypeLeads(a.argumentType, [NameToken(a.name)] + EmitDefault(a.defaultValue, rest));
  }

  lemma ArgumentRoundTrip(a: Argument, rest: seq<Token>)
    requires WfArgument(a, true) && !Next(rest, Punct(Equals))
    ensures ParseArgument(EmitArgument(a, rest)) == Some(Parsed(a, rest))
  {
    var named := [NameToken(a.name)] + EmitDefault(a.defaultValue, rest);
    var typed := EmitType(a.argumentType, named);
    TypeRoundTrip(a.argumentType, named);
    TypeLeads(a.argumentType, named);
    ConsTail(KeywordToken(MemberWord(KwOptional)), typed);
    ConsTail(NameToken(a.name), EmitDefault(a.defaultValue, rest));
    DefaultRoundTrip(a.defaultValue, rest);
  }

  lemma SlotRoundTrip(slot: Option<Argument>, rest: seq<Token>)
    requires slot.Some? ==> WfArgument(slot.value, true)
    requires Next(rest, Punct(Comma)) || Next(rest, Punct(CloseParen))
    ensures ParseSlot(EmitSlot(slot, rest)) == Some(Parsed(slot, rest))
  {
    if slot.Some? {
      ArgumentRoundTrip(slot.value, rest);
      ArgumentLeads(slot.value, rest);
    }
  }

  lemma {:induction false} SlotsRoundTrip(args: ArgumentList, rest: seq<Token>)
    requires WfArgumentList(args, true) && Next(rest, Punct(CloseParen))
    ensures ParseSlots(EmitSlots(args, rest)) == Some(Parsed(args, rest))
    decreases |args|
  {
    if |args| == 1 {
      SlotRoundTrip(args[0], rest);
      assert [args[0]] == args;
    } else {
      var more := EmitSlots(args[1..], rest);
      SlotsRoundTrip(args[1..], rest);
      SlotRoundTrip(args[0], [Punct(Comma)] + more);
      ConsTail(Punct(Comma), more);
      assert [args[0]] + args[1..] == args;
    }
  }

  lemma ArgumentListRoundTrip(args: ArgumentList, rest: seq<Token>)
    requires WfArgumentList(args, true)
    ensures ParseArgumentList(EmitArgumentList(args, rest)) == Some(Parsed(args, rest))
  {
    ConsTail(Punct(OpenParen), EmitSlots(args, [Punct(CloseParen)] + rest));
    SlotsRoundTrip(args, [Punct(CloseParen)] + rest);
    ConsTail(Punct(CloseParen), rest);
  }

  // ---------------------------------------------------------------------------
  // Prints back

  lemma DefaultPrintsBack(ts: seq<Token>)
    requires ParseDefault(ts).Some?
    ensures EmitDefault(ParseDefault(ts).value.value, ParseDefault(ts).value.rest) == ts
  {
    if Next(ts, Punct(Equals)) {
      Uncons(ts);
      DefaultValuePrintsBack(ts[1..]);
    }
  }

  lemma ArgumentPrintsBack(ts: seq<Token>)
    requires ParseArgument(ts).Some?
    ensures EmitArgument(ParseArgument(ts).value.value, ParseArgument(ts).value.rest) == ts
  {
    var optional := Next(ts, KeywordToken(MemberWord(KwOptional)));
    var afterOptional := if optional then ts[1..] else ts;
    var t := ParseType(afterOptional).value;
    var n := ParseName(t.rest).value;
    TypePrintsBack(afterOptional);
    Uncons(t.rest);
    DefaultPrintsBack(n.rest);
    if optional {
      Uncons(ts);
    }
  }

  lemma SlotPrintsBack(ts: seq<Token>)
    requires ParseSlot(ts).Some?
    ensures EmitSlot(ParseSlot(ts).value.value, ParseSlot(ts).value.rest) == ts
  {
    if !(Next(ts, Punct(Comma)) || Next(ts, Punct(CloseParen))) {
      ArgumentPrintsBack(ts);
    }
  }

  lemma {:induction false} SlotsPrintsBack(ts: seq<Token>)
    requires ParseSlots(ts).Some?
    ensures EmitSlots(ParseSlots(ts).value.value, ParseSlots(ts).value.rest) == ts
    decreases |ts|
  {
    var slot := ParseSlot(ts).value;
    SlotPrintsBack(ts);
    if Next(slot.rest, Punct(Comma)) {
      var more := ParseSlots(slot.rest[1..]).value;
      SlotsPrintsBack(slot.rest[1..]);
      Uncons(slot.rest);
      var args := [slot.value] + more.value;
      assert args[0] == slot.value && args[1..] == more.value;
    }
  }

  lemma ArgumentListPrintsBack(ts: seq<Token>)
    requires ParseArgumentList(ts).Some?
    ensures EmitArgumentList(ParseArgumentList(ts).value.value, ParseArgumentList(ts).value.rest) == ts
  {
    Uncons(ts);
    var slots := ParseSlots(ts[1..]).value;
    SlotsPrintsBack(ts[1..]);
    Uncons(slots.rest);
  }

  // ---------------------------------------------------------------------------
  // What the parser builds is well formed

  lemma ParsedArgumentWf(ts: seq<Token>)
    requires ParseArgument(ts).Some?
    ensures WfArgument(ParseArgument(ts).value.value, false)
  {
    ParsedTypeWf(if Next(ts, KeywordToken(MemberWord(KwOptional))) then ts[1..] else ts);
  }

  lemma ParsedSlotWf(ts: seq<Token>)
    requires ParseSlot(ts).Some?
    ensures ParseSlot(ts).value.value.Some? ==> WfArgument(ParseSlot(ts).value.value.value, false)
  {
    if !(Next(ts, Punct(Comma)) || Next(ts, Punct(CloseParen))) {
      ParsedArgumentWf(ts);
    }
  }

  /** One slot, `,`, and the slots after it. */
  lemma SlotsStep(ts: seq<Token>)
    requires ParseSlots(ts).Some? && Next(ParseSlot(ts).value.rest, Punct(Comma))
    ensures var slot := ParseSlot(ts).value;
      && ParseSlots(slot.rest[1..]).Some?
      && ParseSlots(ts).value.value == [slot.value] + ParseSlots(slot.rest[1..]).value.value
  {
  }

  lemma SlotsConsWf(slot: Option<Argument>, more: ArgumentList)
    requires (slot.Some? ==> WfArgument(slot.value, false)) && WfArgumentList(more, false)
    ensures WfArgumentList([slot] + more, false)
  {
    var args := [slot] + more;
    assert forall i :: 1 <= i < |args| ==> args[i] == more[i - 1];
  }

  lemma {:induction false} ParsedSlotsWf(ts: seq<Token>)
    requires ParseSlots(ts).Some?
    ensures WfArgumentList(ParseSlots(ts).value.value, false)
    decreases |ts|
  {
    var slot := ParseSlot(ts).value;
    ParsedSlotWf(ts);
    if Next(slot.rest, Punct(Comma)) {
      ParsedSlotsWf(slot.rest[1..]);
      SlotsStep(ts);
      SlotsConsWf(slot.value, ParseSlots(slot.rest[1..]).value.value);
    }
  }

  lemma ParsedArgumentListWf(ts: seq<Token>)
    requires ParseArgumentList(ts).Some?
    ensures WfArgumentList(ParseArgumentList(ts).value.value, false)
  {
    ParsedSlotsWf(ts[1..]);
  }

  /** `()` is an argument list of one empty slot, not an empty list. */
  lemma EmptyParensIsOneEmptySlot(rest: seq<Token>)
    ensures ParseArgumentList([Punct(OpenParen)] + ([Punct(CloseParen)] + rest)) == Some(Parsed([None], rest))
  {
    ConsTail(Punct(OpenParen), [Punct(CloseParen)] + rest);
    ConsTail(Punct(CloseParen), rest);
  }
}
