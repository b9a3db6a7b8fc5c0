/** Free-text argument coercion and positional binding of the message
    command listener (bot/listeners/command.go, lines 212-424): each
    declared argument, in order, takes tokens from a shared cursor and is
    converted to a typed slot; the slots are then bound to the handler's
    parameters. */
module ArgumentCoercion {

  import opened Base
  import opened Registry

  // ---------------------------------------------------------------------
  // Literal grammars: strconv.Atoi, strconv.ParseBool, strconv.ParseUint
  // ---------------------------------------------------------------------

  /** The range of a Go `int` on a 64-bit platform. */
  const IntMin: int := -0x8000_0000_0000_0000
  const IntMax: int := 0x7FFF_FFFF_FFFF_FFFF

  /** strconv.Atoi: an optional sign, at least one decimal digit, and a
      value that fits in 64 bits. */
  function ParseInt(s: string): (r: Option<int>)
    ensures r.Some? ==> IntMin <= r.value <= IntMax
    ensures r.Some? ==> exists k :: 0 <= k < |s| && IsDigit(s[k])
  {
    var signed := |s| > 0 && (s[0] == '-' || s[0] == '+');
    var digits := if signed then s[1..] else s;
    if digits == [] || !AllDigits(digits) then None
    else
      var v: int := if signed && s[0] == '-' then 0 - (DecimalValue(digits) as int) else DecimalValue(digits);
      assert IsDigit(s[|s| - 1]);
      if IntMin <= v <= IntMax then Some(v) else None
  }

  /** strconv.Itoa, the partner rendering of ParseInt. */
  function FormatInt(n: int): string {
    if n < 0 then "-" + FormatDecimal(-n) else FormatDecimal(n)
  }

  /** Every 64-bit integer's decimal rendering parses back to it. */
  lemma ParseIntRoundTrip(n: int)
    requires IntMin <= n <= IntMax
    ensures ParseInt(FormatInt(n)) == Some(n)
  {
    if n < 0 {
      ParseNegative(n);
    } else {
      ParseNonNegative(n);
    }
  }

  lemma ParseNonNegative(n: nat)
    requires n <= IntMax
    ensures ParseInt(FormatDecimal(n)) == Some(n)
  {
    var d := FormatDecimal(n);
    DecimalRoundTrip(n);
    assert IsDigit(d[0]);
  }

  lemma ParseNegative(n: int)
    requires IntMin <= n < 0
    ensures ParseInt("-" + FormatDecimal(-n)) == Some(n)
  {
    var d := FormatDecimal(-n);
    DecimalRoundTrip(-n);
    var s := "-" + d;
    assert s[0] == '-' && s[1..] == d;
  }

  /** The twelve spellings strconv.ParseBool accepts lowercase to six. */
  lemma LowerBoolSpellings()
    ensures ToLower("1") == "1" && ToLower("t") == "t" && ToLower("T") == "t"
    ensures ToLower("TRUE") == "true" && ToLower("true") == "true" && ToLower("True") == "true"
    ensures ToLower("0") == "0" && ToLower("f") == "f" && ToLower("F") == "f"
    ensures ToLower("FALSE") == "false" && ToLower("false") == "false" && ToLower("False") == "false"
  {
  }

  /** strconv.ParseBool: each value in three letter cases, whole words
      only in all-lower, all-upper or capitalised form. */
  function ParseBool(s: string): (r: Option<bool>)
    ensures r.Some? ==> ToLower(s) in {"1", "t", "true", "0", "f", "false"}
    ensures r == Some(true) ==> ToLower(s) in {"1", "t", "true"}
  {
    LowerBoolSpellings();
    if s in {"1", "t", "T", "TRUE", "true", "True"} then Some(true)
    else if s in {"0", "f", "F", "FALSE", "false", "False"} then Some(false)
    else None
  }

  /** strconv.FormatBool. */
  function FormatBool(b: bool): (s: string)
    ensures s == ToLower(s)
  {
    if b then "true" else "false"
  }

  /** Every boolean rendered by FormatBool parses back to itself. */
  lemma ParseBoolRoundTrip(b: bool)
    ensures ParseBool(FormatBool(b)) == Some(b)
  {
  }

  /** Each of Go's twelve spellings parses to its value. */
  lemma ParseBoolSpellings()
    ensures ParseBool("1") == Some(true) && ParseBool("t") == Some(true) && ParseBool("T") == Some(true)
    ensures ParseBool("TRUE") == Some(true) && ParseBool("true") == Some(true) && ParseBool("True") == Some(true)
    ensures ParseBool("0") == Some(false) && ParseBool("f") == Some(false) && ParseBool("F") == Some(false)
    ensures ParseBool("FALSE") == Some(false) && ParseBool("false") == Some(false) && ParseBool("False") == Some(false)
  {
  }

  /** Mixed case other than the capitalised form is refused, although it
      lowercases to an accepted word. */
  lemma ParseBoolRefusesMixedCase()
    ensures ToLower("tRUE") == "true" && ParseBool("tRUE") == None
    ensures ToLower("fALSE") == "false" && ParseBool("fALSE") == None
  {
  }

  /** strconv.ParseUint(s, 10, 64) on a string of digits. */
  function ParseUint64(s: string): (r: Option<nat>)
    ensures r.Some? ==> r.value < Uint64Limit
  {
    if s == [] || !AllDigits(s) then None
    else if DecimalValue(s) < Uint64Limit then Some(DecimalValue(s))
    else None
  }

  // ---------------------------------------------------------------------
  // The mention patterns <#(\d+)>, <@!?(\d+)> and <@&(\d+)>, searched
  // unanchored and leftmost-first, as regexp.FindStringSubmatch does
  // ---------------------------------------------------------------------

  datatype MentionPattern = ChannelPattern | UserPattern | RolePattern

  predicate HasAt(s: string, i: nat, lit: string) {
    i + |lit| <= |s| && s[i..i + |lit|] == lit
  }

  /** Length of the maximal run of digits starting at `q`. */
  function DigitRun(s: string, q: nat): (n: nat)
    requires q <= |s|
    ensures q + n <= |s|
    ensures forall k :: q <= k < q + n ==> IsDigit(s[k])
    ensures q + n < |s| ==> !IsDigit(s[q + n])
    decreases |s| - q
  {
    if q < |s| && IsDigit(s[q]) then 1 + DigitRun(s, q + 1) else 0
  }

  /** `(\d+)>` at position q: the greedy digit run, which must be followed
      by '>' (a shorter run is followed by a digit, so it cannot match). */
  function CaptureAt(s: string, q: nat): (r: Option<string>)
    requires q <= |s|
    ensures r.Some? ==> |r.value| >= 1 && AllDigits(r.value)
  {
    var n := DigitRun(s, q);
    if n > 0 && q + n < |s| && s[q + n] == '>' then Some(s[q..q + n]) else None
  }

  /** The pattern's capture for a match starting exactly at i. Greedy `!?`
      first tries to take the '!', then backtracks to leaving it. */
  function MatchAt(p: MentionPattern, s: string, i: nat): (r: Option<string>)
    requires i <= |s|
    ensures r.Some? ==> |r.value| >= 1 && AllDigits(r.value)
  {
    match p
    case ChannelPattern => if HasAt(s, i, "<#") then CaptureAt(s, i + 2) else None
    case RolePattern => if HasAt(s, i, "<@&") then CaptureAt(s, i + 3) else None
    case UserPattern =>
      if HasAt(s, i, "<@!") && CaptureAt(s, i + 3).Some? then CaptureAt(s, i + 3)
      else if HasAt(s, i, "<@") then CaptureAt(s, i + 2)
      else None
  }

  function FindFrom(p: MentionPattern, s: string, i: nat): (r: Option<string>)
    requires i <= |s|
    ensures r.Some? ==> |r.value| >= 1 && AllDigits(r.value)
    decreases |s| - i
  {
    if i == |s| then None
    else match MatchAt(p, s, i)
      case Some(c) => Some(c)
      case None => FindFrom(p, s, i + 1)
  }

  /** A search result is a match at some position from `i` on, and with no
      match from `i` on there is none. */
  lemma {:induction false} FindFromMatches(p: MentionPattern, s: string, i: nat)
    requires i <= |s|
    ensures FindFrom(p, s, i).Some? ==> exists k :: i <= k < |s| && MatchAt(p, s, k) == FindFrom(p, s, i)
    ensures (forall k :: i <= k < |s| ==> MatchAt(p, s, k).None?) ==> FindFrom(p, s, i).None?
    decreases |s| - i
  {
    if i < |s| && MatchAt(p, s, i).None? {
      FindFromMatches(p, s, i + 1);
    }
  }

  /** The first submatch of the leftmost match, if any. */
  function FindSubmatch(p: MentionPattern, s: string): (r: Option<string>)
    ensures r.Some? ==> |r.value| >= 1 && AllDigits(r.value)
    ensures r.Some? ==> exists k :: 0 <= k < |s| && MatchAt(p, s, k) == r
    ensures (forall k :: 0 <= k < |s| ==> MatchAt(p, s, k).None?) ==> r.None?
  {
    FindFromMatches(p, s, 0);
    FindFrom(p, s, 0)
  }

  /** The search is leftmost: a match at j preceded by no match is found. */
  lemma {:induction false} FindIsLeftmost(p: MentionPattern, s: string, i: nat, j: nat)
    requires i <= j < |s|
    requires MatchAt(p, s, j).Some?
    requires forall k :: i <= k < j ==> MatchAt(p, s, k).None?
    ensures FindFrom(p, s, i) == MatchAt(p, s, j)
    decreases j - i
  {
    if i < j {
      FindIsLeftmost(p, s, i + 1, j);
    }
  }

  lemma NotAtOpen(s: string, i: nat, lit: string)
    requires i < |s| && s[i] != '<' && |lit| > 0 && lit[0] == '<'
    ensures !HasAt(s, i, lit)
  {
    if i + |lit| <= |s| {
      assert s[i..i + |lit|][0] == s[i];
    }
  }

  /** A string in which no '<' occurs at or after i yields no match. */
  lemma {:induction false} NoOpenNoMatch(p: MentionPattern, s: string, i: nat)
    requires i <= |s|
    requires forall k :: i <= k < |s| ==> s[k] != '<'
    ensures FindFrom(p, s, i) == None
    decreases |s| - i
  {
    if i < |s| {
      NotAtOpen(s, i, "<#");
      NotAtOpen(s, i, "<@&");
      NotAtOpen(s, i, "<@!");
      NotAtOpen(s, i, "<@");
      assert MatchAt(p, s, i) == None;
      NoOpenNoMatch(p, s, i + 1);
    }
  }

  lemma DigitRunOfDigits(s: string, q: nat, d: string)
    requires q + |d| < |s| && s[q..q + |d|] == d && AllDigits(d) && s[q + |d|] == '>'
    ensures DigitRun(s, q) == |d|
    decreases |d|
  {
    if |d| > 0 {
      assert s[q] == d[0];
      assert s[q + 1..q + 1 + |d[1..]|] == d[1..];
      DigitRunOfDigits(s, q + 1, d[1..]);
    }
  }

  lemma CaptureOfDigits(s: string, q: nat, d: string)
    requires q + |d| < |s| && s[q..q + |d|] == d && |d| >= 1 && AllDigits(d) && s[q + |d|] == '>'
    ensures CaptureAt(s, q) == Some(d)
  {
    DigitRunOfDigits(s, q, d);
  }

  /** The markup the platform renders for an identifier. */
  function Mention(p: MentionPattern, id: nat): string {
    match p
    case ChannelPattern => "<#" + FormatDecimal(id) + ">"
    case UserPattern => "<@" + FormatDecimal(id) + ">"
    case RolePattern => "<@&" + FormatDecimal(id) + ">"
  }

  /** Each pattern recovers the identifier from its own markup. */
  lemma MentionRoundTrip(p: MentionPattern, id: nat)
    requires id < Uint64Limit
    ensures FindSubmatch(p, Mention(p, id)).Some?
    ensures ParseUint64(FindSubmatch(p, Mention(p, id)).value) == Some(id)
  {
    var s, d := Mention(p, id), FormatDecimal(id);
    var off := if p == RolePattern then 3 else 2;
    assert s[off..off + |d|] == d;
    assert s[off + |d|] == '>';
    CaptureOfDigits(s, off, d);
    if p == UserPattern {
      assert !HasAt(s, 0, "<@!") by { assert IsDigit(s[2]); }
    }
    assert MatchAt(p, s, 0) == Some(d);
    DecimalRoundTrip(id);
  }

  /** The nickname form <@!id> also matches the user pattern. */
  lemma NicknameMentionMatchesUser(id: nat)
    ensures FindSubmatch(UserPattern, "<@!" + FormatDecimal(id) + ">") == Some(FormatDecimal(id))
  {
    var s, d := "<@!" + FormatDecimal(id) + ">", FormatDecimal(id);
    assert s[3..3 + |d|] == d;
    assert s[3 + |d|] == '>';
    CaptureOfDigits(s, 3, d);
  }

  /** A role mention does not match the user pattern, which is why the
      mentionable case tries the role pattern first. */
  lemma RoleMentionIsNotUser(id: nat)
    ensures FindSubmatch(UserPattern, Mention(RolePattern, id)) == None
  {
    var s := Mention(RolePattern, id);
    assert s[2] == '&';
    assert DigitRun(s, 2) == 0;
    assert MatchAt(UserPattern, s, 0) == None;
    forall k | 1 <= k < |s|
      ensures s[k] != '<'
    {
      if 3 <= k < |s| - 1 {
        assert s[k] == FormatDecimal(id)[k - 3];
      }
    }
    NoOpenNoMatch(UserPattern, s, 1);
  }

  // ---------------------------------------------------------------------
  // Slots and the per-argument coercion step
  // ---------------------------------------------------------------------

  /** A coerced value; a floating-point number keeps its literal, since
      float parsing is not modelled. */
  datatype Value = Text(s: string) | Integer(i: int) | Boolean(b: bool) | Snowflake(id: nat) | Float(literal: string)

  /** A parsedArguments slot: untyped nil, a typed nil pointer (what a
      failed optional integer, boolean or number leaves), or a value. */
  datatype Slot = Absent | TypedNil(kind: ArgKind) | Present(value: Value)

  /** One argument's result: a slot and the cursor after it (with the type
      code reported when the kind has no case), or a rejection carrying the
      argument's invalid-input message. */
  datatype Step = Next(slot: Slot, cursor: nat, report: seq<int>) | Reject(message: string)

  /** The coercion as a whole: the slots and the reported type codes, or
      the invalid-input message that stopped it. */
  datatype Coercion = Coerced(slots: seq<Slot>, reported: seq<int>) | Invalid(message: string)

  /** A conversion that failed: fatal for a required argument, otherwise
      the slot is `failed` and the cursor stays where it was. */
  function Failed(a: Argument, failed: Slot, cursor: nat): Step {
    if a.required then Reject(a.invalidMessage) else Next(failed, cursor, [])
  }

  /** The snowflake in the token under a single pattern, if any. */
  function SnowflakeOf(p: MentionPattern, tok: string): (r: Option<nat>)
    ensures r.Some? ==> r.value < Uint64Limit && FindSubmatch(p, tok).Some?
  {
    match FindSubmatch(p, tok)
    case None => None
    case Some(d) => ParseUint64(d)
  }

  /** Mentionable: the role pattern first, then the user pattern. */
  function MentionableOf(tok: string): (r: Option<nat>)
    ensures r.Some? ==> r.value < Uint64Limit
    ensures r.Some? ==> FindSubmatch(RolePattern, tok).Some? || FindSubmatch(UserPattern, tok).Some?
  {
    match FindSubmatch(RolePattern, tok)
    case Some(d) => ParseUint64(d)
    case None => SnowflakeOf(UserPattern, tok)
  }

  /** A role mention is read as that role by the mentionable argument. */
  lemma MentionableOfRole(id: nat)
    requires id < Uint64Limit
    ensures MentionableOf(Mention(RolePattern, id)) == Some(id)
  {
    MentionRoundTrip(RolePattern, id);
  }

  function SnowflakeStep(a: Argument, id: Option<nat>, cursor: nat): Step {
    match id
    case Some(v) => Next(Present(Snowflake(v)), cursor + 1, [])
    case None => Failed(a, Absent, cursor)
  }

  /** One pass of the loop body for argument `a` with the cursor at `cursor`. */
  function CoerceOne(a: Argument, args: seq<string>, cursor: nat, parseFloat: string -> bool): (r: Step)
    ensures r.Reject? ==> a.required && r.message == a.invalidMessage
    ensures r.Next? ==> cursor <= r.cursor
  {
    if cursor >= |args| then
      if a.required then Reject(a.invalidMessage) else Next(Absent, cursor, [])
    else
      var tok := args[cursor];
      match a.kind
      case StringKind => Next(Present(Text(Join(args[cursor..], " "))), |args|, [])
      case IntegerKind =>
        (match ParseInt(tok)
         case Some(v) => Next(Present(Integer(v)), cursor + 1, [])
         case None => Failed(a, TypedNil(IntegerKind), cursor))
      case BooleanKind =>
        (match ParseBool(tok)
         case Some(v) => Next(Present(Boolean(v)), cursor + 1, [])
         case None => Failed(a, TypedNil(BooleanKind), cursor))
      case UserKind => SnowflakeStep(a, SnowflakeOf(UserPattern, tok), cursor)
      case ChannelKind => SnowflakeStep(a, SnowflakeOf(ChannelPattern, tok), cursor)
      case RoleKind => SnowflakeStep(a, SnowflakeOf(RolePattern, tok), cursor)
      case MentionableKind => SnowflakeStep(a, MentionableOf(tok), cursor)
      case NumberKind =>
        if parseFloat(tok) then Next(Present(Float(tok)), cursor + 1, [])
        else Failed(a, TypedNil(NumberKind), cursor)
      case OtherKind(code) => Next(Absent, cursor, [code])
  }

  /** Put one argument's slot in front of the coercion of the rest. */
  function Prepend(slot: Slot, report: seq<int>, rest: Coercion): Coercion {
    match rest
    case Invalid(m) => Invalid(m)
    case Coerced(slots, reported) => Coerced([slot] + slots, report + reported)
  }

  /** Specification of the coercion loop over `specs`, cursor at `cursor`. */
  function CoerceFrom(specs: seq<Argument>, args: seq<string>, cursor: nat, parseFloat: string -> bool): (r: Coercion)
    ensures r.Coerced? ==> |r.slots| == |specs|
  {
    if specs == [] then Coerced([], [])
    else match CoerceOne(specs[0], args, cursor, parseFloat)
      case Reject(m) => Invalid(m)
      case Next(slot, next, report) => Prepend(slot, report, CoerceFrom(specs[1..], args, next, parseFloat))
  }

  /** Slots already filled, in front of the coercion of the remainder. */
  function Glue(done: seq<Slot>, reported: seq<int>, rest: Coercion): Coercion {
    match rest
    case Invalid(m) => Invalid(m)
    case Coerced(slots, more) => Coerced(done + slots, reported + more)
  }

  lemma GluePrepend(done: seq<Slot>, reported: seq<int>, slot: Slot, report: seq<int>, rest: Coercion)
    ensures Glue(done, reported, Prepend(slot, report, rest)) == Glue(done + [slot], reported + report, rest)
  {
    if rest.Coerced? {
      assert done + ([slot] + rest.slots) == done + [slot] + rest.slots;
      assert reported + (report + rest.reported) == reported + report + rest.reported;
    }
  }

  /** One pass of the loop, as the specification sees it. */
  lemma GlueStep(specs: seq<Argument>, i: nat, args: seq<string>, cursor: nat, pf: string -> bool,
                 done: seq<Slot>, reported: seq<int>, step: Step)
    requires i < |specs| && step == CoerceOne(specs[i], args, cursor, pf)
    ensures step.Reject? ==> Glue(done, reported, CoerceFrom(specs[i..], args, cursor, pf)) == Invalid(step.message)
    ensures step.Next? ==>
      Glue(done, reported, CoerceFrom(specs[i..], args, cursor, pf))
      == Glue(done + [step.slot], reported + step.report, CoerceFrom(specs[i + 1..], args, step.cursor, pf))
  {
    assert specs[i..][0] == specs[i] && specs[i..][1..] == specs[i + 1..];
    if step.Next? {
      GluePrepend(done, reported, step.slot, step.report, CoerceFrom(specs[i + 1..], args, step.cursor, pf));
    }
  }

  /** The `switch` on the argument type for a token at `argsIndex`: a
      Reject is the reply-and-return of a required argument. */
  method CoerceToken(argument: Argument, args: seq<string>, argsIndex: nat, parseFloat: string -> bool)
    returns (step: Step)
    requires argsIndex < |args|
    ensures step == CoerceOne(argument, args, argsIndex, parseFloat)
  {
    var slot: Slot := Absent;
    var mention: Option<nat> := None;
    var next: nat := argsIndex;
    var report: seq<int> := [];
    match argument.kind {
      case StringKind =>
        slot := Present(Text(Join(args[argsIndex..], " ")));
        next := |args|;
      case IntegerKind =>
        var value := ParseInt(args[argsIndex]);
        if value.None? {
          if argument.required {
            return Reject(argument.invalidMessage);
          }
          slot := TypedNil(IntegerKind);
        } else {
          slot := Present(Integer(value.value));
          next := argsIndex + 1;
        }
      case BooleanKind =>
        var value := ParseBool(args[argsIndex]);
        if value.None? {
          if argument.required {
            return Reject(argument.invalidMessage);
          }
          slot := TypedNil(BooleanKind);
        } else {
          slot := Present(Boolean(value.value));
          next := argsIndex + 1;
        }
      case NumberKind =>
        if !parseFloat(args[argsIndex]) {
          if argument.required {
            return Reject(argument.invalidMessage);
          }
          slot := TypedNil(NumberKind);
        } else {
          slot := Present(Float(args[argsIndex]));
          next := argsIndex + 1;
        }
      case OtherKind(code) =>
        // ctx.HandleError("unknown argument type"); the slot stays nil
        slot := Absent;
        report := [code];
      case UserKind =>
        mention := SnowflakeOf(UserPattern, args[argsIndex]);
      case ChannelKind =>
        mention := SnowflakeOf(ChannelPattern, args[argsIndex]);
      case RoleKind =>
        mention := SnowflakeOf(RolePattern, args[argsIndex]);
      case MentionableKind =>
        mention := MentionableOf(args[argsIndex]);
    }
    if argument.kind.UserKind? || argument.kind.ChannelKind? || argument.kind.RoleKind? || argument.kind.MentionableKind? {
      if mention.None? {
        if argument.required {
          return Reject(argument.invalidMessage);
        }
        slot := Absent;
      } else {
        slot := Present(Snowflake(mention.value));
        next := argsIndex + 1;
      }
    }
    return Next(slot, next, report);
  }

  /** The coercion loop: `parsedArguments` is an array filled in place,
      `argsIndex` the shared cursor. */
  method Coerce(specs: seq<Argument>, args: seq<string>, parseFloat: string -> bool) returns (r: Coercion)
    ensures r == CoerceFrom(specs, args, 0, parseFloat)
  {
    var parsed := new Slot[|specs|](_ => Absent);
    var reported: seq<int> := [];
    var argsIndex: nat := 0;
    for i := 0 to |specs|
      invariant CoerceFrom(specs, args, 0, parseFloat)
                == Glue(parsed[..i], reported, CoerceFrom(specs[i..], args, argsIndex, parseFloat))
      invariant forall k :: i <= k < |specs| ==> parsed[k] == Absent
    {
      var argument := specs[i];
      if !argument.messageCompatible {
        parsed[i] := Absent;
      }
      var step: Step;
      if argsIndex >= |args| {
        if argument.required {
          step := Reject(argument.invalidMessage);
        } else {
          step := Next(Absent, argsIndex, []);
        }
      } else {
        step := CoerceToken(argument, args, argsIndex, parseFloat);
      }
      GlueStep(specs, i, args, argsIndex, parseFloat, parsed[..i], reported, step);
      if step.Reject? {
        return Invalid(step.message);
      }
      parsed[i] := step.slot;
      assert parsed[..i + 1] == parsed[..i] + [step.slot];
      reported := reported + step.report;
      argsIndex := step.cursor;
    }
    assert specs[|specs|..] == [];
    assert parsed[..] == parsed[..|specs|];
    r := Coerced(parsed[..], reported);
  }

  // ---------------------------------------------------------------------
  // Properties of the coercion specification
  // ---------------------------------------------------------------------

  /** A required argument with no token left stops the coercion with that
      argument's message; an optional one is left absent. */
  lemma MissingToken(a: Argument, rest: seq<Argument>, args: seq<string>, cursor: nat, pf: string -> bool)
    requires cursor >= |args|
    ensures a.required ==> CoerceFrom([a] + rest, args, cursor, pf) == Invalid(a.invalidMessage)
    ensures !a.required ==>
      CoerceFrom([a] + rest, args, cursor, pf) == Prepend(Absent, [], CoerceFrom(rest, args, cursor, pf))
  {
    assert ([a] + rest)[1..] == rest;
  }

  /** A string argument joins every remaining token with single spaces and
      leaves nothing for the arguments after it. */
  lemma StringTakesTheRest(a: Argument, args: seq<string>, cursor: nat, pf: string -> bool)
    requires a.kind == StringKind && cursor < |args|
    ensures CoerceOne(a, args, cursor, pf) == Next(Present(Text(Join(args[cursor..], " "))), |args|, [])
  {
  }

  /** The token cannot be converted to the argument's kind. A string always
      converts, and a kind without a case is not a conversion at all. */
  predicate Unconvertible(k: ArgKind, tok: string, pf: string -> bool) {
    match k
    case StringKind => false
    case IntegerKind => ParseInt(tok).None?
    case BooleanKind => ParseBool(tok).None?
    case NumberKind => !pf(tok)
    case UserKind => SnowflakeOf(UserPattern, tok).None?
    case ChannelKind => SnowflakeOf(ChannelPattern, tok).None?
    case RoleKind => SnowflakeOf(RolePattern, tok).None?
    case MentionableKind => MentionableOf(tok).None?
    case OtherKind(_) => false
  }

  /** What a failed optional conversion leaves: a typed nil pointer for the
      integer, boolean and number kinds, an untyped nil for the four
      snowflake kinds. */
  function FailedSlot(k: ArgKind): (s: Slot)
    ensures s.TypedNil? <==> k.IntegerKind? || k.BooleanKind? || k.NumberKind?
    ensures s.TypedNil? ==> s.kind == k
  {
    if k.IntegerKind? || k.BooleanKind? || k.NumberKind? then TypedNil(k) else Absent
  }

  /** A failed conversion rejects a required argument and otherwise leaves
      the failed slot with the cursor where it was, so the same token is
      offered to the next argument; a successful one stores the value and
      advances. */
  lemma FailedOptionalKeepsCursor(a: Argument, args: seq<string>, cursor: nat, pf: string -> bool)
    requires cursor < |args|
    ensures Unconvertible(a.kind, args[cursor], pf) ==>
      CoerceOne(a, args, cursor, pf) ==
        (if a.required then Reject(a.invalidMessage) else Next(FailedSlot(a.kind), cursor, []))
    ensures !Unconvertible(a.kind, args[cursor], pf) && !a.kind.OtherKind? ==>
      CoerceOne(a, args, cursor, pf).Next? && CoerceOne(a, args, cursor, pf).slot.Present? &&
      CoerceOne(a, args, cursor, pf).cursor > cursor
  {
  }

  /** The cursor never moves backwards and never passes the end. */
  lemma CoerceOneCursor(a: Argument, args: seq<string>, cursor: nat, pf: string -> bool)
    requires cursor <= |args|
    ensures CoerceOne(a, args, cursor, pf).Next? ==>
      cursor <= CoerceOne(a, args, cursor, pf).cursor <= |args|
  {
  }

  /** A required integer given "abc" rejects with its message. */
  lemma RequiredIntegerRejectsText(a: Argument, rest: seq<Argument>, pf: string -> bool)
    requires a.kind == IntegerKind && a.required
    ensures CoerceFrom([a] + rest, ["abc"], 0, pf) == Invalid(a.invalidMessage)
  {
    assert ParseInt("abc") == None by { assert !IsDigit('a'); }
  }

  /** genpremium's optional arguments both see a token the first of them
      could not use: "30 true" leaves `amount` nil and makes `whitelabel`
      true. */
  lemma GenPremiumCursorExample(pf: string -> bool)
    ensures CoerceFrom(GenPremium.arguments, ["30", "true"], 0, pf)
            == Coerced([Present(Integer(30)), TypedNil(IntegerKind), Present(Boolean(true))], [])
  {
    assert ParseInt("30") == Some(30) by {
      assert DecimalValue("30") == 30 by { assert "30"[..1] == "3"; }
    }
    assert ParseInt("true") == None by { assert !IsDigit('t'); }
    var specs := GenPremium.arguments;
    assert specs[1..][1..] == [specs[2]];
    assert specs[1..][1..][1..] == [];
  }

  // ---------------------------------------------------------------------
  // Binding to the handler's parameters
  // ---------------------------------------------------------------------

  /** The Go types that occur in handler signatures. */
  datatype GoType = IntT | BoolT | StringT | Uint64T | Float64T | InterfaceT | ContextT | PtrT(elem: GoType)

  function BaseType(k: ArgKind): GoType {
    match k
    case StringKind => StringT
    case IntegerKind => IntT
    case BooleanKind => BoolT
    case UserKind => Uint64T
    case ChannelKind => Uint64T
    case RoleKind => Uint64T
    case MentionableKind => Uint64T
    case NumberKind => Float64T
    case OtherKind(_) => InterfaceT
  }

  /** The parameter a handler declares for an argument: the value type when
      required, a pointer to it when optional (as in genpremium's
      `Execute(ctx, length int, amountRaw *int, whitelabel *bool)`). */
  function ParamType(a: Argument): GoType {
    if a.required then BaseType(a.kind) else PtrT(BaseType(a.kind))
  }

  /** A reflect.Value handed to the handler. */
  datatype Param = ContextParam | Plain(v: Value) | PtrTo(target: Param) | NilPtr(elem: GoType) | ZeroOf(t: GoType)

  function ValueType(v: Value): GoType {
    match v
    case Text(_) => StringT
    case Integer(_) => IntT
    case Boolean(_) => BoolT
    case Snowflake(_) => Uint64T
    case Float(_) => Float64T
  }

  function TypeOf(p: Param): GoType {
    match p
    case ContextParam => ContextT
    case Plain(v) => ValueType(v)
    case PtrTo(t) => PtrT(TypeOf(t))
    case NilPtr(e) => PtrT(e)
    case ZeroOf(t) => t
  }

  /** reflect.ValueOf on a slot that is not untyped nil. */
  function ValueOfSlot(s: Slot): Param
    requires !s.Absent?
  {
    match s
    case TypedNil(k) => NilPtr(BaseType(k))
    case Present(v) => Plain(v)
  }

  /** The binding as written: a required non-nil slot is passed as is, an
      untyped nil becomes the parameter type's zero value, and any other
      slot is wrapped in a new pointer, a typed nil included. For a slot
      the coercion can leave, the parameter has the declared type exactly
      when the slot is not a typed nil. */
  function BindAsWritten(a: Argument, s: Slot): (p: Param)
    ensures SlotFits(a, s) ==> (TypeOf(p) == ParamType(a) <==> !s.TypedNil?)
  {
    if a.required && !s.Absent? then ValueOfSlot(s)
    else if s.Absent? then ZeroOf(ParamType(a))
    else PtrTo(ValueOfSlot(s))
  }

  /** The binding with a typed nil treated as absent: it agrees with the
      binding as written on every other slot, and gives every slot the
      coercion can leave the declared type. */
  function Bind(a: Argument, s: Slot): (p: Param)
    ensures !s.TypedNil? ==> p == BindAsWritten(a, s)
    ensures SlotFits(a, s) ==> TypeOf(p) == ParamType(a)
  {
    if s.TypedNil? then ZeroOf(ParamType(a)) else BindAsWritten(a, s)
  }

  /** What a step may leave in a slot for argument `a`. */
  predicate SlotFits(a: Argument, s: Slot) {
    match s
    case Absent => true
    case TypedNil(k) => !a.required && k == a.kind
    case Present(v) => ValueType(v) == BaseType(a.kind)
  }

  lemma CoerceOneFits(a: Argument, args: seq<string>, cursor: nat, pf: string -> bool)
    ensures CoerceOne(a, args, cursor, pf).Next? ==> SlotFits(a, CoerceOne(a, args, cursor, pf).slot)
  {
  }

  /** Every slot coerced for an argument fits that argument. */
  lemma {:induction false} CoercedSlotsFit(specs: seq<Argument>, args: seq<string>, cursor: nat, pf: string -> bool)
    ensures CoerceFrom(specs, args, cursor, pf).Coerced? ==>
      forall i :: 0 <= i < |specs| ==> SlotFits(specs[i], CoerceFrom(specs, args, cursor, pf).slots[i])
  {
    if specs != [] {
      CoerceOneFits(specs[0], args, cursor, pf);
      var step := CoerceOne(specs[0], args, cursor, pf);
      if step.Next? {
        CoercedSlotsFit(specs[1..], args, step.cursor, pf);
      }
    }
  }

  /** reflect.Value.Call accepts the parameters only when each has the type
      the handler declares; otherwise the call panics. */
  predicate CallAccepted(specs: seq<Argument>, params: seq<Param>)
    requires |params| == |specs| + 1
  {
    forall i :: 0 <= i < |specs| ==> TypeOf(params[i + 1]) == ParamType(specs[i])
  }

  /** Every parameter bound from a coerced slot has the declared type. */
  lemma BindIsWellTyped(specs: seq<Argument>, args: seq<string>, cursor: nat, pf: string -> bool)
    ensures CoerceFrom(specs, args, cursor, pf).Coerced? ==>
      forall i :: 0 <= i < |specs| ==>
        TypeOf(Bind(specs[i], CoerceFrom(specs, args, cursor, pf).slots[i])) == ParamType(specs[i])
  {
    CoercedSlotsFit(specs, args, cursor, pf);
  }

  /** As written, a coerced call is well typed exactly when no slot is a
      typed nil, that is, when no optional integer, boolean or number
      failed to convert. */
  lemma AsWrittenWellTypedIffNoTypedNil(specs: seq<Argument>, args: seq<string>, cursor: nat, pf: string -> bool)
    ensures var c := CoerceFrom(specs, args, cursor, pf);
      c.Coerced? ==>
        ((forall i :: 0 <= i < |specs| ==> TypeOf(BindAsWritten(specs[i], c.slots[i])) == ParamType(specs[i])) <==>
         (forall i :: 0 <= i < |specs| ==> !c.slots[i].TypedNil?))
  {
    CoercedSlotsFit(specs, args, cursor, pf);
  }

  /** For every optional argument, a typed nil is bound as a pointer to the
      declared pointer type, which is never the declared type. */
  lemma TypedNilMistyped(a: Argument)
    ensures !a.required ==>
      TypeOf(BindAsWritten(a, TypedNil(a.kind))) == PtrT(ParamType(a)) &&
      PtrT(ParamType(a)) != ParamType(a)
  {
  }

  /** As written, an optional integer whose token does not parse is bound
      as a pointer to a nil pointer: `**int` where the handler declares
      `*int`, which reflect.Value.Call refuses with a panic. */
  lemma TypedNilIsDoublyWrapped(pf: string -> bool)
    ensures CoerceFrom([GenPremium.arguments[1]], ["abc"], 0, pf) == Coerced([TypedNil(IntegerKind)], [])
    ensures TypeOf(BindAsWritten(GenPremium.arguments[1], TypedNil(IntegerKind))) == PtrT(PtrT(IntT))
    ensures ParamType(GenPremium.arguments[1]) == PtrT(IntT)
  {
    assert ParseInt("abc") == None by { assert !IsDigit('a'); }
  }

  /** For `admin genpremium 30 true` the binding as written hands the
      handler `**int` for `amountRaw`, so the call panics. */
  lemma GenPremiumCallRefused(pf: string -> bool)
    ensures var c := CoerceFrom(GenPremium.arguments, ["30", "true"], 0, pf);
      c.Coerced? && c.slots[1] == TypedNil(IntegerKind) &&
      TypeOf(BindAsWritten(GenPremium.arguments[1], c.slots[1])) == PtrT(PtrT(IntT)) &&
      ParamType(GenPremium.arguments[1]) == PtrT(IntT)
  {
    GenPremiumCursorExample(pf);
  }

  /** The binding loop: valueArgs[0] is the context, valueArgs[i+1] the
      bound slot i. */
  method BindArguments(specs: seq<Argument>, slots: seq<Slot>) returns (params: seq<Param>)
    requires |slots| == |specs|
    ensures |params| == |slots| + 1 && params[0] == ContextParam
    ensures forall i :: 0 <= i < |slots| ==> params[i + 1] == BindAsWritten(specs[i], slots[i])
  {
    var valueArgs := new Param[|slots| + 1](_ => ContextParam);
    valueArgs[0] := ContextParam;
    for i := 0 to |slots|
      invariant valueArgs[0] == ContextParam
      invariant forall k :: 0 <= k < i ==> valueArgs[k + 1] == BindAsWritten(specs[k], slots[k])
    {
      var arg := slots[i];
      var value: Param;
      if specs[i].required && !arg.Absent? {
        value := ValueOfSlot(arg);
      } else if arg.Absent? {
        // reflect.ValueOf(nil) is invalid and becomes the zero value of fn.In(i + 1)
        value := ZeroOf(ParamType(specs[i]));
      } else {
        value := PtrTo(ValueOfSlot(arg));
      }
      valueArgs[i + 1] := value;
    }
    params := valueArgs[..];
  }
}
