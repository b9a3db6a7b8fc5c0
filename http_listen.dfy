/** Interaction routing of the HTTP front end (event/httplisten.go): the
    JSON error and success bodies, the rate-limiter key, the search for the
    focused autocomplete option, the autocomplete walk to a handler, and
    the reply protocol as a decision over an abstract arrival time. */
module HttpListen {

  import opened Base
  import opened Registry

  // ---------------------------------------------------------------------
  // Response bodies and statuses (lines 26-46, 67-100, 110-115)
  // ---------------------------------------------------------------------

  datatype Body = SuccessBody(success: bool) | ErrorBody(success: bool, error: string)

  datatype HttpReply = HttpReply(status: nat, body: Body)

  /** newErrorResponse: `success` false and the error's text. */
  function NewErrorResponse(err: string): (b: Body)
    ensures b.ErrorBody? && !b.success && b.error == err
  {
    ErrorBody(false, err)
  }

  /** The reply of the event endpoint: 400 with the error when the envelope
      does not bind, otherwise 200 success, written before the event runs;
      the second result says whether the event was executed. */
  function EventReply(envelope: Result<()>): (r: (HttpReply, bool))
    ensures r.1 <==> r.0.status == 200
  {
    match envelope
    case Err(e) => (HttpReply(400, NewErrorResponse(e)), false)
    case Ok(_) => (HttpReply(200, SuccessBody(true)), true)
  }

  /** A bound envelope is always acknowledged with 200 success, whatever
      the event then does; an unbound one is 400 and never executed. */
  lemma EventReplyShape(envelope: Result<()>)
    ensures envelope.Ok? <==> EventReply(envelope).0 == HttpReply(200, SuccessBody(true))
    ensures envelope.Err? ==>
      EventReply(envelope) == (HttpReply(400, ErrorBody(false, envelope.error)), false)
    ensures EventReply(envelope).1 <==> envelope.Ok?
  {
  }

  // ---------------------------------------------------------------------
  // The rate-limiter key prefix (lines 76-82, 117-123)
  // ---------------------------------------------------------------------

  function RateLimiterKey(isWhitelabel: bool, botId: nat): (k: string)
    ensures HasPrefix(k, "ratelimiter:")
  {
    if isWhitelabel then "ratelimiter:" + FormatDecimal(botId) else "ratelimiter:public"
  }

  /** White-label bots get their own bucket each; every other bot shares
      the public one, which no white-label bucket collides with. */
  lemma RateLimiterKeysSeparate(w1: bool, id1: nat, w2: bool, id2: nat)
    ensures (RateLimiterKey(w1, id1) == RateLimiterKey(w2, id2)) <==> (w1 == w2 && (w1 ==> id1 == id2))
  {
    var p := "ratelimiter:";
    if w1 && w2 && RateLimiterKey(w1, id1) == RateLimiterKey(w2, id2) {
      assert (p + FormatDecimal(id1))[|p|..] == FormatDecimal(id1);
      assert (p + FormatDecimal(id2))[|p|..] == FormatDecimal(id2);
      FormatDecimalInjective(id1, id2);
    }
    if w1 != w2 {
      var id := if w1 then id1 else id2;
      var k := p + FormatDecimal(id);
      assert k[|p|] == FormatDecimal(id)[0];
      assert IsDigit(k[|p|]);
      assert "ratelimiter:public"[|p|] == 'p';
    }
  }

  // ---------------------------------------------------------------------
  // The error context (lines 315-328)
  // ---------------------------------------------------------------------

  /** Who sent an interaction: a direct-message user or a guild member. */
  datatype Sender = Sender(user: Option<nat>, member: Option<nat>)

  function ErrorContextUser(s: Sender): (id: nat)
    ensures s.user.Some? ==> id == s.user.value
    ensures s.user.None? && s.member.Some? ==> id == s.member.value
    ensures s.user.None? && s.member.None? ==> id == 0
  {
    match s.user
    case Some(u) => u
    case None => match s.member case Some(m) => m case None => 0
  }

  // ---------------------------------------------------------------------
  // The focused option (lines 330-344)
  // ---------------------------------------------------------------------

  /** An option of an interaction's data; `value` is None for the options
      that stand for sub-commands. */
  datatype DataOption = DataOption(name: string, value: Option<string>, focused: bool, options: seq<DataOption>)

  /** fmt.Sprintf("%v", value): the rendering of a nil interface value. */
  function Render(v: Option<string>): string {
    match v case Some(s) => s case None => "<nil>"
  }

  datatype Focus = Focus(value: string, path: seq<string>)

  /** The number of options in a forest, nested ones included. */
  function Size(os: seq<DataOption>): nat
    decreases os
  {
    if os == [] then 0 else 1 + Size(os[0].options) + Size(os[1..])
  }

  /** findFocusedPath: the first focused option, depth first, with the
      names on the way to it. */
  function FindFocused(os: seq<DataOption>, current: seq<string>): (r: Option<Focus>)
    ensures r.Some? ==> |r.value.path| > |current| && r.value.path[..|current|] == current
    decreases os
  {
    if os == [] then None
    else if os[0].focused then Some(Focus(Render(os[0].value), current + [os[0].name]))
    else match FindFocused(os[0].options, current + [os[0].name])
      case Some(f) =>
        assert f.path[..|current|] == (current + [os[0].name])[..|current|];
        Some(f)
      case None => FindFocused(os[1..], current)
  }

  /** An option visited in depth-first pre-order, with its name path. */
  datatype Visit = Visit(option: DataOption, path: seq<string>)

  /** The pre-order listing of a forest: the reference for FindFocused. */
  function PreOrder(os: seq<DataOption>, current: seq<string>): seq<Visit>
    decreases os
  {
    if os == [] then []
    else [Visit(os[0], current + [os[0].name])] + PreOrder(os[0].options, current + [os[0].name]) + PreOrder(os[1..], current)
  }

  function FirstFocused(vs: seq<Visit>): Option<Focus> {
    if vs == [] then None
    else if vs[0].option.focused then Some(Focus(Render(vs[0].option.value), vs[0].path))
    else FirstFocused(vs[1..])
  }

  lemma {:induction false} FirstFocusedAppend(a: seq<Visit>, b: seq<Visit>)
    ensures FirstFocused(a + b) == if FirstFocused(a).Some? then FirstFocused(a) else FirstFocused(b)
  {
    if a != [] {
      assert (a + b)[1..] == a[1..] + b;
      FirstFocusedAppend(a[1..], b);
    } else {
      assert a + b == b;
    }
  }

  /** FindFocused returns the first focused option of the pre-order. */
  lemma {:induction false} FindFocusedIsFirstInPreOrder(os: seq<DataOption>, current: seq<string>)
    ensures FindFocused(os, current) == FirstFocused(PreOrder(os, current))
    decreases os
  {
    if os != [] {
      var head := [Visit(os[0], current + [os[0].name])];
      var below := PreOrder(os[0].options, current + [os[0].name]);
      var after := PreOrder(os[1..], current);
      FindFocusedIsFirstInPreOrder(os[0].options, current + [os[0].name]);
      FindFocusedIsFirstInPreOrder(os[1..], current);
      FirstFocusedAppend(head + below, after);
      FirstFocusedAppend(head, below);
      assert head[1..] == [];
    }
  }

  lemma {:induction false} FirstFocusedNone(vs: seq<Visit>)
    ensures FirstFocused(vs).None? <==> forall i :: 0 <= i < |vs| ==> !vs[i].option.focused
  {
    if vs != [] {
      FirstFocusedNone(vs[1..]);
      assert forall i :: 1 <= i < |vs| ==> vs[i] == vs[1..][i - 1];
    }
  }

  /** Nothing is found exactly when no option anywhere is focused. */
  lemma NotFoundIffNoneFocused(os: seq<DataOption>, current: seq<string>)
    ensures FindFocused(os, current).None? <==>
      forall i :: 0 <= i < |PreOrder(os, current)| ==> !PreOrder(os, current)[i].option.focused
  {
    FindFocusedIsFirstInPreOrder(os, current);
    FirstFocusedNone(PreOrder(os, current));
  }

  // ---------------------------------------------------------------------
  // The autocomplete walk (lines 200-263)
  // ---------------------------------------------------------------------

  /** The first child whose name equals `name` exactly. */
  function FirstChildNamed(cs: seq<Command>, name: string): (r: Option<Command>)
    ensures r.Some? ==> r.value in cs && r.value.name == name
    ensures r.None? ==> forall i :: 0 <= i < |cs| ==> cs[i].name != name
  {
    if cs == [] then None
    else if cs[0].name == name then Some(cs[0])
    else FirstChildNamed(cs[1..], name)
  }

  /** The first walk: while the leading option is valueless, step into the
      child of that exact name. */
  function FirstWalk(cmd: Command, os: seq<DataOption>): (r: Option<Command>)
    ensures (|os| == 0 || os[0].value.Some?) ==> r == Some(cmd)
    ensures |os| > 0 && os[0].value.None? && r.Some? ==> FirstChildNamed(cmd.children, os[0].name).Some?
    ensures r.Some? && r.value != cmd ==> |os| > 0 && os[0].value.None?
    decreases Size(os)
  {
    if |os| > 0 && os[0].value.None? then
      match FirstChildNamed(cmd.children, os[0].name)
      case None => None
      case Some(child) => FirstWalk(child, os[0].options)
    else Some(cmd)
  }

  /** The path walk: one level per segment, matching the lowercased
      segment. */
  function PathWalk(cmd: Command, segments: seq<string>): (r: Option<Command>)
    ensures segments == [] ==> r == Some(cmd)
    ensures r.Some? && segments != [] ==> r.value.name == ToLower(segments[|segments| - 1])
  {
    if segments == [] then Some(cmd)
    else match FirstChildNamed(cmd.children, ToLower(segments[0]))
      case None => None
      case Some(child) => PathWalk(child, segments[1..])
  }

  /** The handler of the LAST argument with the given name, which may be
      none; None also when no argument has that name. */
  function HandlerFor(args: seq<Argument>, name: string): (r: Option<string>)
    ensures (forall i :: 0 <= i < |args| ==> args[i].name != name) ==> r.None?
    ensures r.Some? ==>
      exists i :: 0 <= i < |args| && args[i].name == name && args[i].autocomplete == r &&
        (forall j :: i < j < |args| ==> args[j].name != name)
  {
    if args == [] then None
    else if args[|args| - 1].name == name then args[|args| - 1].autocomplete
    else HandlerFor(args[..|args| - 1], name)
  }

  /** A suggestion request: the handler to call and the focused value. */
  datatype Suggestion = Suggestion(handler: string, value: string)

  /** From the command where the path walk starts to the handler. */
  function SuggestFrom(start: Command, f: Focus): (r: Option<Suggestion>)
    requires |f.path| > 0
    ensures r.Some? ==> r.value.value == f.value
    ensures |f.path| == 1 ==>
      (r.Some? <==> HandlerFor(start.arguments, ToLower(f.path[0])).Some?)
    ensures r.Some? && |f.path| > 1 ==>
      PathWalk(start, f.path[..|f.path| - 1]).Some? &&
      PathWalk(start, f.path[..|f.path| - 1]).value.name == ToLower(f.path[|f.path| - 2])
  {
    var path := f.path;
    var target := if |path| > 1 then PathWalk(start, path[..|path| - 1]) else Some(start);
    match target
    case None => None
    case Some(c) =>
      match HandlerFor(c.arguments, ToLower(path[|path| - 1]))
      case None => None
      case Some(h) => Some(Suggestion(h, f.value))
  }

  /** The autocomplete branch as written: the path walk starts from the
      command the first walk reached. */
  function AutocompleteAsWritten(commands: map<string, Command>, name: string, os: seq<DataOption>): (r: Option<Suggestion>)
    ensures r.Some? ==> name in commands && FindFocused(os, []).Some? && r.value.value == FindFocused(os, []).value.value
  {
    if name !in commands then None
    else match FirstWalk(commands[name], os)
      case None => None
      case Some(reached) =>
        match FindFocused(os, [])
        case None => None
        case Some(f) => SuggestFrom(reached, f)
  }

  /** The autocomplete branch with the path walk starting from the root,
      since the focused path names every level from the root down. */
  function Autocomplete(commands: map<string, Command>, name: string, os: seq<DataOption>): (r: Option<Suggestion>)
    ensures r.Some? ==> name in commands && FindFocused(os, []).Some? && r.value.value == FindFocused(os, []).value.value
  {
    if name !in commands then None
    else match FirstWalk(commands[name], os)
      case None => None
      case Some(_) =>
        match FindFocused(os, [])
        case None => None
        case Some(f) => SuggestFrom(commands[name], f)
  }

  /** On a top-level command the two agree: the first walk does not move. */
  lemma TopLevelArgumentsAgree(commands: map<string, Command>, name: string, os: seq<DataOption>)
    requires forall i :: 0 <= i < |os| ==> os[i].value.Some?
    ensures AutocompleteAsWritten(commands, name, os) == Autocomplete(commands, name, os)
  {
  }

  /** A command with one sub-command holding one argument with a handler:
      the focused argument inside the sub-command gets no response as
      written, and its handler with the corrected walk. */
  lemma SubcommandAutocomplete(commands: map<string, Command>, name: string, sub: Command, arg: Argument, h: string, v: string)
    requires name in commands && commands[name].children == [sub]
    requires sub.children == [] && sub.arguments == [arg] && arg.autocomplete == Some(h)
    requires ToLower(sub.name) == sub.name && ToLower(arg.name) == arg.name
    ensures var os := [DataOption(sub.name, None, false, [DataOption(arg.name, Some(v), true, [])])];
      AutocompleteAsWritten(commands, name, os) == None &&
      Autocomplete(commands, name, os) == Some(Suggestion(h, v))
  {
    var os := [DataOption(sub.name, None, false, [DataOption(arg.name, Some(v), true, [])])];
    assert FirstChildNamed([sub], sub.name) == Some(sub);
    assert Size(os[0].options) < Size(os) by {
      assert Size(os[0].options) == 1 + Size([]) + Size(os[0].options[1..]);
      assert os[0].options[1..] == [];
    }
    assert FirstWalk(sub, os[0].options) == Some(sub);
    assert FirstWalk(commands[name], os) == Some(sub);
    assert [sub.name] + [arg.name] == [sub.name, arg.name];
    assert [] + [sub.name] == [sub.name];
    assert FindFocused(os[0].options, [sub.name]) == Some(Focus(v, [sub.name, arg.name]));
    assert FindFocused(os, []) == Some(Focus(v, [sub.name, arg.name]));
    assert [sub.name, arg.name][..1] == [sub.name];
    assert PathWalk(sub, [sub.name]) == None;
    assert PathWalk(commands[name], [sub.name]) == Some(sub) by {
      assert [sub.name][1..] == [];
    }
    assert HandlerFor([arg], arg.name) == Some(h);
  }

  /** The inner loop over a command's children: it breaks at the first
      child with exactly that name. */
  method FindChild(children: seq<Command>, name: string) returns (child: Option<Command>)
    ensures child == FirstChildNamed(children, name)
  {
    var k := 0;
    while k < |children|
      invariant 0 <= k <= |children|
      invariant FirstChildNamed(children, name) == FirstChildNamed(children[k..], name)
    {
      if children[k].name == name {
        return Some(children[k]);
      }
      assert children[k..][1..] == children[k + 1..];
      k := k + 1;
    }
    return None;
  }

  /** The loop over the reached command's arguments: every argument with
      the name overwrites the handler, so the last one wins. */
  method ScanHandlers(arguments: seq<Argument>, last: string) returns (handler: Option<string>)
    ensures handler == HandlerFor(arguments, last)
  {
    handler := None;
    for j := 0 to |arguments|
      invariant handler == HandlerFor(arguments[..j], last)
    {
      assert arguments[..j + 1][..j] == arguments[..j];
      if arguments[j].name == last {
        handler := arguments[j].autocomplete;
      }
    }
    assert arguments[..|arguments|] == arguments;
  }

  /** The branch as written, with its loops: a bounded first walk, a path
      walk that restarts its inner loop per segment, and a handler scan that
      keeps the last hit. */
  method AutocompleteWalk(commands: map<string, Command>, name: string, os: seq<DataOption>) returns (r: Option<Suggestion>)
    ensures r == AutocompleteAsWritten(commands, name, os)
  {
    if name !in commands {
      return None;
    }
    var cmd := commands[name];
    var options := os;
    while |options| > 0 && options[0].value.None?
      invariant FirstWalk(commands[name], os) == FirstWalk(cmd, options)
      decreases Size(options)
    {
      var subCommand := options[0];
      var child := FindChild(cmd.children, subCommand.name);
      if child.None? {
        return None;
      }
      cmd := child.value;
      options := subCommand.options;
    }
    var focus := FindFocused(os, []);
    if focus.None? {
      return None;
    }
    var path := focus.value.path;
    ghost var reached := cmd;
    if |path| > 1 {
      for i := 0 to |path| - 1
        invariant PathWalk(reached, path[..|path| - 1]) == PathWalk(cmd, path[i..|path| - 1])
      {
        var child := FindChild(cmd.children, ToLower(path[i]));
        if child.None? {
          return None;
        }
        cmd := child.value;
        assert path[i..|path| - 1][1..] == path[i + 1..|path| - 1];
      }
    }
    var handler := ScanHandlers(cmd.arguments, ToLower(path[|path| - 1]));
    if handler.None? {
      return None;
    }
    r := Some(Suggestion(handler.value, focus.value.value));
  }

  // ---------------------------------------------------------------------
  // The reply protocol (lines 133-191, 265-313)
  // ---------------------------------------------------------------------

  /** When the handler's result reaches the response channel, if ever. */
  datatype Arrival = Never | At(ms: nat)

  /** interaction.ApplicationCommandCallbackData, as far as it matters. */
  datatype CallbackData = CallbackData(
    content: string,
    embeds: seq<string>,
    allowedMentions: seq<string>,
    flags: nat,
    components: seq<string>)

  /** A button or modal handler's response, left abstract. */
  datatype ButtonResponse = ButtonResponse(id: nat)

  /** The synchronous HTTP reply. */
  datatype InteractionResponse =
    | ChannelMessage(data: CallbackData)
    | AckWithSource(ephemeral: bool)
    | DeferredMessageUpdate
    | Built(response: ButtonResponse)

  /** What is sent after a deferral. */
  datatype FollowUp =
    | NoFollowUp
    | EditOriginal(content: string, embeds: seq<string>, allowedMentions: seq<string>)
    | HandleDeferred(response: ButtonResponse)

  datatype Exchange = NoReply | Answered(reply: InteractionResponse, followUp: FollowUp)

  const FirstDeadline: nat := 1500
  const SecondDeadline: nat := 15000

  /** The result wins a select against a timer firing at `deadline`; at
      exactly the same instant Go picks at random, so the pick is an input. */
  predicate ArrivesBy(a: Arrival, deadline: nat, resultWinsTie: bool) {
    a.At? && (a.ms < deadline || (a.ms == deadline && resultWinsTie))
  }

  /** When the second timer of a deferred reply fires: 15 s after the
      deferral, which itself happens `ackDelay` ms after the first timer. */
  function SecondTimer(ackDelay: nat): nat {
    FirstDeadline + ackDelay + SecondDeadline
  }

  /** An application command. `executeCommand` yields the defer-ephemeral
      default or an error; an error writes nothing. */
  function CommandExchange(execute: Result<bool>, data: CallbackData, arrival: Arrival,
                           ackDelay: nat, firstTie: bool, secondTie: bool): (x: Exchange)
    ensures x.NoReply? <==> execute.Err?
    ensures x.Answered? && x.followUp.EditOriginal? ==> arrival.At? && arrival.ms >= FirstDeadline
  {
    match execute
    case Err(_) => NoReply
    case Ok(deferDefault) =>
      if ArrivesBy(arrival, FirstDeadline, firstTie) then Answered(ChannelMessage(data), NoFollowUp)
      else
        Answered(AckWithSource(deferDefault),
                 if ArrivesBy(arrival, SecondTimer(ackDelay), secondTie)
                 then EditOriginal(data.content, data.embeds, data.allowedMentions)
                 else NoFollowUp)
  }

  /** A message component: the same shape with a deferred message update. */
  function ComponentExchange(response: ButtonResponse, arrival: Arrival,
                             ackDelay: nat, firstTie: bool, secondTie: bool): (x: Exchange)
    ensures x.Answered?
    ensures x.followUp.HandleDeferred? ==> arrival.At? && arrival.ms >= FirstDeadline
  {
    if ArrivesBy(arrival, FirstDeadline, firstTie) then Answered(Built(response), NoFollowUp)
    else
      Answered(DeferredMessageUpdate,
               if ArrivesBy(arrival, SecondTimer(ackDelay), secondTie) then HandleDeferred(response) else NoFollowUp)
  }

  /** A modal submit cannot be deferred: the reply waits for the result. */
  function ModalExchange(response: ButtonResponse, arrival: Arrival): (x: Exchange)
    ensures x.Answered? <==> arrival.At?
    ensures x.Answered? ==> x.followUp.NoFollowUp?
  {
    if arrival.At? then Answered(Built(response), NoFollowUp) else NoReply
  }

  /** An application command always gets exactly one reply: the data
      itself when it comes in time, otherwise the acknowledgement (ephemeral
      iff the command defers ephemerally), and then at most one edit that
      carries exactly the content, embeds and allowed mentions. */
  lemma CommandReplyProtocol(execute: Result<bool>, data: CallbackData, arrival: Arrival,
                             ackDelay: nat, firstTie: bool, secondTie: bool)
    requires execute.Ok?
    ensures var x := CommandExchange(execute, data, arrival, ackDelay, firstTie, secondTie);
      x.Answered? &&
      (x.reply.ChannelMessage? <==> ArrivesBy(arrival, FirstDeadline, firstTie)) &&
      (x.reply.ChannelMessage? ==> x.reply.data == data && x.followUp.NoFollowUp?) &&
      (!x.reply.ChannelMessage? ==> x.reply == AckWithSource(execute.value)) &&
      (x.followUp.EditOriginal? <==>
         !ArrivesBy(arrival, FirstDeadline, firstTie) && ArrivesBy(arrival, SecondTimer(ackDelay), secondTie)) &&
      (x.followUp.EditOriginal? ==> x.followUp == EditOriginal(data.content, data.embeds, data.allowedMentions))
  {
  }

  /** A result that never arrives leaves the acknowledgement alone. */
  lemma NeverArrivingResult(execute: Result<bool>, data: CallbackData, ackDelay: nat, firstTie: bool, secondTie: bool)
    requires execute.Ok?
    ensures CommandExchange(execute, data, Never, ackDelay, firstTie, secondTie)
            == Answered(AckWithSource(execute.value), NoFollowUp)
  {
  }

  /** The second deadline counts from the deferral: a result at 16 000 ms
      is still delivered as an edit. */
  lemma SecondDeadlineFromDeferral(deferDefault: bool, data: CallbackData, ackDelay: nat, firstTie: bool, secondTie: bool)
    ensures CommandExchange(Ok(deferDefault), data, At(16000), ackDelay, firstTie, secondTie)
            == Answered(AckWithSource(deferDefault), EditOriginal(data.content, data.embeds, data.allowedMentions))
    ensures CommandExchange(Ok(deferDefault), data, At(SecondTimer(ackDelay) + 1), ackDelay, firstTie, secondTie)
            == Answered(AckWithSource(deferDefault), NoFollowUp)
  {
  }

  /** Components follow the same shape. */
  lemma ComponentReplyProtocol(response: ButtonResponse, arrival: Arrival, ackDelay: nat, firstTie: bool, secondTie: bool)
    ensures var x := ComponentExchange(response, arrival, ackDelay, firstTie, secondTie);
      x.Answered? &&
      (x.reply == Built(response) <==> ArrivesBy(arrival, FirstDeadline, firstTie)) &&
      (x.reply != Built(response) ==> x.reply == DeferredMessageUpdate) &&
      (x.followUp.HandleDeferred? ==> x.reply == DeferredMessageUpdate && x.followUp.response == response)
  {
  }

  /** A modal submit is never acknowledged early: its only reply is the
      result, and without one nothing is written. */
  lemma ModalNeverDeferred(response: ButtonResponse, arrival: Arrival)
    ensures ModalExchange(response, arrival).Answered? <==> arrival.At?
    ensures ModalExchange(response, arrival).Answered? ==>
      ModalExchange(response, arrival) == Answered(Built(response), NoFollowUp)
  {
  }
}
