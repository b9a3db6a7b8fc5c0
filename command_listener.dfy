/** The free-text command front end (bot/listeners/command.go): prefix
    recognition, tokenising, resolution against the command tree, the
    ordered rejection gates, and the hand-off of coerced and bound
    arguments to the handler. Lookups (permission tier, blacklist, premium
    tier, slash-command ids, bot admin/helper) are inputs. */
module CommandListener {

  import opened Base
  import opened Registry
  import opened ArgumentCoercion
  import SliceUtils

  /** The parts of a MessageCreate event the listener reads. */
  datatype Message = Message(authorIsBot: bool, authorId: nat, guildId: nat, content: string)

  /** Everything the listener looks up, with each fallible lookup as a
      Result; `parseFloat` says which tokens strconv.ParseFloat accepts. */
  datatype Environment = Environment(
    botId: nat,
    isWhitelabel: bool,
    defaultPrefix: string,
    permissionLevel: Result<int>,
    blacklisted: Result<bool>,
    premiumTier: Result<PremiumTier>,
    commandIds: Result<map<string, nat>>,
    isBotAdmin: bool,
    isBotHelper: bool,
    parseFloat: string -> bool)

  datatype DropReason =
    | BotAuthor
    | DirectMessage
    | NoPrefix
    | NoCommand
    | MainBotOnly
    | PermissionLookupFailed
    | LookupFailed
    | CommandIdsFailed

  /** A red reply: title key, message key and format arguments. */
  datatype Reply = Reply(title: string, message: string, format: seq<string>)

  /** What handling one message amounts to. `Rejected` is ctx.Reject()
      followed by the reply; `ArgumentRejected` is the reply alone.
      `Dispatched` is the goroutine started on the handler with `params`;
      the call inside it panics unless `CallAccepted` holds. */
  datatype Outcome =
    | Dropped(reason: DropReason)
    | Panicked
    | CrossReaction
    | Rejected(reply: Reply)
    | ArgumentRejected(message: string)
    | Dispatched(command: Command, root: Command, params: seq<Param>, reported: seq<int>)

  // ---------------------------------------------------------------------
  // Prefix recognition (lines 52-64)
  // ---------------------------------------------------------------------

  function MentionPrefix(botId: nat): string {
    "<@" + FormatDecimal(botId) + ">"
  }

  /** The command text after the prefix, or None when neither the exact
      mention nor (case-insensitively) the default prefix starts the
      message. The prefix is removed case-sensitively. */
  function CommandText(content: string, botId: nat, defaultPrefix: string): (r: Option<string>)
    ensures r.Some? ==> |r.value| <= |content|
    ensures r.Some? && r.value != [] ==> !IsSpace(r.value[0]) && !IsSpace(r.value[|r.value| - 1])
  {
    if HasPrefix(content, MentionPrefix(botId)) then Some(TrimSpace(TrimPrefix(content, MentionPrefix(botId))))
    else if HasPrefix(ToLower(content), defaultPrefix) then Some(TrimSpace(TrimPrefix(content, defaultPrefix)))
    else None
  }

  method Recognise(content: string, botId: nat, defaultPrefix: string) returns (text: Option<string>)
    ensures text == CommandText(content, botId, defaultPrefix)
  {
    var mentionPrefix := "<@" + FormatDecimal(botId) + ">";
    var usedPrefix: string;
    if HasPrefix(content, mentionPrefix) {
      usedPrefix := mentionPrefix;
    } else if HasPrefix(ToLower(content), defaultPrefix) {
      usedPrefix := defaultPrefix;
    } else {
      return None;
    }
    var trimmed := TrimPrefix(content, usedPrefix);
    text := Some(TrimSpace(trimmed));
  }

  /** A message starting with the bot's mention is a command, whatever
      follows; the mention is removed. */
  lemma MentionIsRecognised(botId: nat, rest: string, defaultPrefix: string)
    ensures CommandText(MentionPrefix(botId) + rest, botId, defaultPrefix) == Some(TrimSpace(rest))
  {
    var s := MentionPrefix(botId) + rest;
    assert s[..|MentionPrefix(botId)|] == MentionPrefix(botId);
    assert s[|MentionPrefix(botId)|..] == rest;
  }

  /** A default prefix written in other letter case is recognised but not
      removed: it stays at the head of the root token. */
  lemma DifferentlyCasedPrefixStays(content: string, botId: nat, defaultPrefix: string)
    requires !HasPrefix(content, MentionPrefix(botId))
    requires HasPrefix(ToLower(content), defaultPrefix) && !HasPrefix(content, defaultPrefix)
    ensures CommandText(content, botId, defaultPrefix) == Some(TrimSpace(content))
  {
  }

  /** Neither prefix: not a command. */
  lemma NoPrefixNoCommand(content: string, botId: nat, defaultPrefix: string)
    ensures CommandText(content, botId, defaultPrefix).None? <==>
      !HasPrefix(content, MentionPrefix(botId)) && !HasPrefix(ToLower(content), defaultPrefix)
  {
  }

  // ---------------------------------------------------------------------
  // Tokenising (lines 66-76)
  // ---------------------------------------------------------------------

  /** The pieces that are not empty, in order. */
  function NonEmpty(pieces: seq<string>): seq<string> {
    if pieces == [] then []
    else NonEmpty(pieces[..|pieces| - 1]) + (if pieces[|pieces| - 1] != "" then [pieces[|pieces| - 1]] else [])
  }

  lemma {:induction false} NonEmptyMembers(pieces: seq<string>)
    ensures forall x :: x in NonEmpty(pieces) <==> x in pieces && x != ""
  {
    if pieces != [] {
      var init := pieces[..|pieces| - 1];
      NonEmptyMembers(init);
      assert pieces == init + [pieces[|pieces| - 1]];
    }
  }

  method Tokenise(content: string) returns (root: string, args: seq<string>)
    ensures root == Split(content, ' ')[0]
    ensures args == NonEmpty(Split(content, ' ')[1..])
  {
    var split := Split(content, ' ');
    root := split[0];
    args := [];
    if |split| > 1 {
      var rest := split[1..];
      for k := 0 to |rest|
        invariant args == NonEmpty(rest[..k])
      {
        assert rest[..k + 1][..k] == rest[..k];
        if rest[k] != "" {
          args := args + [rest[k]];
        }
      }
      assert rest[..|rest|] == rest;
    }
  }

  /** The root and every argument token are free of spaces; the arguments
      are exactly the non-empty pieces after the first. */
  lemma TokensShape(content: string)
    ensures forall j :: 0 <= j < |Split(content, ' ')[0]| ==> Split(content, ' ')[0][j] != ' '
    ensures forall x :: x in NonEmpty(Split(content, ' ')[1..]) <==> x in Split(content, ' ')[1..] && x != ""
    ensures forall x :: x in NonEmpty(Split(content, ' ')[1..]) ==> forall j :: 0 <= j < |x| ==> x[j] != ' '
  {
    var split := Split(content, ' ');
    NonEmptyMembers(split[1..]);
    forall x | x in NonEmpty(split[1..])
      ensures forall j :: 0 <= j < |x| ==> x[j] != ' '
    {
      var k :| 1 <= k < |split| && split[k] == x;
    }
  }

  // ---------------------------------------------------------------------
  // Resolution against the command tree (lines 78-114)
  // ---------------------------------------------------------------------

  /** A command answers to a token by its name, case-insensitively, or by
      an alias equal to the lowercased token (aliases are not lowercased). */
  predicate Matches(c: Command, token: string) {
    ToLower(c.name) == ToLower(token) || ToLower(token) in c.aliases
  }

  /** How a token is written does not matter. */
  lemma MatchIgnoresTokenCase(c: Command, token: string)
    ensures Matches(c, token) <==> Matches(c, ToLower(token))
  {
    ToLowerIdempotent(token);
  }

  /** An alias with an upper-case letter never matches through the alias
      list. */
  lemma UppercaseAliasIsDead(alias: string, token: string)
    requires exists j :: 0 <= j < |alias| && IsUpper(alias[j])
    ensures ToLower(token) != alias
  {
    ToLowerHasNoUpper(token);
  }

  /** How many of `cs` match `token`. */
  function MatchCount(cs: seq<Command>, token: string): nat {
    if cs == [] then 0
    else MatchCount(cs[..|cs| - 1], token) + (if Matches(cs[|cs| - 1], token) then 1 else 0)
  }

  /** The last of `cs` matching `token`, or `otherwise` when none does. */
  function LastMatch(cs: seq<Command>, token: string, otherwise: Command): Command {
    if cs == [] then otherwise
    else if Matches(cs[|cs| - 1], token) then cs[|cs| - 1]
    else LastMatch(cs[..|cs| - 1], token, otherwise)
  }

  lemma {:induction false} LastMatchIsMatchingChild(cs: seq<Command>, token: string, otherwise: Command)
    requires MatchCount(cs, token) > 0
    ensures LastMatch(cs, token, otherwise) in cs
    ensures Matches(LastMatch(cs, token, otherwise), token)
  {
    if !Matches(cs[|cs| - 1], token) {
      LastMatchIsMatchingChild(cs[..|cs| - 1], token, otherwise);
    }
  }

  lemma {:induction false} LastMatchOfNone(cs: seq<Command>, token: string, otherwise: Command)
    requires MatchCount(cs, token) == 0
    ensures LastMatch(cs, token, otherwise) == otherwise
  {
    if cs != [] {
      LastMatchOfNone(cs[..|cs| - 1], token, otherwise);
    }
  }

  /** Where the descent below a command stops: the command reached and the
      index of the first token it did not consume. */
  datatype Descent = Descent(leaf: Command, index: nat)

  /** One level per token: every child matching the token bumps the index
      and the last of them becomes the parent; a token no child matches,
      or the end of the tokens, stops the descent. */
  function Descend(parent: Command, args: seq<string>, index: nat): (d: Descent)
    ensures index <= d.index
    ensures d.index == index ==> d.leaf == parent
    decreases |args| - index
  {
    if |args| > index && MatchCount(parent.children, args[index]) > 0 then
      Descend(LastMatch(parent.children, args[index], parent), args,
              index + MatchCount(parent.children, args[index]))
    else Descent(parent, index)
  }

  /** The descent never moves back, and it stops at the end of the tokens
      or at a token that no child of the reached command matches. */
  lemma {:induction false} DescentStops(parent: Command, args: seq<string>, index: nat)
    ensures index <= Descend(parent, args, index).index
    ensures var d := Descend(parent, args, index);
      d.index >= |args| || MatchCount(d.leaf.children, args[d.index]) == 0
    decreases |args| - index
  {
    if |args| > index && MatchCount(parent.children, args[index]) > 0 {
      DescentStops(LastMatch(parent.children, args[index], parent), args,
                   index + MatchCount(parent.children, args[index]));
    }
  }

  /** Matched commands and the command tree the resolution settled on. */
  datatype Match = Match(command: Command, root: Command)

  /** The state of the top-level loop; `Panic` is the out-of-range slice
      args[index:] that Go reports as a runtime panic. */
  datatype Resolution = Resolved(found: Option<Match>, args: seq<string>) | Panic

  /** One top-level command, processed against the current tokens. */
  function ResolveStep(st: Resolution, cmd: Command, root: string): (r: Resolution)
    ensures st.Panic? ==> r.Panic?
    ensures st.Resolved? && !Matches(cmd, root) ==> r == st
    ensures st.Resolved? && Matches(cmd, root) && r.Resolved? ==>
      r.found.Some? && r.found.value.root == cmd &&
      |r.args| <= |st.args| && r.args == st.args[|st.args| - |r.args|..]
  {
    match st
    case Panic => Panic
    case Resolved(found, args) =>
      if !Matches(cmd, root) then st
      else
        var d := Descend(cmd, args, 0);
        if |args| > 0 && d.index > |args| then Panic
        else Resolved(Some(Match(d.leaf, cmd)), if |args| > 0 then args[d.index..] else [])
  }

  /** The top-level loop: it does not stop at the first match. */
  function ResolveAll(registry: seq<Command>, root: string, args: seq<string>): (r: Resolution)
    ensures r.Resolved? && r.found.None? ==> r.args == args
  {
    if registry == [] then Resolved(None, args)
    else ResolveStep(ResolveAll(registry[..|registry| - 1], root, args), registry[|registry| - 1], root)
  }

  /** The inner child loop for one token: it does not break, so every
      matching child bumps the index and the last one becomes the parent. */
  method ScanChildren(children: seq<Command>, childName: string, parent0: Command, index0: nat)
    returns (parent: Command, index: nat, found: bool)
    ensures found <==> MatchCount(children, childName) > 0
    ensures index == index0 + MatchCount(children, childName)
    ensures parent == LastMatch(children, childName, parent0)
  {
    parent, index, found := parent0, index0, false;
    for j := 0 to |children|
      invariant found <==> MatchCount(children[..j], childName) > 0
      invariant index == index0 + MatchCount(children[..j], childName)
      invariant parent == LastMatch(children[..j], childName, parent0)
    {
      assert children[..j + 1][..j] == children[..j];
      var childAlias := SliceUtils.Contains(children[j].aliases, ToLower(childName));
      if ToLower(children[j].name) == ToLower(childName) || childAlias {
        parent := children[j];
        found := true;
        index := index + 1;
      }
    }
    assert children[..|children|] == children;
  }

  /** The descent loop below a matched top-level command. */
  method DescendFrom(cmd: Command, args: seq<string>) returns (d: Descent)
    ensures d == Descend(cmd, args, 0)
  {
    var parent := cmd;
    var index: nat := 0;
    while true
      invariant Descend(parent, args, index) == Descend(cmd, args, 0)
      decreases |args| - index
    {
      if |args| > index {
        ghost var parent0, before := parent, Descend(parent, args, index);
        var found;
        parent, index, found := ScanChildren(parent.children, args[index], parent, index);
        if !found {
          LastMatchOfNone(parent0.children, args[index], parent0);
          assert before == Descent(parent, index);
          d := Descent(parent, index);
          return;
        }
      } else {
        d := Descent(parent, index);
        return;
      }
    }
  }

  /** Once the slice has panicked, the later commands are never reached. */
  lemma {:induction false} PanicIsFinal(registry: seq<Command>, k: nat, root: string, args: seq<string>)
    requires k <= |registry| && ResolveAll(registry[..k], root, args) == Panic
    ensures ResolveAll(registry, root, args) == Panic
    decreases |registry| - k
  {
    if k < |registry| {
      assert registry[..k + 1][..k] == registry[..k];
      PanicIsFinal(registry, k + 1, root, args);
    } else {
      assert registry[..k] == registry;
    }
  }

  method Resolve(registry: seq<Command>, root: string, args0: seq<string>) returns (r: Resolution)
    ensures r == ResolveAll(registry, root, args0)
  {
    var args := args0;
    var c: Option<Match> := None;
    for n := 0 to |registry|
      invariant ResolveAll(registry[..n], root, args0) == Resolved(c, args)
    {
      assert registry[..n + 1][..n] == registry[..n];
      var cmd := registry[n];
      var aliasHit := SliceUtils.Contains(cmd.aliases, ToLower(root));
      if ToLower(cmd.name) == ToLower(root) || aliasHit {
        var d := DescendFrom(cmd, args);
        if |args| > 0 && d.index > |args| {
          PanicIsFinal(registry, n + 1, root, args0);
          return Panic;
        }
        var childArgs: seq<string> := [];
        if |args| > 0 {
          childArgs := args[d.index..];
        }
        args := childArgs;
        c := Some(Match(d.leaf, cmd));
      }
    }
    assert registry[..|registry|] == registry;
    r := Resolved(c, args);
  }

  /** Nothing is found exactly when no top-level command matches. */
  lemma {:induction false} NothingFoundIffNoMatch(registry: seq<Command>, root: string, args: seq<string>)
    ensures ResolveAll(registry, root, args) == Resolved(None, args) <==>
      forall i :: 0 <= i < |registry| ==> !Matches(registry[i], root)
  {
    if registry != [] {
      var init := registry[..|registry| - 1];
      NothingFoundIffNoMatch(init, root, args);
      assert forall i :: 0 <= i < |init| ==> init[i] == registry[i];
    }
  }

  /** A step leaves the state alone for a command that does not match, and
      otherwise records that command (unless it panics). */
  lemma StepOutcome(st: Resolution, cmd: Command, root: string)
    ensures !Matches(cmd, root) ==> ResolveStep(st, cmd, root) == st
    ensures Matches(cmd, root) && ResolveStep(st, cmd, root).Resolved? ==>
      ResolveStep(st, cmd, root).found.Some? && ResolveStep(st, cmd, root).found.value.root == cmd
  {
  }

  /** A non-matching last command keeps "no match after i" true. */
  lemma NoLaterMatch(registry: seq<Command>, init: seq<Command>, root: string, i: nat)
    requires registry != [] && init == registry[..|registry| - 1] && i < |init|
    requires forall j :: i < j < |init| ==> !Matches(init[j], root)
    requires !Matches(registry[|registry| - 1], root)
    ensures forall j :: i < j < |registry| ==> !Matches(registry[j], root)
  {
    assert forall j :: i < j < |init| ==> registry[j] == init[j];
  }

  /** The resolved tree is the LAST top-level command matching the root. */
  lemma {:induction false} LastTopLevelMatchWins(registry: seq<Command>, root: string, args: seq<string>)
    requires ResolveAll(registry, root, args).Resolved? && ResolveAll(registry, root, args).found.Some?
    ensures var m := ResolveAll(registry, root, args).found.value;
      Matches(m.root, root) &&
      exists i :: 0 <= i < |registry| && registry[i] == m.root &&
        forall j :: i < j < |registry| ==> !Matches(registry[j], root)
  {
    assert registry != [];
    var init, last := registry[..|registry| - 1], registry[|registry| - 1];
    var prev := ResolveAll(init, root, args);
    var r := ResolveAll(registry, root, args);
    assert r == ResolveStep(prev, last, root);
    StepOutcome(prev, last, root);
    var m := r.found.value;
    if !Matches(last, root) {
      assert r == prev;
      LastTopLevelMatchWins(init, root, args);
      var i :| 0 <= i < |init| && init[i] == m.root &&
        forall j :: i < j < |init| ==> !Matches(init[j], root);
      assert registry[i] == m.root;
      NoLaterMatch(registry, init, root, i);
    } else {
      assert m.root == last;
      var i := |registry| - 1;
      assert registry[i] == m.root;
    }
  }

  /** A command with no aliases, arguments, children or flags. */
  function Bare(name: string, children: seq<Command>): Command {
    Command(name, [], Everyone, false, false, false, false, false, false, [], children)
  }

  /** Two top-level commands named "x": for "x y z" the first descends into
      its child "y" and leaves ["z"], which the second then consumes. */
  lemma SecondTopLevelMatchSeesTrimmedArgs()
    ensures var a := Bare("x", [Bare("y", [])]);
            var b := Bare("x", [Bare("z", [])]);
            ResolveAll([a, b], "x", ["y", "z"]) == Resolved(Some(Match(Bare("z", []), b)), [])
  {
    var y, z := Bare("y", []), Bare("z", []);
    var a, b := Bare("x", [y]), Bare("x", [z]);
    assert [y][..0] == [] && [z][..0] == [];
    assert Matches(y, "y") && Matches(z, "z") && !Matches(y, "z") && !Matches(z, "y");
    assert MatchCount([y], "y") == 1 && LastMatch([y], "y", a) == y;
    assert MatchCount(y.children, "z") == 0;
    assert Descend(y, ["y", "z"], 1) == Descent(y, 1);
    assert Descend(a, ["y", "z"], 0) == Descent(y, 1);
    assert ResolveAll([a], "x", ["y", "z"]) == Resolved(Some(Match(y, a)), ["z"]) by {
      assert [a][..0] == [];
      assert ["y", "z"][1..] == ["z"];
    }
    assert MatchCount([z], "z") == 1 && LastMatch([z], "z", b) == z;
    assert Descend(z, ["z"], 1) == Descent(z, 1);
    assert Descend(b, ["z"], 0) == Descent(z, 1);
    assert [a, b][..1] == [a];
  }

  /** No two children of any command in the tree answer to the same token. */
  ghost predicate Unambiguous(c: Command)
    decreases c
  {
    (forall token :: MatchCount(c.children, token) <= 1) &&
    (forall i :: 0 <= i < |c.children| ==> Unambiguous(c.children[i]))
  }

  lemma {:induction false} UnambiguousDescentInRange(parent: Command, args: seq<string>, index: nat)
    requires Unambiguous(parent) && index <= |args|
    ensures Descend(parent, args, index).index <= |args|
    decreases |args| - index
  {
    if |args| > index && MatchCount(parent.children, args[index]) > 0 {
      var child := LastMatch(parent.children, args[index], parent);
      LastMatchIsMatchingChild(parent.children, args[index], parent);
      var i :| 0 <= i < |parent.children| && parent.children[i] == child;
      assert Unambiguous(parent.children[i]);
      assert MatchCount(parent.children, args[index]) == 1;
      assert Descend(parent, args, index) == Descend(child, args, index + 1);
      UnambiguousDescentInRange(child, args, index + 1);
    }
  }

  /** With unambiguous trees the tail slice is always in range. */
  lemma {:induction false} UnambiguousRegistryNeverPanics(registry: seq<Command>, root: string, args: seq<string>)
    requires forall i :: 0 <= i < |registry| ==> Unambiguous(registry[i])
    ensures ResolveAll(registry, root, args).Resolved?
  {
    if registry != [] {
      var init := registry[..|registry| - 1];
      assert forall i :: 0 <= i < |init| ==> init[i] == registry[i];
      UnambiguousRegistryNeverPanics(init, root, args);
      var prev := ResolveAll(init, root, args);
      UnambiguousDescentInRange(registry[|registry| - 1], prev.args, 0);
    }
  }

  /** Two children with the same name and the single token that names
      them: the index jumps past the end and the slice panics. */
  lemma DuplicateChildrenPanic()
    ensures ResolveAll([Bare("x", [Bare("a", []), Bare("a", [])])], "x", ["a"]) == Panic
  {
    var p := Bare("x", [Bare("a", []), Bare("a", [])]);
    assert [p][..0] == [];
    assert p.children[..1] == [Bare("a", [])];
    assert p.children[..1][..0] == [];
    assert MatchCount(p.children, "a") == 2;
    assert Descend(p, ["a"], 0) == Descent(Bare("a", []), 2);
  }

  // ---------------------------------------------------------------------
  // The gate chain (lines 116-210)
  // ---------------------------------------------------------------------

  /** The slash-command mention used by the redirect message. */
  function CommandMention(ids: map<string, nat>, name: string): string {
    if name in ids then "</" + name + ":" + FormatDecimal(ids[name]) + ">" else "`COMMAND NOT FOUND`"
  }

  datatype GateResult = Stop(outcome: Outcome) | Proceed

  /** The gates after resolution, in source order. */
  function Authorize(c: Command, root: Command, env: Environment): (g: GateResult)
    ensures g.Stop? ==> g.outcome.Dropped? || g.outcome.CrossReaction? || g.outcome.Rejected?
    ensures g.Stop? && g.outcome.Dropped? ==>
      g.outcome.reason in {MainBotOnly, PermissionLookupFailed, LookupFailed, CommandIdsFailed}
    ensures g.Proceed? ==> c.adminOnly || c.helperOnly
  {
    if c.mainBotOnly && env.isWhitelabel then Stop(Dropped(MainBotOnly))
    else if env.permissionLevel.Err? then Stop(Dropped(PermissionLookupFailed))
    else if env.blacklisted.Err? || env.premiumTier.Err? then Stop(Dropped(LookupFailed))
    else if env.blacklisted.value then Stop(CrossReaction)
    else if !c.adminOnly && !c.helperOnly then
      match env.commandIds
      case Err(_) => Stop(Dropped(CommandIdsFailed))
      case Ok(ids) =>
        Stop(Rejected(Reply("Error", "MessageInteractionSwitch", [CommandMention(ids, ToLower(root.name))])))
    else if c.interactionOnly || root.interactionOnly then
      Stop(Rejected(Reply("Error", "MessageInteractionOnly", [root.name])))
    else if c.permissionLevel > env.permissionLevel.value then
      Stop(Rejected(Reply("Error", "MessageNoPermission", [])))
    else if c.adminOnly && !env.isBotAdmin then
      Stop(Rejected(Reply("Error", "MessageOwnerOnly", [])))
    else if c.helperOnly && !env.isBotHelper then
      Stop(Rejected(Reply("Error", "MessageNoPermission", [])))
    else if c.premiumOnly && env.premiumTier.value == NoTier then
      Stop(Rejected(Reply("TitlePremiumOnly", "MessagePremium", [])))
    else Proceed
  }

  method CheckGates(c: Command, root: Command, env: Environment) returns (g: GateResult)
    ensures g == Authorize(c, root, env)
  {
    if c.mainBotOnly && env.isWhitelabel {
      return Stop(Dropped(MainBotOnly));
    }
    if env.permissionLevel.Err? {
      return Stop(Dropped(PermissionLookupFailed));
    }
    var userPermissionLevel := env.permissionLevel.value;
    if env.blacklisted.Err? || env.premiumTier.Err? {
      return Stop(Dropped(LookupFailed));
    }
    if env.blacklisted.value {
      return Stop(CrossReaction);
    }
    if !c.adminOnly && !c.helperOnly {
      if env.commandIds.Err? {
        return Stop(Dropped(CommandIdsFailed));
      }
      var commandName := ToLower(root.name);
      var commandMention := "`COMMAND NOT FOUND`";
      if commandName in env.commandIds.value {
        commandMention := "</" + commandName + ":" + FormatDecimal(env.commandIds.value[commandName]) + ">";
      }
      return Stop(Rejected(Reply("Error", "MessageInteractionSwitch", [commandMention])));
    }
    if c.interactionOnly || root.interactionOnly {
      return Stop(Rejected(Reply("Error", "MessageInteractionOnly", [root.name])));
    }
    if c.permissionLevel > userPermissionLevel {
      return Stop(Rejected(Reply("Error", "MessageNoPermission", [])));
    }
    if c.adminOnly && !env.isBotAdmin {
      return Stop(Rejected(Reply("Error", "MessageOwnerOnly", [])));
    }
    if c.helperOnly && !env.isBotHelper {
      return Stop(Rejected(Reply("Error", "MessageNoPermission", [])));
    }
    if c.premiumOnly && env.premiumTier.value == NoTier {
      return Stop(Rejected(Reply("TitlePremiumOnly", "MessagePremium", [])));
    }
    return Proceed;
  }

  /** The silent gates come first, in order: main-bot-only on a white-label
      bot, then the permission lookup, then the blacklist/premium lookups. */
  lemma SilentGatesFirst(c: Command, root: Command, env: Environment)
    ensures c.mainBotOnly && env.isWhitelabel ==> Authorize(c, root, env) == Stop(Dropped(MainBotOnly))
    ensures (!(c.mainBotOnly && env.isWhitelabel) && env.permissionLevel.Err?) ==>
      Authorize(c, root, env) == Stop(Dropped(PermissionLookupFailed))
    ensures (!(c.mainBotOnly && env.isWhitelabel) && env.permissionLevel.Ok? &&
             (env.blacklisted.Err? || env.premiumTier.Err?)) ==>
      Authorize(c, root, env) == Stop(Dropped(LookupFailed))
  {
  }

  /** After the lookups, a blacklisted caller only gets the cross reaction. */
  lemma BlacklistBeforeReplies(c: Command, root: Command, env: Environment)
    requires !(c.mainBotOnly && env.isWhitelabel)
    requires env.permissionLevel.Ok? && env.blacklisted == Ok(true) && env.premiumTier.Ok?
    ensures Authorize(c, root, env) == Stop(CrossReaction)
  {
  }

  /** Every command that is neither admin-only nor helper-only is
      redirected to its slash form, before the remaining gates, whatever
      the caller's level or premium tier. */
  lemma EveryoneIsRedirected(c: Command, root: Command, env: Environment)
    requires !(c.mainBotOnly && env.isWhitelabel)
    requires env.permissionLevel.Ok? && env.blacklisted == Ok(false) && env.premiumTier.Ok?
    requires !c.adminOnly && !c.helperOnly
    ensures env.commandIds.Err? ==> Authorize(c, root, env) == Stop(Dropped(CommandIdsFailed))
    ensures env.commandIds.Ok? ==>
      Authorize(c, root, env) ==
        Stop(Rejected(Reply("Error", "MessageInteractionSwitch", [CommandMention(env.commandIds.value, ToLower(root.name))])))
  {
  }

  /** A command passes the gates exactly when every gate lets it through. */
  lemma ProceedExactly(c: Command, root: Command, env: Environment)
    ensures Authorize(c, root, env) == Proceed <==>
      !(c.mainBotOnly && env.isWhitelabel) &&
      env.permissionLevel.Ok? && env.blacklisted == Ok(false) && env.premiumTier.Ok? &&
      (c.adminOnly || c.helperOnly) &&
      !c.interactionOnly && !root.interactionOnly &&
      c.permissionLevel <= env.permissionLevel.value &&
      (c.adminOnly ==> env.isBotAdmin) &&
      (c.helperOnly ==> env.isBotHelper) &&
      (c.premiumOnly ==> env.premiumTier.value != NoTier)
  {
  }

  /** The redirect mention for a registered slash command. */
  lemma MentionOfRegisteredCommand(ids: map<string, nat>, name: string)
    requires name in ids
    ensures CommandMention(ids, name) == "</" + name + ":" + FormatDecimal(ids[name]) + ">"
    ensures |CommandMention(ids, name)| == |name| + |FormatDecimal(ids[name])| + 4
  {
  }

  // ---------------------------------------------------------------------
  // The whole listener
  // ---------------------------------------------------------------------

  /** Handler parameters: the context, then each slot bound as the worker
      binds it. For slots the coercion can leave, a parameter has its
      declared type exactly when its slot is not a typed nil. */
  function BindAll(specs: seq<Argument>, slots: seq<Slot>): (params: seq<Param>)
    requires |slots| == |specs|
    ensures |params| == |specs| + 1 && params[0] == ContextParam
    ensures forall i :: 0 <= i < |specs| && SlotFits(specs[i], slots[i]) ==>
      (TypeOf(params[i + 1]) == ParamType(specs[i]) <==> !slots[i].TypedNil?)
  {
    [ContextParam] + seq(|slots|, i requires 0 <= i < |slots| => BindAsWritten(specs[i], slots[i]))
  }

  /** Parameters bound one slot at a time are the ones `BindAll` gives. */
  lemma BoundAsWritten(specs: seq<Argument>, slots: seq<Slot>, params: seq<Param>)
    requires |slots| == |specs| && |params| == |slots| + 1 && params[0] == ContextParam
    requires forall i :: 0 <= i < |slots| ==> params[i + 1] == BindAsWritten(specs[i], slots[i])
    ensures params == BindAll(specs, slots)
  {
    var b := BindAll(specs, slots);
    forall i | 0 <= i < |params|
      ensures params[i] == b[i]
    {
      if i > 0 {
        assert b[i] == BindAsWritten(specs[i - 1], slots[i - 1]);
      }
    }
  }

  /** A resolved command through the gates and the argument coercion. */
  function Admit(m: Match, args: seq<string>, env: Environment): (o: Outcome)
    ensures o.Dispatched? <==>
      Authorize(m.command, m.root, env).Proceed? && CoerceFrom(m.command.arguments, args, 0, env.parseFloat).Coerced?
    ensures o.ArgumentRejected? ==> Authorize(m.command, m.root, env).Proceed?
    ensures o.Dropped? ==> o.reason != NoCommand
  {
    match Authorize(m.command, m.root, env)
    case Stop(o) => o
    case Proceed =>
      match CoerceFrom(m.command.arguments, args, 0, env.parseFloat)
      case Invalid(message) => ArgumentRejected(message)
      case Coerced(slots, reported) =>
        Dispatched(m.command, m.root, BindAll(m.command.arguments, slots), reported)
  }

  /** The command text through tokenising and resolution. */
  function Route(registry: seq<Command>, text: string, env: Environment): (o: Outcome)
    ensures o == Dropped(NoCommand) <==>
      forall i :: 0 <= i < |registry| ==> !Matches(registry[i], Split(text, ' ')[0])
  {
    var split := Split(text, ' ');
    var root, rest := split[0], NonEmpty(split[1..]);
    var r := ResolveAll(registry, root, rest);
    NothingFoundIffNoMatch(registry, root, rest);
    if r.Panic? then Panicked
    else if r.found.None? then Dropped(NoCommand)
    else Admit(r.found.value, r.args, env)
  }

  /** Specification of the listener. */
  function Handle(registry: seq<Command>, msg: Message, env: Environment): (o: Outcome)
    ensures o.Dispatched? ==> o.command.adminOnly || o.command.helperOnly
  {
    if msg.authorIsBot then Dropped(BotAuthor)
    else if msg.guildId == 0 then Dropped(DirectMessage)
    else match CommandText(msg.content, env.botId, env.defaultPrefix)
      case None => Dropped(NoPrefix)
      case Some(text) => Route(registry, text, env)
  }

  /** From a resolved command to the handler call: gates, coercion and
      binding. */
  method AdmitMatch(m: Match, args: seq<string>, env: Environment) returns (o: Outcome)
    ensures o == Admit(m, args, env)
  {
    var gate := CheckGates(m.command, m.root, env);
    if gate.Stop? {
      return gate.outcome;
    }
    var coercion := Coerce(m.command.arguments, args, env.parseFloat);
    if coercion.Invalid? {
      return ArgumentRejected(coercion.message);
    }
    var params := BindArguments(m.command.arguments, coercion.slots);
    BoundAsWritten(m.command.arguments, coercion.slots, params);
    o := Dispatched(m.command, m.root, params, coercion.reported);
  }

  method HandleMessage(registry: seq<Command>, msg: Message, env: Environment) returns (o: Outcome)
    ensures o == Handle(registry, msg, env)
  {
    if msg.authorIsBot {
      return Dropped(BotAuthor);
    }
    if msg.guildId == 0 {
      return Dropped(DirectMessage);
    }
    var text := Recognise(msg.content, env.botId, env.defaultPrefix);
    if text.None? {
      return Dropped(NoPrefix);
    }
    assert Handle(registry, msg, env) == Route(registry, text.value, env);
    var root, args := Tokenise(text.value);
    var resolution := Resolve(registry, root, args);
    if resolution.Panic? {
      return Panicked;
    }
    if resolution.found.None? {
      return Dropped(NoCommand);
    }
    o := AdmitMatch(resolution.found.value, resolution.args, env);
  }

  /** Bot authors and direct messages are ignored before anything else. */
  lemma IgnoredMessages(registry: seq<Command>, msg: Message, env: Environment)
    ensures msg.authorIsBot ==> Handle(registry, msg, env) == Dropped(BotAuthor)
    ensures !msg.authorIsBot && msg.guildId == 0 ==> Handle(registry, msg, env) == Dropped(DirectMessage)
    ensures (!msg.authorIsBot && msg.guildId != 0 &&
             !HasPrefix(msg.content, MentionPrefix(env.botId)) && !HasPrefix(ToLower(msg.content), env.defaultPrefix)) ==>
      Handle(registry, msg, env) == Dropped(NoPrefix)
  {
  }

  /** A handler runs only for a command that passed every gate, with the
      context first and the coerced slots bound as written; reflection
      accepts the call exactly when no slot is a typed nil, so every failed
      optional integer, boolean or number makes the handler call panic. */
  lemma AdmittedOnlyPastTheGates(m: Match, args: seq<string>, env: Environment)
    requires Admit(m, args, env).Dispatched?
    ensures var o := Admit(m, args, env);
      var c := CoerceFrom(m.command.arguments, args, 0, env.parseFloat);
      o.command == m.command && o.root == m.root &&
      Authorize(m.command, m.root, env) == Proceed &&
      (m.command.adminOnly || m.command.helperOnly) &&
      c.Coerced? && o.params == BindAll(m.command.arguments, c.slots) &&
      (CallAccepted(m.command.arguments, o.params) <==>
        forall i :: 0 <= i < |m.command.arguments| ==> !c.slots[i].TypedNil?)
  {
    var c := CoerceFrom(m.command.arguments, args, 0, env.parseFloat);
    CoercedSlotsFit(m.command.arguments, args, 0, env.parseFloat);
    ProceedExactly(m.command, m.root, env);
    var ps := BindAll(m.command.arguments, c.slots);
    assert forall i :: 0 <= i < |m.command.arguments| ==> TypeOf(ps[i + 1]) == TypeOf(BindAsWritten(m.command.arguments[i], c.slots[i]));
  }

  /** The same, for a whole message: a dispatch is always the admission of
      the command the resolution settled on. */
  lemma DispatchedOnlyPastTheGates(registry: seq<Command>, msg: Message, env: Environment)
    requires Handle(registry, msg, env).Dispatched?
    ensures var text := CommandText(msg.content, env.botId, env.defaultPrefix);
      var split := Split(text.value, ' ');
      text.Some? &&
      ResolveAll(registry, split[0], NonEmpty(split[1..])).Resolved? &&
      ResolveAll(registry, split[0], NonEmpty(split[1..])).found.Some? &&
      var res := ResolveAll(registry, split[0], NonEmpty(split[1..]));
      Handle(registry, msg, env) == Admit(res.found.value, res.args, env)
  {
    var text := CommandText(msg.content, env.botId, env.defaultPrefix);
    assert text.Some?;
    assert Handle(registry, msg, env) == Route(registry, text.value, env);
  }
}
