/** The switchpanel command (bot/command/impl/tickets/switchpanel.go): its
    autocomplete handler, and the Execute chain with the welcome-embed
    rewrite and the choice of new permission overwrites. Database reads,
    REST calls and the overwrite and embed builders are inputs. */
module SwitchPanel {

  import opened Base
  import Claim

  /** The panel fields the command reads. */
  datatype Panel = Panel(panelId: int, guildId: nat, title: string, targetCategory: nat)

  /** ApplicationCommandOptionChoice, with the panel id as its value. */
  datatype Choice = Choice(name: string, value: int)

  const MaxChoices: nat := 25

  // ---------------------------------------------------------------------
  // AutoCompleteHandler (lines 209-234)
  // ---------------------------------------------------------------------

  /** None is the nil slice: no guild, or the panel lookup failed. */
  method AutoCompleteHandler(guildId: nat, panels: Result<seq<Panel>>) returns (r: Option<seq<Choice>>)
    ensures r.None? <==> guildId == 0 || panels.Err?
    ensures r.Some? ==>
      |r.value| == (if |panels.value| > MaxChoices then MaxChoices else |panels.value|) &&
      forall i :: 0 <= i < |r.value| ==> r.value[i] == Choice(panels.value[i].title, panels.value[i].panelId)
  {
    if guildId == 0 {
      return None;
    }
    if panels.Err? {
      return None;
    }
    var ps := panels.value;
    if |ps| > MaxChoices {
      ps := ps[..MaxChoices];
    }
    var choices := new Choice[|ps|](_ => Choice("", 0));
    for i := 0 to |ps|
      invariant forall k :: 0 <= k < i ==> choices[k] == Choice(ps[k].title, ps[k].panelId)
    {
      choices[i] := Choice(ps[i].title, ps[i].panelId);
    }
    return Some(choices[..]);
  }

  // ---------------------------------------------------------------------
  // Welcome message (lines 81-118)
  // ---------------------------------------------------------------------

  datatype Embed = Embed(title: string, color: nat, description: string)

  const NoSubject: string := "No subject given"

  /** The subject the welcome embed is rebuilt with. */
  function WelcomeSubject(embeds: seq<Embed>): (subject: string)
    ensures embeds == [] ==> subject == NoSubject
    ensures embeds != [] ==> subject == embeds[0].title
  {
    if |embeds| == 0 then NoSubject else embeds[0].title
  }

  /** Each embed given colour `c`, everything else kept. */
  function Painted(es: seq<Embed>, c: nat): seq<Embed> {
    if es == [] then [] else Painted(es[..|es| - 1], c) + [es[|es| - 1].(color := c)]
  }

  lemma {:induction false} PaintedShape(es: seq<Embed>, c: nat)
    ensures |Painted(es, c)| == |es|
    ensures forall i :: 0 <= i < |es| ==> Painted(es, c)[i] == es[i].(color := c)
  {
    if es != [] {
      PaintedShape(es[..|es| - 1], c);
    }
  }

  /** The embed list after the loop of lines 103-105. */
  function Recoloured(es: seq<Embed>): seq<Embed> {
    if es == [] then [] else [es[0]] + Painted(es[1..], es[0].color)
  }

  /** Recolouring keeps the first embed whole and gives every later embed
      the first one's colour, its title and description unchanged. */
  lemma RecolouredShape(es: seq<Embed>)
    requires es != []
    ensures var r := Recoloured(es);
      |r| == |es| && r[0] == es[0] &&
      forall i :: 1 <= i < |es| ==> r[i] == es[i].(color := es[0].color)
  {
    PaintedShape(es[1..], es[0].color);
    var r := Recoloured(es);
    forall i | 1 <= i < |es|
      ensures r[i] == es[i].(color := es[0].color)
    {
      assert r[i] == Painted(es[1..], es[0].color)[i - 1];
      assert es[1..][i - 1] == es[i];
    }
  }

  /** The loop of lines 103-105, in place. */
  method RecolourEmbeds(embeds: array<Embed>)
    modifies embeds
    ensures embeds[..] == Recoloured(old(embeds[..]))
  {
    if embeds.Length == 0 {
      return;
    }
    ghost var original := embeds[..];
    var c := embeds[0].color;
    for i := 1 to embeds.Length
      invariant embeds[0] == original[0]
      invariant forall k :: 1 <= k < i ==> embeds[k] == original[k].(color := c)
      invariant forall k :: i <= k < embeds.Length ==> embeds[k] == original[k]
    {
      embeds[i] := embeds[i].(color := c);
    }
    RecolouredShape(original);
    assert embeds[..] == Recoloured(original);
  }

  // ---------------------------------------------------------------------
  // Execute (lines 40-207)
  // ---------------------------------------------------------------------

  /** The ticket fields the command reads. */
  datatype Ticket = Ticket(
    id: nat, userId: nat, channelId: Option<nat>, isThread: bool,
    welcomeMessageId: Option<nat>, joinMessageId: Option<nat>)

  datatype Effect =
    | HandleError(error: string)
    | ReplyNotATicket
    | Rejected
    | ReplyInvalidPanel
    | SetPanelId(ticketId: nat, panelId: int)
    | EditWelcome(messageId: nat, embeds: seq<Embed>)
    | Warning(error: string)
    | ModifyChannel(channelId: nat, name: string, overwrites: Option<seq<Claim.Overwrite>>, parent: Option<nat>)
    | ReplyThreadSwitched
    | EditJoinMessage(channelId: nat, messageId: nat)
    | LogOnly(error: string)
    | ReplySwitched(panelTitle: string, userId: nat)

  /** Everything the command reads from outside. `welcomeEmbed` stands for
      BuildWelcomeMessageEmbed given the subject; `unclaimed` for
      CreateOverwrites, `fallback` for its second call, and `claimed` for
      GenerateClaimedOverwrites. */
  datatype World = World(
    ticket: Result<Ticket>,
    panel: Result<Panel>,
    setPanel: Result<()>,
    claimer: Result<nat>,
    welcome: Result<seq<Embed>>,
    welcomeEmbed: string -> Result<Embed>,
    welcomeEdit: Result<()>,
    channelName: Result<string>,
    notificationChannel: Result<Option<nat>>,
    rename: Result<()>,
    threadStaff: Result<()>,
    joinEdit: Result<()>,
    members: Result<seq<nat>>,
    unclaimed: Result<seq<Claim.Overwrite>>,
    claimed: Result<Option<seq<Claim.Overwrite>>>,
    fallback: Result<seq<Claim.Overwrite>>,
    update: Result<()>)

  /** The new embed list: the rebuilt first embed (in a fresh slot when the
      message had none) and the rest, recoloured. */
  function WelcomeEmbeds(current: seq<Embed>, first: Embed): (r: seq<Embed>)
    ensures |r| == if current == [] then 1 else |current|
    ensures r[0] == first
    ensures forall i :: 1 <= i < |r| ==> r[i] == current[i].(color := first.color)
  {
    var slots := if current == [] then [first] else [first] + current[1..];
    RecolouredShape(slots);
    PaintedShape(slots[1..], first.color);
    Recoloured(slots)
  }

  /** The welcome-message step: its effects, and whether the command stops
      there. A message that cannot be fetched is skipped. */
  function WelcomeStep(t: Ticket, w: World): (r: (seq<Effect>, bool))
    ensures r.1 <==> t.welcomeMessageId.Some? && w.welcome.Ok? && w.welcomeEmbed(WelcomeSubject(w.welcome.value)).Err?
    ensures r.1 ==> r.0 == [HandleError(w.welcomeEmbed(WelcomeSubject(w.welcome.value)).error)]
    ensures forall e :: e in r.0 ==> e.EditWelcome? || e.Warning? || e.HandleError?
  {
    if t.welcomeMessageId.None? || w.welcome.Err? then ([], false)
    else
      var embeds := w.welcome.value;
      match w.welcomeEmbed(WelcomeSubject(embeds))
      case Err(e) => ([HandleError(e)], true)
      case Ok(first) =>
        var edit := EditWelcome(t.welcomeMessageId.value, WelcomeEmbeds(embeds, first));
        if w.welcomeEdit.Err? then ([edit, Warning(w.welcomeEdit.error)], false) else ([edit], false)
  }

  /** Lines 172-192. Ok(None) is a nil overwrite list: the fallback call
      failed, and its error is overwritten before anyone reads it. */
  function SelectOverwrites(claimer: nat, w: World): (r: Result<Option<seq<Claim.Overwrite>>>)
    ensures r == Ok(None) <==> claimer != 0 && w.claimed == Ok(None) && w.fallback.Err?
  {
    if claimer == 0 then
      (if w.unclaimed.Err? then Err(w.unclaimed.error) else Ok(Some(w.unclaimed.value)))
    else if w.claimed.Err? then Err(w.claimed.error)
    else if w.claimed.value.Some? then Ok(w.claimed.value)
    else if w.fallback.Ok? then Ok(Some(w.fallback.value))
    else Ok(None)
  }

  /** Unclaimed tickets get the unclaimed overwrites; claimed ones the
      claimed overwrites, or the unclaimed ones when those are nil. */
  lemma OverwriteChoice(claimer: nat, w: World)
    ensures claimer == 0 && w.unclaimed.Ok? ==> SelectOverwrites(claimer, w) == Ok(Some(w.unclaimed.value))
    ensures claimer != 0 && w.claimed.Ok? && w.claimed.value.Some? ==> SelectOverwrites(claimer, w) == Ok(w.claimed.value)
    ensures claimer != 0 && w.claimed == Ok(None) && w.fallback.Ok? ==> SelectOverwrites(claimer, w) == Ok(Some(w.fallback.value))
    ensures SelectOverwrites(claimer, w).Err? <==>
      (claimer == 0 && w.unclaimed.Err?) || (claimer != 0 && w.claimed.Err?)
  {
  }

  /** A thread is renamed only, then the join message may be refreshed;
      failures in that refresh are only logged. */
  function ThreadTail(t: Ticket, p: Panel, name: string, w: World): (r: seq<Effect>)
    requires t.channelId.Some?
    ensures r != []
    ensures forall i :: 0 <= i < |r| && r[i].ModifyChannel? ==>
      r[i] == ModifyChannel(t.channelId.value, name, None, None)
    ensures ReplyThreadSwitched in r <==> w.notificationChannel.Ok? && w.rename.Ok?
  {
    match w.notificationChannel
    case Err(e) => [HandleError(e)]
    case Ok(notify) =>
      var rename := ModifyChannel(t.channelId.value, name, None, None);
      if w.rename.Err? then [rename, HandleError(w.rename.error)]
      else
        var join :=
          if t.joinMessageId.None? || notify.None? then []
          else if w.threadStaff.Err? then [LogOnly(w.threadStaff.error)]
          else
            var edit := EditJoinMessage(notify.value, t.joinMessageId.value);
            if w.joinEdit.Err? then [edit, LogOnly(w.joinEdit.error)] else [edit];
        [rename, ReplyThreadSwitched] + join
  }

  /** A channel ticket gets a new name, overwrites and parent category. */
  function ChannelTail(t: Ticket, p: Panel, claimer: nat, name: string, userId: nat, w: World): (r: seq<Effect>)
    requires t.channelId.Some?
    ensures 1 <= |r| <= 2
    ensures r[|r| - 1] == ReplySwitched(p.title, userId) <==>
      w.members.Ok? && SelectOverwrites(claimer, w).Ok? && w.update.Ok?
    ensures forall i :: 0 <= i < |r| && r[i].ModifyChannel? ==>
      r[i].parent == Some(p.targetCategory) && SelectOverwrites(claimer, w).Ok? &&
      r[i].overwrites == SelectOverwrites(claimer, w).value
  {
    if w.members.Err? then [HandleError(w.members.error)]
    else match SelectOverwrites(claimer, w)
      case Err(e) => [HandleError(e)]
      case Ok(overwrites) =>
        var update := ModifyChannel(t.channelId.value, name, overwrites, Some(p.targetCategory));
        if w.update.Err? then [update, HandleError(w.update.error)] else [update, ReplySwitched(p.title, userId)]
  }

  /** The effects of Execute in the order they happen: never none, and the
      interaction is rejected exactly when the channel is not a ticket. */
  function Execute(guildId: nat, panelId: int, userId: nat, w: World): (r: seq<Effect>)
    ensures r != []
    ensures Rejected in r <==> w.ticket.Ok? && (w.ticket.value.userId == 0 || w.ticket.value.channelId.None?)
  {
    match w.ticket
    case Err(e) => [HandleError(e)]
    case Ok(t) =>
      if t.userId == 0 || t.channelId.None? then [ReplyNotATicket, Rejected]
      else match w.panel
        case Err(e) => [HandleError(e)]
        case Ok(p) =>
          if p.panelId == 0 || p.guildId != guildId then [ReplyInvalidPanel]
          else if w.setPanel.Err? then [HandleError(w.setPanel.error)]
          else
            var switched := [SetPanelId(t.id, panelId)];
            match w.claimer
            case Err(e) => switched + [HandleError(e)]
            case Ok(claimer) =>
              var (welcome, stop) := WelcomeStep(t, w);
              if stop then switched + welcome
              else match w.channelName
                case Err(e) => switched + welcome + [HandleError(e)]
                case Ok(name) =>
                  switched + welcome + (if t.isThread then ThreadTail(t, p, name, w) else ChannelTail(t, p, claimer, name, userId, w))
  }

  // ---------------------------------------------------------------------
  // Properties of Execute
  // ---------------------------------------------------------------------

  /** Outside a ticket the command replies and rejects, whatever the panel
      lookup would have said. */
  lemma NotATicketRejectsFirst(guildId: nat, panelId: int, userId: nat, w: World)
    requires w.ticket.Ok? && (w.ticket.value.userId == 0 || w.ticket.value.channelId.None?)
    ensures Execute(guildId, panelId, userId, w) == [ReplyNotATicket, Rejected]
  {
  }

  /** The ticket's panel id is only ever set to a panel that exists and
      belongs to the caller's guild, and it is the first effect. */
  lemma PanelSetOnlyWhenValid(guildId: nat, panelId: int, userId: nat, w: World)
    ensures var r := Execute(guildId, panelId, userId, w);
      forall i :: 0 <= i < |r| && r[i].SetPanelId? ==>
        i == 0 && r[i].panelId == panelId &&
        w.panel.Ok? && w.panel.value.panelId != 0 && w.panel.value.guildId == guildId
  {
    var r := Execute(guildId, panelId, userId, w);
    if w.ticket.Ok? && w.panel.Ok? {
      var t, p := w.ticket.value, w.panel.value;
      if t.userId != 0 && t.channelId.Some? && p.panelId != 0 && p.guildId == guildId && w.setPanel.Ok? {
        var rest: seq<Effect>;
        if w.claimer.Err? {
          rest := [HandleError(w.claimer.error)];
        } else {
          var (welcome, stop) := WelcomeStep(t, w);
          assert forall e :: e in welcome ==> !e.SetPanelId?;
          if stop {
            rest := welcome;
          } else if w.channelName.Err? {
            rest := welcome + [HandleError(w.channelName.error)];
          } else {
            var tail := if t.isThread then ThreadTail(t, p, w.channelName.value, w)
                        else ChannelTail(t, p, w.claimer.value, w.channelName.value, userId, w);
            assert forall e :: e in tail ==> !e.SetPanelId?;
            rest := welcome + tail;
          }
        }
        assert r == [SetPanelId(t.id, panelId)] + rest;
        OnlyHeadSetsPanel(SetPanelId(t.id, panelId), rest);
      }
    }
  }

  /** After a head effect, effects that never set the panel id leave the
      head as the only one that does. */
  lemma OnlyHeadSetsPanel(head: Effect, rest: seq<Effect>)
    requires forall e :: e in rest ==> !e.SetPanelId?
    ensures forall i :: 1 <= i < |[head] + rest| ==> !([head] + rest)[i].SetPanelId?
  {
    assert forall i :: 1 <= i < |[head] + rest| ==> ([head] + rest)[i] == rest[i - 1];
  }

  /** A thread ticket keeps its permissions and parent: the only channel
      change is a rename. */
  lemma ThreadOnlyRenamed(guildId: nat, panelId: int, userId: nat, w: World)
    requires w.ticket.Ok? && w.ticket.value.isThread
    ensures var r := Execute(guildId, panelId, userId, w);
      forall i :: 0 <= i < |r| && r[i].ModifyChannel? ==> r[i].overwrites.None? && r[i].parent.None?
  {
    var t := w.ticket.value;
    if t.userId != 0 && t.channelId.Some? && w.panel.Ok? && w.claimer.Ok? {
      var (welcome, stop) := WelcomeStep(t, w);
      assert forall e :: e in welcome ==> !e.ModifyChannel?;
    }
  }

  /** A channel ticket that is switched successfully ends with the success
      reply, after a channel update carrying the selected overwrites and
      the panel's category. */
  lemma ChannelSwitchSucceeds(guildId: nat, panelId: int, userId: nat, w: World,
                              t: Ticket, p: Panel, claimer: nat, name: string)
    requires w.ticket == Ok(t) && t.userId != 0 && t.channelId.Some? && !t.isThread
    requires w.panel == Ok(p) && p.panelId != 0 && p.guildId == guildId
    requires w.setPanel.Ok? && w.claimer == Ok(claimer) && !WelcomeStep(t, w).1
    requires w.channelName == Ok(name) && w.members.Ok? && SelectOverwrites(claimer, w).Ok? && w.update.Ok?
    ensures var r := Execute(guildId, panelId, userId, w);
      |r| >= 3 && r[0] == SetPanelId(t.id, panelId) &&
      r[|r| - 1] == ReplySwitched(p.title, userId) &&
      r[|r| - 2] == ModifyChannel(t.channelId.value, name, SelectOverwrites(claimer, w).value, Some(p.targetCategory))
  {
  }

  /** The welcome embed is rebuilt from "No subject given" when the
      message has no embeds, and from the first embed's title otherwise. */
  lemma WelcomeRebuiltFromSubject(t: Ticket, w: World, first: Embed)
    requires t.welcomeMessageId.Some? && w.welcome.Ok?
    requires w.welcomeEmbed(if w.welcome.value == [] then NoSubject else w.welcome.value[0].title) == Ok(first)
    ensures var (effects, stop) := WelcomeStep(t, w);
      !stop && effects[0].EditWelcome? && effects[0].embeds[0] == first &&
      |effects[0].embeds| == (if w.welcome.value == [] then 1 else |w.welcome.value|)
  {
  }
}
