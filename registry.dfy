/** The command registry as the command front end sees it: each command's
    properties (name, aliases, declared arguments, permission tier and
    flags) and its children. The registry is immutable, so it is a value. */
module Registry {

  import opened Base

  /** The platform's option types an argument may declare. `OtherKind`
      carries the numeric code of any type the free-text coercer has no
      case for (sub-command, attachment, ...). */
  datatype ArgKind =
    | StringKind
    | IntegerKind
    | BooleanKind
    | UserKind
    | ChannelKind
    | RoleKind
    | MentionableKind
    | NumberKind
    | OtherKind(code: int)

  /** An ArgumentSpec. `autocomplete` names the suggestion handler, if any. */
  datatype Argument = Argument(
    name: string,
    kind: ArgKind,
    required: bool,
    messageCompatible: bool,
    invalidMessage: string,
    autocomplete: Option<string>)

  /** Caller permission tiers, ordered as integers. */
  const Everyone: int := 0
  const Support: int := 1
  const Admin: int := 2

  datatype PremiumTier = NoTier | Premium | Whitelabel

  datatype Command = Command(
    name: string,
    aliases: seq<string>,
    permissionLevel: int,
    adminOnly: bool,
    helperOnly: bool,
    premiumOnly: bool,
    interactionOnly: bool,
    mainBotOnly: bool,
    defaultEphemeral: bool,
    arguments: seq<Argument>,
    children: seq<Command>)

  function RequiredArgument(name: string, kind: ArgKind, invalid: string): Argument {
    Argument(name, kind, true, true, invalid, None)
  }

  function OptionalArgument(name: string, kind: ArgKind, invalid: string): Argument {
    Argument(name, kind, false, true, invalid, None)
  }

  // Sample registry entries, transcribed from the commands' Properties().

  /** admin genpremium: admin-only, a required integer and two optional
      arguments. */
  const GenPremium: Command := Command(
    "genpremium", [], Everyone, true, false, false, false, false, false,
    [ RequiredArgument("length", IntegerKind, "MessageInvalidArgument"),
      OptionalArgument("amount", IntegerKind, "MessageInvalidArgument"),
      OptionalArgument("whitelabel", BooleanKind, "MessageInvalidArgument") ],
    [])

  /** managetags add: interaction-only, two required string arguments. */
  const ManageTagsAdd: Command := Command(
    "add", ["new", "create"], Support, false, false, false, true, false, false,
    [ RequiredArgument("id", StringKind, "MessageTagCreateInvalidArguments"),
      RequiredArgument("content", StringKind, "MessageTagCreateInvalidArguments") ],
    [])

  /** switchpanel: interaction-only, one required integer argument with an
      autocomplete handler. */
  const SwitchPanel: Command := Command(
    "switchpanel", [], Support, false, false, false, true, false, false,
    [ Argument("panel", IntegerKind, true, true, "MessageInvalidUser", Some("switchpanel.panel")) ],
    [])

  /** setup category: its argument is not usable from free text. */
  const SetupCategory: Command := Command(
    "category", ["ticketcategory", "cat", "channelcategory"], Admin,
    false, false, false, true, false, false,
    [ Argument("category", ChannelKind, true, false, "SetupCategoryInvalid", None) ],
    [])

  /** vote: main-bot-only, ephemeral by default. */
  const Vote: Command := Command(
    "vote", [], Everyone, false, false, false, false, true, true, [], [])
}
