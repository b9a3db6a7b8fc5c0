# TicketsBot worker: the command front end, modelled in Dafny

This project models the core of the TicketsBot worker, a Discord ticket bot
written in Go, and proves properties of that model. The modelled parts are:

- **Free-text commands** (`bot/listeners/command.go`). The listener works in this order:
  - it recognises the mention or default prefix;
  - it splits the rest into a root token and argument tokens;
  - it resolves the command tree, including the quirks of its non-breaking child loop;
  - it runs the gate chain of silent drops, the blacklist cross, the slash-command redirect and the permission replies;
  - it coerces the tokens into typed handler arguments with Go's `Atoi`, `ParseBool`, `ParseUint` and the mention patterns;
  - it binds those arguments into a handler parameter vector.
- **Interactions over HTTP** (`event/httplisten.go`):
  - response bodies and the rate-limiter key;
  - the focused-option search;
  - the autocomplete walk;
  - the acknowledge-or-answer protocol with its two timers.
- **Claim permissions** (`bot/logic/claim.go`): the two overwrite-list builders, the choice between them, and the order of effects of a claim.
- **Three commands**: switchpanel, managetags add and admin genpremium.
- **Helpers**: the generic slice helpers and the language tables.

Imperative Go code is modelled as methods. They use loops with invariants, an array filled in place for `parsedArguments`, and in-place recolouring of the welcome embeds. Each method is proved equal to a specification function, and lemmas prove what the source promises about those functions. Guard chains are modelled as functions. They map abstract inputs to the sequence of effects or the outcome they produce. Database reads, REST calls and the builders not shown in the source are such inputs: a `Result` for each lookup, or a function parameter for a builder.

The modules are:

- `Base`: `Option` and `Result`, plus models of `strings` and `strconv`.
- `SliceUtils` and `Languages`.
- `Registry`: commands and arguments, with sample registry entries.
- `ArgumentCoercion`.
- `CommandListener`.
- `HttpListen`.
- `Claim`.
- `SwitchPanel`, `ManageTagsAdd` and `AdminGenPremium`.

## Model

| member | source | states |
|---|---|---|
| `Base.ToLower` | bot/listeners/command.go:57 | lowercasing keeps the length and lowers each letter |
| `Base.ToLowerIdempotent` | bot/listeners/command.go:80 | lowercasing twice is lowercasing once |
| `Base.Split` | bot/listeners/command.go:66 | `strings.Split` yields at least one piece and no piece contains the separator |
| `Base.SplitJoinRoundTrip` | bot/listeners/command.go:66 | joining the pieces with the separator gives back the input |
| `Base.TrimSpace` | bot/listeners/command.go:64 | the trimmed text is exactly the input with white space removed from both ends: a slice of it, with only white space before and after, that neither starts nor ends with white space |
| `Base.TrimPrefix` | bot/listeners/command.go:63 | a present prefix is removed exactly; otherwise the text is unchanged |
| `Base.FormatDecimal` | bot/listeners/command.go:52 | `FormatUint(n, 10)` is a non-empty digit string without a leading zero |
| `Base.DecimalRoundTrip` | bot/listeners/command.go:52 | the digits of n read back as n |
| `Base.FormatDecimalInjective` | bot/listeners/command.go:52 | distinct ids give distinct mention prefixes |
| `SliceUtils.ToSlice` | bot/utils/sliceutils.go:3-5 | the arguments come back unchanged and in order |
| `SliceUtils.Contains` | bot/utils/sliceutils.go:7-15 | true iff some element equals the target |
| `SliceUtils.HasIntersection` | bot/utils/sliceutils.go:17-27 | true iff the two slices share an element |
| `SliceUtils.FindIntersection` | bot/utils/sliceutils.go:29-40 | the nested loop computes the specification `Intersection`: each element of the first slice, once per equal element of the second, in first-slice order |
| `SliceUtils.IntersectionLength` | bot/utils/sliceutils.go:29-40 | the length of the intersection is the total of the match counts |
| `SliceUtils.CountPositive` | bot/utils/sliceutils.go:29-40 | an element is counted in the second slice iff it occurs there |
| `SliceUtils.IntersectionMembers` | bot/utils/sliceutils.go:29-40 | every element of the intersection is in both slices |
| `SliceUtils.IntersectionOfEmpty` | bot/utils/sliceutils.go:29-40 | the intersection with an empty slice is empty |
| `SliceUtils.IntersectsIffNonEmpty` | bot/utils/sliceutils.go:17-40 | HasIntersection holds iff FindIntersection is non-empty |
| `Languages.Code` | i18n/languages.go:5-42 | every language's `String()` code has two characters |
| `Languages.Flags` | i18n/languages.go:44-77 | every language has a flag |
| `Languages.DiscordLocales` | i18n/languages.go:80-109 | no Discord locale selects Arabic, Portuguese, Slovak, Vietnamese or Welsh |
| `Languages.FullLocales` | i18n/languages.go:112-145 | every key of the full-locale table has the `xx-YY` shape |
| `Languages.LocalesInverse` | i18n/languages.go:147-180 | every language has a full locale of the `xx-YY` shape |
| `Languages.FullNames` | i18n/languages.go:217-250 | every language has a native name |
| `Languages.FullNamesEnglish` | i18n/languages.go:252-285 | every language has a non-empty English name |
| `Languages.CodeRoundTrip` | i18n/languages.go:5-42 | every language's code, as returned by `String()`, maps back to that language |
| `Languages.CodeInjective` | i18n/languages.go:9-42 | the 32 codes are pairwise distinct |
| `Languages.LocalesInverseRoundTrip` | i18n/languages.go:112-180 | every language has a full locale, and that locale maps back to the language |
| `Languages.FullLocalesRoundTrip` | i18n/languages.go:112-180 | every full locale's language has that locale as its inverse |
| `Languages.AlphabeticalIsDistinct` | i18n/languages.go:182-215 | the alphabetical list has 32 pairwise distinct entries |
| `Languages.InAlphabetical` | i18n/languages.go:182-215 | every language is in the alphabetical list |
| `Languages.AlphabeticalIsComplete` | i18n/languages.go:147-215 | the list's elements are exactly the languages, and so the key set of `LocalesInverse` |
| `Languages.DisplayTablesCover` | i18n/languages.go:44-77 | every language has a flag, a native name and an English name |
| `Languages.DiscordLocalesNotInjective` | i18n/languages.go:80-109 | en-US and en-GB both select English; Arabic, Portuguese, Slovak, Vietnamese and Welsh are never selected |
| `ArgumentCoercion.ParseInt` | bot/listeners/command.go:237-238 | `Atoi` accepts only text with a digit and a value in the int64 range |
| `ArgumentCoercion.ParseIntRoundTrip` | bot/listeners/command.go:237-238 | every int64 rendered in decimal parses back to itself |
| `ArgumentCoercion.ParseBool` | bot/listeners/command.go:254 | `strconv.ParseBool` accepts only Go's twelve spellings, which lowercase to `1`, `t`, `true`, `0`, `f` and `false`, and only those lowercasing to the first three give true |
| `ArgumentCoercion.ParseBoolSpellings` | bot/listeners/command.go:254 | each of the twelve spellings (`1`, `t`, `T`, `TRUE`, `true`, `True` and the six for false) parses to its value |
| `ArgumentCoercion.ParseBoolRefusesMixedCase` | bot/listeners/command.go:254 | `tRUE` and `fALSE` are refused although they lowercase to accepted words |
| `ArgumentCoercion.ParseBoolRoundTrip` | bot/listeners/command.go:254 | every boolean rendered by `strconv.FormatBool` parses back to itself |
| `ArgumentCoercion.ParseUint64` | bot/listeners/command.go:280 | `ParseUint(.., 10, 64)` yields only values below 2^64 |
| `ArgumentCoercion.DigitRun` | bot/listeners/command.go:29-31 | the `\d+` run is maximal: every character in it is a digit and the next one is not |
| `ArgumentCoercion.CaptureAt` | bot/listeners/command.go:29-31 | a capture is a non-empty digit string |
| `ArgumentCoercion.MatchAt` | bot/listeners/command.go:30 | a pattern matched at a position captures a non-empty digit string |
| `ArgumentCoercion.FindFrom` | bot/listeners/command.go:269 | a submatch found from a position is a non-empty digit string |
| `ArgumentCoercion.FindSubmatch` | bot/listeners/command.go:269 | `FindStringSubmatch`'s first group is a non-empty digit string captured by a match at some position, and there is none when no position matches |
| `ArgumentCoercion.FindIsLeftmost` | bot/listeners/command.go:269 | the search returns the leftmost match |
| `ArgumentCoercion.NoOpenNoMatch` | bot/listeners/command.go:269 | text without a `<` never matches |
| `ArgumentCoercion.MentionRoundTrip` | bot/listeners/command.go:269-282 | each pattern recovers the id from its own mention markup, for every id below 2^64 |
| `ArgumentCoercion.NicknameMentionMatchesUser` | bot/listeners/command.go:30 | the nickname form `<@!id>` matches the user pattern with the id captured |
| `ArgumentCoercion.RoleMentionIsNotUser` | bot/listeners/command.go:30-31 | a role mention never matches the user pattern, which is why mentionable tries the role pattern first |
| `ArgumentCoercion.SnowflakeOf` | bot/listeners/command.go:269-282 | an id is read only from a pattern match and is below 2^64 |
| `ArgumentCoercion.MentionableOf` | bot/listeners/command.go:342-365 | an id is below 2^64 and comes from a role or a user mention |
| `ArgumentCoercion.MentionableOfRole` | bot/listeners/command.go:342-372 | a role mention is read as that role's id |
| `ArgumentCoercion.CoerceFrom` | bot/listeners/command.go:213-397 | a successful coercion fills exactly one slot per declared argument |
| `ArgumentCoercion.CoerceOne` | bot/listeners/command.go:221-397 | one argument's step: it rejects only a required argument, with that argument's invalid message, and the cursor never moves back |
| `ArgumentCoercion.CoerceToken` | bot/listeners/command.go:229-397 | the `switch` on the argument type, for a cursor at a token, takes the step `CoerceOne` specifies: a rejection exactly where a required argument fails |
| `ArgumentCoercion.Coerce` | bot/listeners/command.go:213-397 | the loop over the in-place `parsedArguments` array with its shared cursor computes `CoerceFrom` |
| `ArgumentCoercion.MissingToken` | bot/listeners/command.go:221-228 | out of tokens, a required argument stops with its own message and an optional one is skipped |
| `ArgumentCoercion.StringTakesTheRest` | bot/listeners/command.go:232-234 | a string argument joins all remaining tokens with spaces and consumes them |
| `ArgumentCoercion.FailedSlot` | bot/listeners/command.go:239-390 | what a failed optional conversion leaves: a typed nil of its own kind for integer, boolean and number, and no value for the snowflake and mentionable kinds |
| `ArgumentCoercion.FailedOptionalKeepsCursor` | bot/listeners/command.go:229-390 | for every kind, a token that does not convert rejects a required argument with its message and leaves `FailedSlot` at the same cursor for an optional one; a token that converts fills the slot and advances the cursor |
| `ArgumentCoercion.CoerceOneCursor` | bot/listeners/command.go:213-397 | the cursor never moves back and never passes the end |
| `ArgumentCoercion.RequiredIntegerRejectsText` | bot/listeners/command.go:239-242 | a required integer given text rejects with its invalid message |
| `ArgumentCoercion.GenPremiumCursorExample` | bot/listeners/command.go:235-266 | for genpremium, `30 true` gives length 30, a nil amount and whitelabel true |
| `ArgumentCoercion.CoercedSlotsFit` | bot/listeners/command.go:213-397 | every coerced slot fits its argument's kind |
| `ArgumentCoercion.BindAsWritten` | bot/listeners/command.go:405-421 | Go's three branches: for a slot that fits its argument, the parameter has the declared type iff the slot is not a typed nil |
| `ArgumentCoercion.Bind` | bot/listeners/command.go:405-421 | the corrected binding agrees with the as-written one except on typed nils, and always gives a fitting slot its declared type |
| `ArgumentCoercion.BindIsWellTyped` | bot/listeners/command.go:401-424 | with the corrected binding, every parameter has the type the handler declares |
| `ArgumentCoercion.CallAccepted` | bot/listeners/command.go:426 | `reflect.Value.Call` accepts the vector iff every parameter after the context has its declared type; `AsWrittenWellTypedIffNoTypedNil` and `CommandListener.AdmittedOnlyPastTheGates` state when that holds |
| `ArgumentCoercion.AsWrittenWellTypedIffNoTypedNil` | bot/listeners/command.go:401-426 | as written, a coerced call is well typed iff no slot is a typed nil |
| `ArgumentCoercion.TypedNilMistyped` | bot/listeners/command.go:407-416 | for every optional argument, a typed nil is bound as a pointer to the declared type, which is never the declared type |
| `ArgumentCoercion.TypedNilIsDoublyWrapped` | bot/listeners/command.go:405-423 | as written, an optional integer that fails to parse is bound as `**int` where `*int` is declared |
| `ArgumentCoercion.GenPremiumCallRefused` | bot/listeners/command.go:235-426 | for `admin genpremium 30 true` the coercion succeeds with a typed nil amount, which is bound as `**int` where `*int` is declared |
| `ArgumentCoercion.BindArguments` | bot/listeners/command.go:401-424 | the binding loop, with Go's three branches, puts the context first and then each slot bound as written (`BindAsWritten`) |
| `CommandListener.CommandText` | bot/listeners/command.go:52-64 | the recognised text is no longer than the message, and a non-empty text has no white space at either end |
| `CommandListener.Recognise` | bot/listeners/command.go:52-64 | recognition computes `CommandText` |
| `CommandListener.MentionIsRecognised` | bot/listeners/command.go:52-56 | a message starting with the exact bot mention is a command with the mention removed |
| `CommandListener.DifferentlyCasedPrefixStays` | bot/listeners/command.go:57-63 | a prefix that matches only case-insensitively is recognised but not removed |
| `CommandListener.NoPrefixNoCommand` | bot/listeners/command.go:55-61 | a message is dropped iff it starts with neither the mention nor, lowercased, the default prefix |
| `CommandListener.NonEmptyMembers` | bot/listeners/command.go:69-76 | the argument tokens are exactly the non-empty pieces |
| `CommandListener.Tokenise` | bot/listeners/command.go:66-76 | the root is the first piece and the arguments are the non-empty pieces after it, in order |
| `CommandListener.TokensShape` | bot/listeners/command.go:66-76 | the root and every argument contain no space |
| `CommandListener.Matches` | bot/listeners/command.go:80-91 | a command answers to its name in any letter case or to an alias equal to the lowercased token; `MatchIgnoresTokenCase` and `UppercaseAliasIsDead` state the consequences |
| `CommandListener.MatchIgnoresTokenCase` | bot/listeners/command.go:80 | matching a command does not depend on the token's letter case |
| `CommandListener.UppercaseAliasIsDead` | bot/listeners/command.go:80 | an alias with an upper-case letter can never match |
| `CommandListener.LastMatchIsMatchingChild` | bot/listeners/command.go:90-96 | with some child matching, the parent becomes the last matching child |
| `CommandListener.Descend` | bot/listeners/command.go:85-104 | the descent index never moves back, and the command is unchanged when no token was consumed |
| `CommandListener.DescentStops` | bot/listeners/command.go:85-104 | the descent never moves back and stops at the end of the tokens or at a token no child matches |
| `CommandListener.ScanChildren` | bot/listeners/command.go:90-100 | the child loop does not break: the index grows by the number of matching children and the last match wins |
| `CommandListener.DescendFrom` | bot/listeners/command.go:81-104 | the descent loop computes `Descend` |
| `CommandListener.PanicIsFinal` | bot/listeners/command.go:106-109 | once the tail slice goes out of range, the rest of the registry is never reached |
| `CommandListener.ResolveStep` | bot/listeners/command.go:79-113 | one top-level command: a panic stays, a command that does not match leaves the state, and a match records that command as the root and keeps a suffix of the tokens |
| `CommandListener.ResolveAll` | bot/listeners/command.go:78-114 | when nothing is found, the argument tokens come back untouched |
| `CommandListener.Resolve` | bot/listeners/command.go:78-114 | the registry loop computes `ResolveAll`, including the out-of-range slice |
| `CommandListener.NothingFoundIffNoMatch` | bot/listeners/command.go:78-118 | no command is found iff no top-level command matches the root |
| `CommandListener.LastTopLevelMatchWins` | bot/listeners/command.go:79-113 | the resolved tree is the last top-level command matching the root |
| `CommandListener.SecondTopLevelMatchSeesTrimmedArgs` | bot/listeners/command.go:106-111 | a second matching top-level command sees the tokens the first one left |
| `CommandListener.UnambiguousRegistryNeverPanics` | bot/listeners/command.go:85-109 | when no two children answer to the same token, the slice stays in range |
| `CommandListener.DuplicateChildrenPanic` | bot/listeners/command.go:90-109 | two children with the same name push the index past the end, and the slice panics |
| `CommandListener.Authorize` | bot/listeners/command.go:116-210 | a stop is a silent drop, the cross reaction or a reply, and a drop is only for a main-bot-only command, a failed permission lookup, a failed lookup or failed command ids; a command passes only if it is admin-only or helper-only |
| `CommandListener.CheckGates` | bot/listeners/command.go:116-210 | the gate chain computes `Authorize` |
| `CommandListener.SilentGatesFirst` | bot/listeners/command.go:121-152 | main-bot-only first, then the permission lookup, then the blacklist and premium lookups, all without reply |
| `CommandListener.BlacklistBeforeReplies` | bot/listeners/command.go:155-158 | a blacklisted caller only gets the cross reaction |
| `CommandListener.EveryoneIsRedirected` | bot/listeners/command.go:163-180 | every command that is neither admin-only nor helper-only is redirected to its slash form or dropped if the ids fail to load |
| `CommandListener.ProceedExactly` | bot/listeners/command.go:116-210 | a command passes iff every gate lets it through |
| `CommandListener.MentionOfRegisteredCommand` | bot/listeners/command.go:172-175 | a registered command's mention is `</name:id>` |
| `CommandListener.BindAll` | bot/listeners/command.go:401-424 | the context comes first and each slot is bound as written; a fitting slot's parameter has the declared type iff it is not a typed nil |
| `CommandListener.BoundAsWritten` | bot/listeners/command.go:401-424 | parameters bound one slot at a time by the loop are the `BindAll` vector |
| `CommandListener.Admit` | bot/listeners/command.go:116-426 | a dispatch happens iff the gates pass and the coercion succeeds; an argument rejection comes only past the gates; a drop here is never "no command" |
| `CommandListener.Route` | bot/listeners/command.go:66-114 | the command text is dropped as "no command" iff no top-level command matches its root token |
| `CommandListener.AdmitMatch` | bot/listeners/command.go:116-426 | gates, coercion and the as-written binding compute `Admit`, which starts the handler call that panics unless `CallAccepted` holds |
| `CommandListener.Handle` | bot/listeners/command.go:39-426 | only an admin-only or helper-only command is ever dispatched |
| `CommandListener.HandleMessage` | bot/listeners/command.go:39-426 | the whole listener computes `Handle`, including the as-written binding of its parameters |
| `CommandListener.IgnoredMessages` | bot/listeners/command.go:40-61 | bot authors, direct messages and messages without a prefix are dropped |
| `CommandListener.AdmittedOnlyPastTheGates` | bot/listeners/command.go:116-426 | a handler is started only past every gate, for an admin-only or helper-only command, with the as-written binding of the coerced slots; reflection accepts the call iff no slot is a typed nil |
| `CommandListener.DispatchedOnlyPastTheGates` | bot/listeners/command.go:39-426 | every dispatch is the admission of the command resolution settled on |
| `HttpListen.NewErrorResponse` | event/httplisten.go:35-42 | the error body has `success` false and the error's text |
| `HttpListen.EventReply` | event/httplisten.go:67-99 | the event runs exactly when the reply status is 200 |
| `HttpListen.EventReplyShape` | event/httplisten.go:67-99 | a bound event is answered 200 success before it runs; an unbound one gets 400 and is never run |
| `HttpListen.RateLimiterKey` | event/httplisten.go:76-82 | every key starts with `ratelimiter:` |
| `HttpListen.RateLimiterKeysSeparate` | event/httplisten.go:117-123 | two keys are equal iff both are public, or both are white-label with the same bot id |
| `HttpListen.ErrorContextUser` | event/httplisten.go:315-328 | the user id comes from the user, else from the member, else it is 0 |
| `HttpListen.FindFocused` | event/httplisten.go:331-344 | a found path extends the path so far |
| `HttpListen.FindFocusedIsFirstInPreOrder` | event/httplisten.go:331-344 | the search returns the first focused option of the depth-first pre-order |
| `HttpListen.NotFoundIffNoneFocused` | event/httplisten.go:331-344 | nothing is found iff no option at any depth is focused |
| `HttpListen.FirstChildNamed` | event/httplisten.go:211-217 | the child found has exactly the name, and none is found only when no child has it |
| `HttpListen.FirstWalk` | event/httplisten.go:206-225 | the first walk stays at the command unless the leading option has no value, and it moves only into a child of that exact name |
| `HttpListen.PathWalk` | event/httplisten.go:233-246 | no segment leaves the command where it is; a command reached carries the last segment, lowercased, as its name |
| `HttpListen.HandlerFor` | event/httplisten.go:248-253 | no argument with the name gives no handler; a handler found is that of the last argument with the name |
| `HttpListen.SuggestFrom` | event/httplisten.go:233-261 | a suggestion carries the focused value; for a one-segment path it exists iff the starting command's arguments have a handler for it; otherwise the path walk reached the command named by the second-to-last segment |
| `HttpListen.AutocompleteAsWritten` | event/httplisten.go:193-263 | a suggestion comes only for a registered command with a focused option, and it carries that option's value |
| `HttpListen.Autocomplete` | event/httplisten.go:193-263 | the corrected walk: a suggestion comes only for a registered command with a focused option, and it carries that option's value |
| `HttpListen.TopLevelArgumentsAgree` | event/httplisten.go:200-263 | for a top-level command the as-written walk and the corrected walk agree |
| `HttpListen.SubcommandAutocomplete` | event/httplisten.go:206-246 | for an argument inside a sub-command, as written there is no response, while the corrected walk finds the handler |
| `HttpListen.FindChild` | event/httplisten.go:210-216 | the inner child loop stops at the first child with exactly the name, as `FirstChildNamed` specifies |
| `HttpListen.ScanHandlers` | event/httplisten.go:248-253 | the argument loop keeps the handler of the last argument with the lowercased name, as `HandlerFor` specifies |
| `HttpListen.AutocompleteWalk` | event/httplisten.go:200-263 | the loops of the walk, with the labelled `outer` loop, compute `AutocompleteAsWritten` |
| `HttpListen.CommandExchange` | event/httplisten.go:134-167 | nothing is written iff executing the command fails; the original response is edited only for a result arriving at or after the first deadline |
| `HttpListen.ComponentExchange` | event/httplisten.go:170-191 | a component is always answered; the deferred handling runs only for a response arriving at or after the first deadline |
| `HttpListen.ModalExchange` | event/httplisten.go:265-277 | a modal submit is answered iff its response arrives, and never with a follow-up |
| `HttpListen.CommandReplyProtocol` | event/httplisten.go:150-167 | the result is sent if it comes in time; otherwise an ack, ephemeral iff the command defers ephemerally, then at most one edit with exactly its content, embeds and mentions |
| `HttpListen.NeverArrivingResult` | event/httplisten.go:282-287 | a result that never comes leaves only the ack |
| `HttpListen.SecondDeadlineFromDeferral` | event/httplisten.go:282-300 | the second timer starts at the deferral: a result at 16000 ms is still edited in |
| `HttpListen.ComponentReplyProtocol` | event/httplisten.go:180-191 | a component gets its built response in time, otherwise a deferred update and at most the deferred handling of that response |
| `HttpListen.ModalNeverDeferred` | event/httplisten.go:272-277 | a modal submit is answered only with its result, and without one nothing is written |
| `Claim.Grants` | bot/logic/claim.go:173-184 | one overwrite per id, in order, with the given allow and deny sets |
| `Claim.AppendGrants` | bot/logic/claim.go:173-184 | the append loop adds exactly those overwrites |
| `Claim.OverwritesCantView` | bot/logic/claim.go:158-187 | the builder computes `CantView` |
| `Claim.OverwritesCantType` | bot/logic/claim.go:193-258 | the builder, with its inert inner loops, computes `CantType` |
| `Claim.CantView` | bot/logic/claim.go:158-187 | `4 + admins + admin roles` entries, the opener and `@everyone` hidden first, the rest with the standard permissions only |
| `Claim.CantType` | bot/logic/claim.go:193-258 | the can't-view list followed by one read-only entry per read-only user and per support role |
| `Claim.ReadOnlyUsersAppend` | bot/logic/claim.go:221-239 | the read-only users keep the support users' order: the filter of a concatenation is the concatenation of the filters |
| `Claim.CantViewLayout` | bot/logic/claim.go:158-187 | the layout: opener, `@everyone` hidden, admins, claimer and bot, then admin roles, `2 + admins + 2 + roles` entries |
| `Claim.ReadOnlyUsersMembers` | bot/logic/claim.go:221-239 | the read-only users are exactly the support users other than the claimer and the bot |
| `Claim.CantTypeLayout` | bot/logic/claim.go:189-258 | the can't-view list, then exactly `Grants` of the read-only users, in their order, as read-only members, then exactly `Grants` of the support roles, in order |
| `Claim.AdminSupportUserAlsoReadOnly` | bot/logic/claim.go:221-231 | an admin who is also a support user gets both the standard and a read-only overwrite |
| `Claim.NoChangeIffSupportUnrestricted` | bot/logic/claim.go:76-89 | nil overwrites iff support may both view and type |
| `Claim.HiddenTicketIgnoresSupportLookups` | bot/logic/claim.go:91-111 | with viewing denied the result is the can't-view list, whatever the support lookups would say |
| `Claim.ReadOnlySupportGetsCantType` | bot/logic/claim.go:113-150 | with viewing allowed and typing denied and every lookup answered, the result is the can't-type list over the support users and roles, with the team users and roles appended when the ticket has a panel |
| `Claim.OtherUsersIgnored` | bot/logic/claim.go:75-154 | the extra user ids never change the result |
| `Claim.GenerateClaimedOverwrites` | bot/logic/claim.go:76-154 | a non-nil list needs the additional permissions, has at least four entries, and starts with the opener's overwrite and `@everyone` hidden |
| `Claim.ClaimTicket` | bot/logic/claim.go:20-73 | at most two effects; no error iff the channel is known and either it is a thread or every step succeeds: the panel lookup, the claim record, the overwrites and, when those are non-nil, the channel name and the channel update |
| `Claim.ClaimOrdering` | bot/logic/claim.go:20-73 | a nil channel is an error with no effect; a thread only gets the reply; the claim is recorded first; the channel is modified only with non-nil overwrites |
| `Claim.GuildlessPanelCountsAsNone` | bot/logic/claim.go:31-43 | a panel from guild 0 names the channel as if there were no panel |
| `SwitchPanel.AutoCompleteHandler` | bot/command/impl/tickets/switchpanel.go:209-234 | nil iff guild 0 or the lookup fails; otherwise the first 25 panels in order, each with its title and panel id |
| `SwitchPanel.WelcomeSubject` | bot/command/impl/tickets/switchpanel.go:87-95 | "No subject given" without embeds, else the first embed's title |
| `SwitchPanel.RecolouredShape` | bot/command/impl/tickets/switchpanel.go:103-105 | the length is kept, the first embed is kept whole, and every later embed is the original with the first embed's colour |
| `SwitchPanel.RecolourEmbeds` | bot/command/impl/tickets/switchpanel.go:103-105 | the in-place loop leaves the array equal to `Recoloured` of its old contents |
| `SwitchPanel.WelcomeStep` | bot/command/impl/tickets/switchpanel.go:81-116 | the welcome step stops the command iff the message was read and rebuilding its embed failed, with just that error; otherwise it only edits the message or warns |
| `SwitchPanel.WelcomeEmbeds` | bot/command/impl/tickets/switchpanel.go:89-105 | one slot when there were none; the rebuilt embed first; the rest recoloured to its colour |
| `SwitchPanel.SelectOverwrites` | bot/command/impl/tickets/switchpanel.go:172-192 | the overwrites are nil iff a claimed ticket gets nil from the claimed builder and the fallback call fails |
| `SwitchPanel.OverwriteChoice` | bot/command/impl/tickets/switchpanel.go:172-192 | unclaimed tickets use the unclaimed overwrites; claimed ones use the claimed overwrites, or the unclaimed ones when those are nil; an error comes only from the call that was used |
| `SwitchPanel.Execute` | bot/command/impl/tickets/switchpanel.go:40-207 | the command always has an effect, and it rejects iff the channel is a ticket whose opener is 0 or whose channel id is nil |
| `SwitchPanel.NotATicketRejectsFirst` | bot/command/impl/tickets/switchpanel.go:48-53 | outside a ticket the command replies and rejects before any panel lookup |
| `SwitchPanel.PanelSetOnlyWhenValid` | bot/command/impl/tickets/switchpanel.go:62-72 | the panel id is set only to an existing panel of the caller's guild, as the first effect |
| `SwitchPanel.ThreadOnlyRenamed` | bot/command/impl/tickets/switchpanel.go:129-163 | a thread ticket is only renamed: no overwrites, no parent |
| `SwitchPanel.ThreadTail` | bot/command/impl/tickets/switchpanel.go:129-163 | a thread is only renamed, with no overwrites and no parent, and the switch reply comes iff the notification lookup and the rename succeed |
| `SwitchPanel.ChannelTail` | bot/command/impl/tickets/switchpanel.go:165-206 | one or two effects, ending in the success reply iff the member lookup, the overwrite choice and the update succeed; the update carries the selected overwrites and the panel's category |
| `SwitchPanel.ChannelSwitchSucceeds` | bot/command/impl/tickets/switchpanel.go:165-206 | a successful switch ends with the channel update carrying the selected overwrites and category, then the success reply |
| `SwitchPanel.WelcomeRebuiltFromSubject` | bot/command/impl/tickets/switchpanel.go:81-101 | the welcome edit carries the embed rebuilt from the subject, in as many slots as the message had embeds, or one |
| `ManageTagsAdd.Utf8Width` | bot/command/impl/tags/managetagsadd.go:59 | each character takes one to four bytes, and one exactly for ASCII |
| `ManageTagsAdd.Utf8LengthBounds` | bot/command/impl/tags/managetagsadd.go:59 | the byte length lies between one and four per character, and equals the character count exactly for ASCII |
| `ManageTagsAdd.Execute` | bot/command/impl/tags/managetagsadd.go:39-92 | one or two effects; the command ends with the created reply iff the count loads and is under 200, the id is at most 16 bytes, the tag does not exist yet and the write succeeds |
| `ManageTagsAdd.LimitIsCheckedFirst` | bot/command/impl/tags/managetagsadd.go:53-56 | a count of 200 or more gives the limit reply and nothing else |
| `ManageTagsAdd.LengthIsCheckedBeforeExistence` | bot/command/impl/tags/managetagsadd.go:59-70 | an id over 16 bytes is rejected before the existence check; exactly 16 bytes passes |
| `ManageTagsAdd.MultiByteIdTooLong` | bot/command/impl/tags/managetagsadd.go:59-63 | six 3-byte characters are too long |
| `ManageTagsAdd.StoredExactlyWhenChecksPass` | bot/command/impl/tags/managetagsadd.go:72-91 | a tag is written iff every check passes, first, and it is the guild's plain text tag with the given id and content |
| `AdminGenPremium.WrapInt64` | bot/command/impl/admin/admingenpremium.go:61 | int64 wrap-around: in range, agrees with the product modulo 2^64, and exact when no overflow |
| `AdminGenPremium.KeyDuration` | bot/command/impl/admin/admingenpremium.go:61 | `time.Hour * 24 * time.Duration(length)` is `length` days in nanoseconds taken modulo 2^64 into the int64 range, exact while it fits |
| `AdminGenPremium.DurationExactInRange` | bot/command/impl/admin/admingenpremium.go:61 | up to 106751 days the duration is exactly length × 24 h |
| `AdminGenPremium.DurationWrapsBeyondRange` | bot/command/impl/admin/admingenpremium.go:61 | at 106752 days the duration overflows to a negative value |
| `AdminGenPremium.Keys` | bot/command/impl/admin/admingenpremium.go:53-67 | at most one key per iteration |
| `AdminGenPremium.KeysAreTheStoredOnes` | bot/command/impl/admin/admingenpremium.go:53-67 | the kept keys are exactly the generated keys whose write succeeded |
| `AdminGenPremium.KeysOnlyGrow` | bot/command/impl/admin/admingenpremium.go:53-67 | later iterations only append, so keys stay in generation order |
| `AdminGenPremium.GenerateKeys` | bot/command/impl/admin/admingenpremium.go:53-67 | the loop runs `amount` times, not at all when amount ≤ 0, and keeps `Keys` |
| `AdminGenPremium.LinesAreJoined` | bot/command/impl/admin/admingenpremium.go:76-81 | the keys, each followed by a newline, are the keys joined by newlines plus one |
| `AdminGenPremium.BuildContent` | bot/command/impl/admin/admingenpremium.go:76-81 | the message is a code fence around the keys joined by newlines; with no keys it is "``````" |
| `AdminGenPremium.Execute` | bot/command/impl/admin/admingenpremium.go:42-90 | amount defaults to 1 and the tier is white-label iff `whitelabel` is true; a failed DM or send replies with the error and rejects; it is accepted iff both succeed |

## Left out

- Goroutines, timers, `select` and `errgroup` are not modelled as concurrency. Lookups are given results. The time at which a result arrives is a parameter. A tie at a deadline, which Go's `select` breaks at random, is a boolean input.
- The database, REST, sentry, statsd, prometheus and `DeleteAfter` are side effects outside the model. So are the builders the source calls but does not show:
  - `BuildUserOverwrite`, `StandardPermissions` and `BuildPermissions`;
  - `CreateOverwrites`, `GenerateChannelName` and `BuildWelcomeMessageEmbed`;
  - `GetStaffInThread` and `BuildJoinThreadMessage`;
  - `utils.DefaultPrefix` and `LoadCommandIds`.
  Each is an input: a `Result`, a value or a function parameter.
- Reflection is modelled as a typed parameter vector. Whether `reflect.Value.Call` accepts it is the predicate `CallAccepted`. The handlers behind the call are not part of this model.
- `strconv.ParseFloat` is parsing of floating-point numbers. It is an abstract predicate saying whether the token parses.
- `Base.ToLower` lowers ASCII letters only, while Go's `strings.ToLower` follows Unicode. The difference covers non-ASCII command names, aliases and prefixes. It also covers tokens and autocomplete path segments whose Unicode lowercase is ASCII: in Go, `tİcket` (with U+0130) or a token with U+212A KELVIN SIGN lowercases to plain letters and can match a command or child named in ASCII (`bot/listeners/command.go:80`, `bot/listeners/command.go:91`, `event/httplisten.go:237`, `event/httplisten.go:250`), while the model keeps those characters and finds no match.
- The registry is a given sequence. Go's map iteration order is nondeterministic, so the model follows whatever order that sequence has.
- UUID generation is a failable input indexed by iteration.
- JSON binding, the gin router and response writing are left out. Only statuses and payload shapes are modelled.
- The emoji and native-name strings of the language tables are modelled as opaque glyph values. Only key coverage is modelled.
- `ClaimTicket` takes the result of `GenerateClaimedOverwrites` as an input rather than calling it. The two are linked only through their types.
- `Claim.GenerateClaimedOverwrites` reports the team-users error when both errgroup fetches fail. Go reports whichever finishes first.
- `SwitchPanel.SelectOverwrites` treats a failed fallback `CreateOverwrites` call as a nil list. The source overwrites that error before reading it, and the call's result on error is not part of this model.
- The join-message refresh of switchpanel keeps only the order of its effects, not the message contents.
- Tickets are not parsed or validated. Their fields come in as values.

## Findings

The first row covers `bot/listeners/command.go:405-423`.

- **As written:** a failed optional parse stores a typed nil (`(*int)(nil)`). The binder sees a non-nil interface and wraps that in `reflect.New`. The handler parameter then receives `**int` where it declares `*int`.
- **Input that shows it:** `admin genpremium 30 true`, where `amount` is an optional integer: `true` fails `Atoi`, the amount becomes a typed nil and `true` goes on to `whitelabel`.
- **Evidently intended:** a failed optional argument reaches the handler as a nil pointer of the declared type.

The listener itself (`CommandListener.Admit`, `CommandListener.Handle` and the methods that compute them) binds as written, so a dispatched call panics whenever a slot is a typed nil (`CommandListener.AdmittedOnlyPastTheGates`, `ArgumentCoercion.AsWrittenWellTypedIffNoTypedNil`). The all-inputs as-written lemma is `ArgumentCoercion.TypedNilMistyped`, and `ArgumentCoercion.GenPremiumCallRefused` shows it on the input above. The corrected binding is `ArgumentCoercion.Bind`, and `ArgumentCoercion.BindIsWellTyped` proves every parameter it binds has the declared type.

The second row covers `event/httplisten.go:206-246`.

- **As written:** the first loop already descends into the sub-command. The path walk then looks for the sub-command's name among that sub-command's own children.
- **Input that shows it:** autocomplete on an argument of a sub-command, with focused path `[sub, arg]`.
- **Evidently intended:** the path walk starts from the top-level command, or skips the levels already walked.

| source | as written | input that shows it | evidently intended | confidence | as-written member | corrected member |
|---|---|---|---|---|---|---|
| bot/listeners/command.go:407-416 | typed nil wrapped in a new pointer | `admin genpremium 30 true` | nil pointer of the declared type | not executed | `ArgumentCoercion.TypedNilMistyped` | `ArgumentCoercion.Bind` |
| event/httplisten.go:233-246 | path walk starts below the sub-command | focused argument inside a sub-command | walk from the top-level command | not executed | `HttpListen.SubcommandAutocomplete` | `HttpListen.Autocomplete` |

The second row's as-written half is `HttpListen.AutocompleteAsWritten`, which `HttpListen.AutocompleteWalk` computes. The corrected half is `HttpListen.Autocomplete`. `HttpListen.SubcommandAutocomplete` proves both halves on the same input: the as-written walk gives no response, and the corrected one returns the handler.

The second timer of a deferred command reply is created inside the goroutine started after the acknowledgement (`event/httplisten.go:163` and `event/httplisten.go:283`). It therefore runs 15 s from the deferral, not from the arrival of the interaction, and a result arriving at 16000 ms is still edited in (`HttpListen.SecondDeadlineFromDeferral`).
