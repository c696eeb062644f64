# Discord moderation bot — verified model of the in-process core

This project models the layer of the moderation bot that sits beneath its
platform API calls. That layer is sequential, in-process state plus pure
argument parsing and arithmetic. It proves properties of that layer in
Dafny 4.11. There is one module per core file, plus `Common`, which holds
the JavaScript semantics they share:

- the bot-owner default and the staff check;
- strings, `trim` and `\s`, ASCII `toLowerCase`, `join` and edge-quote stripping;
- `indexOf`/`replace`;
- `parseInt`.

- `Database` (`database.js`, in-memory branches): `Database.Store` is a
  class whose fields are the module's maps. It holds help sessions keyed
  `userId_guildId`, read with a 24-hour validity check and swept by a loop,
  plus logging channels, per-guild audit logs and the ticket registries
  with their per-guild counter. Ordered Maps are a map plus the sequence of
  their keys in insertion order, so that the first-match scans and the
  all-guild log listing follow JavaScript's iteration order.
- `SlashCommands` (`slashCommandHandler.js`) covers:
  - the np-role, quarantine-bypass and extra-owner sets;
  - the AFK map and its clearing on the author's next message;
  - giveaways, with their join button and winner draw;
  - membercount pagination;
  - `compareRoles`, `createGraph` and the 30-day join bucketing loop.
- `Voice` (`voiceManagement.js`): the defended-user Set, the selection
  predicates of the mass actions with their success/failure counting, and
  the guards of `moveUser`.
- `EvalMode` (`evalMode.js`):
  - the per-user mode toggle that gates every other eval command;
  - the argument tokenizer for `/"([^"]+)"|(\S+)/g`;
  - the nuke server-id and channel-name arguments, and the nuke
    channel-name sanitiser;
  - the `elogs` filter and the `eloggings` channel-id check, with its store update.
- `MediaThreads` (`mediaThreadsManagement.js`): the media-channel map
  updated by enable, disable and slowmode behind the staff check, and the
  delete-if-no-media rule.
- `ChannelManagement` (`channelManagement.js`):
  - the command gate and the slowmode, user-limit and bitrate range checks;
  - name, visibility and limit parsing for the create and rename commands;
  - the join-to-create and locked-link configuration updates.
- `Utility` (`utilityCommands.js`): the AFK registry with its validation and
  timer expiry, the rename permission and nickname extraction, and the
  uptime split, RGB split and security label.

Some inputs become parameters:

- `Date.now()` is a `now: int` parameter.
- `process.uptime()` is a whole number of seconds, because each display
  component is floored.
- `Math.random()` is a caller-supplied sequence of picks; draw `i` uses
  index `picks[i] % len`.
- Whether a platform call throws is a caller-supplied set of member ids.
- The guild's channel cache is a sequence of `(id, type, name)` records.
- `process.env.BOT_OWNER_ID` is an optional string.

## Model

| member | source | states |
|---|---|---|
| Common.BotOwnerId | channelManagement.js:12 | the environment's owner id when set and non-empty; the fixed default `1327564898460242015` when unset or empty |
| Common.IsStaffAuthorized | channelManagement.js:11-39 | true iff bot owner, or server owner, or Administrator in the owner channel or in the guild's admin channel; with no admin channel configured, only the owner channel admits an Administrator; `mediaThreadsManagement.js` lines 11-40 repeat the same check |
| Common.ParseIntOfIntToString | channelManagement.js:528 | `parseInt(String(n)) == n` for every integer, which is the basis of every range check below |
| Common.ParseIntOfNatToString | mediaThreadsManagement.js:115 | `parseInt` of a decimal numeral is its value |
| Common.ParseIntOfNegative | channelManagement.js:528 | `parseInt('-' + digits)` is the negated value, so negative arguments reach the range checks as negative numbers |
| Common.ParseIntNaN | utilityCommands.js:625 | text that starts with no whitespace, sign or digit parses to NaN |
| Common.ParseIntIgnoresSuffix | channelManagement.js:713 | digits followed by other text parse to the digits' value, as `parseInt` stops at the first non-digit |
| Common.CollapseSpaces | evalMode.js:325 | `replace(/\s+/g, '-')` leaves no whitespace |
| Common.Join | channelManagement.js:1534 | `join(sep)` of no parts is empty; otherwise its length is the parts' total length plus one separator between each pair, and it starts with the first part |
| Common.Trim | channelManagement.js:1534 | never lengthens; a non-empty result has no whitespace at either end; text with no whitespace at either end is unchanged; the result is empty iff the text is all whitespace |
| Common.ParseInt | channelManagement.js:528 | text that is empty or all whitespace is NaN |
| Common.ParseIntSkipsSpace | channelManagement.js:528 | leading whitespace does not change what `parseInt` reads |
| Common.ParseIntArg | channelManagement.js:528 | a missing argument (`args[i]` undefined) is NaN; a present one is `parseInt` of it |
| Common.StripEdgeQuotes | channelManagement.js:1600 | removes exactly one quote at each end that has one (both ends, only the start or only the end; a lone quote becomes empty), and leaves a string with no quote at either end unchanged |
| Common.StripWrapped | channelManagement.js:1600 | text wrapped in double quotes comes back as exactly that text |
| Common.InRange | channelManagement.js:529 | accepts exactly a parsed (non-NaN) value inside the inclusive range, and returns it unchanged |
| Database.NewSession | database.js:137-145 | the stored record carries the user, guild and card, with createdAt = updatedAt = now |
| Database.HelpLookup | database.js:191-211 | a session is returned iff its key is present and `now - createdAt > 24h` is false, and it is the stored record |
| Database.AfterLookup | database.js:205-208 | reading removes exactly the looked-up key when it has expired and nothing else |
| Database.Sweep | database.js:289-298 | exactly the expired entries are removed; every other entry is unchanged |
| Database.ReadYourWrite | database.js:133-149 | a save followed by a read at `now <= createdAt + 24h` returns the saved card |
| Database.ExpiredReadsAbsent | database.js:203-208 | a session older than 24h reads as null and is deleted |
| Database.ExactlyOneDayStillValid | database.js:203 | a session exactly 24h old is still returned, because the comparison is strict |
| Database.SweepKeepsActive | database.js:289-298 | the sweep keeps every active session, and active ones never outnumber stored ones |
| Database.ActiveNotExpired | database.js:353-356 | an entry counted active by the stats is never expired; an entry exactly 24h old is valid on read but not counted active |
| Database.ActiveKeys | database.js:353-356 | a key is active iff it is stored and its entry is younger than 24 hours |
| Database.HelpKeyInjective | database.js:137 | for digit-only user ids, `userId_guildId` keys of different pairs differ |
| Database.OfType | database.js:562 | the type filter keeps only entries of that type, drawn from the list |
| Database.SliceFromEnd | database.js:563 | `slice(-n)` keeps the last `min(n, len)` entries; `n = 0` keeps the whole list |
| Database.Reverse | database.js:563 | `reverse()` mirrors the indices |
| Database.AuditView | database.js:558-563 | at most `limit` entries for `limit >= 1`, all of the requested type, all from the guild's log |
| Database.FilterBeforeLimit | database.js:562-563 | the filter applies before the limit: the view holds `min(limit, count of that type)` entries |
| Database.NewestFirst | database.js:531-534 | a newly appended entry is the first one listed, with or without a type filter |
| Database.AppendOtherType | database.js:531-534 | appending an entry of another type leaves a filtered view unchanged |
| Database.InsertNewest | database.js:603 | inserting keeps the multiset and adds the entry |
| Database.InsertNewestSorted | database.js:603 | inserting into a newest-first list keeps it newest-first |
| Database.SortNewestFirst | database.js:603 | the sort is a permutation and orders by `createdAt` descending |
| Database.Take | database.js:603 | `slice(0, n)` keeps the first `min(n, len)` entries |
| Database.TakeNewestFirst | database.js:603 | a prefix of a newest-first list is newest-first and a sub-multiset |
| Database.GuildTicketsOf | database.js:439-448 | every listed ticket belongs to the guild and is stored under its channel; every stored ticket of the guild is listed |
| Database.Store.constructor | database.js:9-11 | all maps start empty |
| Database.Store.SaveHelpInteraction | database.js:133-149 | sets the key `userId_guildId` to the new record and returns true |
| Database.Store.GetHelpInteraction | database.js:191-211 | returns HelpLookup of the old map and leaves AfterLookup of it |
| Database.Store.DeleteHelpInteraction | database.js:248-260 | removes the key, whether or not it was present, and returns true |
| Database.Store.CleanupOldInteractions | database.js:285-298 | the loop over the entries leaves exactly Sweep of the old map |
| Database.Store.Close | database.js:341-344 | the in-memory sessions are cleared |
| Database.Store.DatabaseStats | database.js:348-359 | total is the map size; the active count is exactly the number of entries younger than 24h (ActiveKeys), so it is bounded by the total and positive when some entry is that young |
| Database.Store.SaveTicketPanel | database.js:398-401 | upserts the guild's panel |
| Database.Store.GetTicketPanel | database.js:404-406 | the stored panel, or null for an unknown guild |
| Database.Store.SaveActiveTicket | database.js:409-412 | upserts the ticket and records its channel in key order |
| Database.Store.GetActiveTicket | database.js:415-417 | the stored ticket, or null |
| Database.Store.DeleteActiveTicket | database.js:420-426 | returns true iff the channel had a ticket; afterwards it has none and every other ticket is unchanged |
| Database.Store.FindUserTicket | database.js:429-436 | returns the first channel in insertion order whose ticket matches both guild and user, and null iff none matches |
| Database.Store.GetGuildTickets | database.js:439-448 | exactly the guild's tickets in insertion order |
| Database.Store.GetCurrentTicketNumber | database.js:458-460 | the last number issued, or 0 |
| Database.Store.GetNextTicketNumber | database.js:450-455 | returns the previous number + 1 (1 on first use) and leaves every other guild's counter unchanged |
| Database.Store.SaveLoggingChannel | database.js:464-470 | upsert: afterwards the guild's channel is the one just saved; other guilds unchanged |
| Database.Store.GetLoggingChannel | database.js:494-498 | the stored channel id when the guild has a non-empty one; null for an unconfigured guild or an empty id |
| Database.Store.SaveAuditLog | database.js:517-537 | appends the entry to the guild's list (created on first use) and changes nothing else |
| Database.Store.GetAuditLogs | database.js:558-563 | at most `limit` entries, all of the type and all from the guild |
| Database.Store.GetAllAuditLogs | database.js:596-603 | the concatenation of every guild's log in guild order, sorted newest first, cut to `limit` |
| SlashCommands.SlashAuthorization | slashCommandHandler.js:42-49 | the bot owner anywhere; otherwise only the server owner and only in the owner channel |
| SlashCommands.IsAuthorized | slashCommandHandler.js:42-49 | outside the owner channel only the bot owner is authorised |
| SlashCommands.NpAllows | slashCommandHandler.js:51-56 | allowing np requires a member in a guild that has a non-empty allowed-role set, and the member holding some role |
| SlashCommands.CompareRoles | slashCommandHandler.js:456-465 | higher, equal or lower exactly as executor position is >, = or < target position |
| SlashCommands.CompareRolesAntisymmetric | slashCommandHandler.js:456-465 | swapping the two roles swaps higher and lower |
| SlashCommands.CreateGraph | slashCommandHandler.js:889-892 | `'|'`, `ceil(p/5)` `=` characters, `max(0, 20 - ceil(p/5))` `-` characters, `'|'` |
| SlashCommands.GraphWidth | slashCommandHandler.js:889-892 | for `p` in 0..100 the graph is 22 characters |
| SlashCommands.CountedIffInWindow | slashCommandHandler.js:915-923 | a member is counted iff the join time is truthy and lies in `[now - 30 days, now)` |
| SlashCommands.Buckets | slashCommandHandler.js:903-923 | thirty daily counters; counter `d` is exactly the number of counted members who joined on day `d` (CountDay) |
| SlashCommands.BucketsTotal | slashCommandHandler.js:915-923 | the buckets sum to the number of counted members |
| SlashCommands.BucketJoins | slashCommandHandler.js:903-923 | the counting loop over the array yields Buckets, whose sum is the counted-member total |
| SlashCommands.RemoveAt | slashCommandHandler.js:1685 | `splice(idx, 1)` removes exactly that element and keeps the rest distinct |
| SlashCommands.PickIndex | slashCommandHandler.js:1683 | the random index is inside the remaining array |
| SlashCommands.DrawWinners | slashCommandHandler.js:1681-1687 | the corrected draw selects exactly `min(winners, participants)` distinct winners, all participants |
| SlashCommands.DrawWinnersAsWritten | slashCommandHandler.js:1681-1687 | the loop as written selects `min(winners, ceil(participants / 2))` distinct participants |
| SlashCommands.AsWrittenShortfall | slashCommandHandler.js:1682 | the loop as written never selects more than intended, and selects fewer exactly when `winners > ceil(n/2)` and `n >= 2` |
| SlashCommands.AsWrittenShortfallExample | slashCommandHandler.js:1682 | with 3 participants and 5 winners the loop draws 2, not 3 |
| SlashCommands.KeyOwner | slashCommandHandler.js:1065 | `split(':')[0]` is the prefix before the first colon |
| SlashCommands.ParseMcButton | slashCommandHandler.js:1052-1057 | an id without the `mc_` prefix is not a membercount button |
| SlashCommands.PageStepInBounds | slashCommandHandler.js:1068-1075 | back moves only above 0, forward only below the last page, so the page stays in `[0, max(0, pages - 1)]` |
| SlashCommands.PageStep | slashCommandHandler.js:1071-1075 | back moves down by at most one and stays put iff the page is already at or below 0; forward moves up by at most one and stays put iff the page is already at or past the last |
| SlashCommands.McButtonRoundTrip | slashCommandHandler.js:1052-1065 | the ids `mc_back_<u>:<g>` and `mc_forward_<u>:<g>` parse back to their action and session key, whose owner is `u` |
| SlashCommands.NpAdd | slashCommandHandler.js:58-63 | creates the guild's set on first use and adds the role; other guilds unchanged |
| SlashCommands.NpRemove | slashCommandHandler.js:65-70 | deletes the role from an existing set; an unknown guild is a no-op |
| SlashCommands.BypassUpdate | slashCommandHandler.js:431-449 | `add` inserts, `remove` deletes, any other action leaves the contents; the guild's set always exists afterwards |
| SlashCommands.NpAddIdempotent | slashCommandHandler.js:58-63 | adding a role twice is adding it once |
| SlashCommands.NpAddGrants | slashCommandHandler.js:51-70 | after adding, a member holding the role may use np; after removing, a member holding only it may not |
| SlashCommands.NpNeedsMemberAndGuild | slashCommandHandler.js:51-56 | np is refused with no member or no guild |
| SlashCommands.AfkMentioned | slashCommandHandler.js:790-800 | the reported users are exactly the mentioned users with an AFK entry in this guild |
| SlashCommands.SlashCommandHandler.constructor | slashCommandHandler.js:15-39 | every registry starts empty |
| SlashCommands.SlashCommandHandler.AddNpRole | slashCommandHandler.js:58-63 | the registry becomes NpAdd of the old one |
| SlashCommands.SlashCommandHandler.RemoveNpRole | slashCommandHandler.js:65-70 | the registry becomes NpRemove of the old one |
| SlashCommands.SlashCommandHandler.GetNpRoles | slashCommandHandler.js:72-74 | the guild's set, or the empty set |
| SlashCommands.SlashCommandHandler.CanUseNp | slashCommandHandler.js:51-56 | allowed only for a member in a guild with an allowed-role set, one of whose roles is in that set |
| SlashCommands.SlashCommandHandler.HandleQuarantineBypass | slashCommandHandler.js:425-454 | the bypass registry becomes BypassUpdate of the old one |
| SlashCommands.SlashCommandHandler.HandleExtraOwner | slashCommandHandler.js:1154-1166 | only the bot owner is allowed; then the user joins the permanent set |
| SlashCommands.SlashCommandHandler.HandleRemoveOwner | slashCommandHandler.js:1182-1194 | only the bot owner is allowed; then the user leaves the permanent set |
| SlashCommands.SlashCommandHandler.HandleTempOwner | slashCommandHandler.js:1168-1180 | only the bot owner is allowed, and no registry changes |
| SlashCommands.SlashCommandHandler.ListOwners | slashCommandHandler.js:1196-1202 | the two reported sizes are those of the permanent and temporary registries |
| SlashCommands.SlashCommandHandler.HandleAfk | slashCommandHandler.js:764-772 | stores the reason (default `AFK`) and time under `guildId:userId` |
| SlashCommands.SlashCommandHandler.CheckAfkMention | slashCommandHandler.js:781-809 | reports AfkMentioned of the old map, then deletes only the author's entry for this guild; mentioned users' entries are untouched |
| SlashCommands.SlashCommandHandler.StartGiveaway | slashCommandHandler.js:1637-1668 | registers `giveaway_<now>` with no participants |
| SlashCommands.SlashCommandHandler.HandleGiveawayButton | slashCommandHandler.js:1709-1730 | an unknown giveaway is reported ended; a repeat click changes nothing; a first click appends the user once |
| SlashCommands.SlashCommandHandler.EndGiveaway | slashCommandHandler.js:1674-1699 | nothing happens for an unknown or empty giveaway; otherwise the corrected draw picks the winners and the giveaway is deleted |
| SlashCommands.SlashCommandHandler.StartMembercountSession | slashCommandHandler.js:972-976 | stores page 0 and the dates under `userId:guildId` |
| SlashCommands.SlashCommandHandler.HandleMembercountButton | slashCommandHandler.js:1052-1079 | a click by anyone but the key's user, or on a missing session, leaves every page unchanged; otherwise the page moves by PageStep |
| Voice.MuteTargets | voiceManagement.js:45-52 | exactly the in-voice, non-bot members who are not the executor, not the owner and not defended |
| Voice.UnmuteTargets | voiceManagement.js:76-80 | exactly the in-voice, non-bot, server-muted members |
| Voice.DisconnectTargets | voiceManagement.js:178-183 | exactly the in-voice, non-bot members who are not the executor and not the owner |
| Voice.DefendTargets | voiceManagement.js:116-118 | exactly the in-voice, non-bot members |
| Voice.ActOnEach | voiceManagement.js:54-63 | the loop counts the successes and collects failed usernames; the count plus the failures equals the targets |
| Voice.MoveUser | voiceManagement.js:205-211 | refused before any move when the member is not in voice or the target is not a voice channel (type 2) |
| Voice.ProtectedNeverTargeted | voiceManagement.js:45-52 | bots, the executor and the owner are never muted or disconnected |
| Voice.MuteTargetsWithinDisconnect | voiceManagement.js:45-52 | the mute targets are disconnect targets, and with nobody defended the two selections have the same size |
| Voice.VoiceManager.constructor | voiceManagement.js:7 | no user is defended |
| Voice.VoiceManager.DefendUser | voiceManagement.js:100-103 | returns true and the user is defended afterwards |
| Voice.VoiceManager.UndefendUser | voiceManagement.js:106-110 | returns whether the user was defended; afterwards the user is not and every other user is as before |
| Voice.VoiceManager.IsDefended | voiceManagement.js:135-137 | a defended user is never a mute target, whoever executes and whoever owns the server |
| Voice.VoiceManager.DefendAll | voiceManagement.js:113-125 | every in-voice human becomes defended, nobody else is added, and defendedCount == totalUsers |
| Voice.VoiceManager.UndefendAll | voiceManagement.js:128-132 | returns the previous size and leaves the set empty |
| Voice.VoiceManager.GetDefendedUsers | voiceManagement.js:140-142 | lists exactly the defended users |
| Voice.VoiceManager.MuteAll | voiceManagement.js:40-68 | targets exactly MuteTargets; mutedCount + failures = totalUsers |
| Voice.VoiceManager.UnmuteAll | voiceManagement.js:71-97 | targets exactly UnmuteTargets; the counts sum to totalUsers |
| Voice.VoiceManager.DisconnectAll | voiceManagement.js:173-200 | never targets the executor, the owner or bots; every other in-voice human is targeted; the counts sum to totalUsers |
| EvalMode.EvalStep | evalMode.js:24-106 | `eval` toggles the caller, `eexit` removes the caller, anything else leaves the set; outside the mode every other command is refused; a dispatched command is in the known list and the caller is in the mode |
| EvalMode.EvalToggleTwice | evalMode.js:27-58 | `eval` twice restores the set; `eval` then `eexit` from outside leaves it as it was |
| EvalMode.EvalStepLocal | evalMode.js:24-106 | one user's commands never change another user's mode |
| EvalMode.EvalModeState.constructor | evalMode.js:6-9 | nobody starts in eval mode |
| EvalMode.EvalModeState.IsInEvalMode | evalMode.js:12-14 | a user in the mode has every eval command dispatched; a user outside it is refused every command but `eval` and `eexit` |
| EvalMode.EvalModeState.EnterEvalMode | evalMode.js:16-18 | Set insert |
| EvalMode.EvalModeState.ExitEvalMode | evalMode.js:20-22 | Set delete |
| EvalMode.EvalModeState.HandleEvalCommand | evalMode.js:24-106 | the new set and outcome are EvalStep of the old set |
| EvalMode.Tokens | evalMode.js:293 | the matches of `/"([^"]+)"|(\S+)/g` are non-empty |
| EvalMode.QuotedPairTokens | evalMode.js:293 | two quoted arguments tokenise to exactly those two quoted runs, spaces included |
| EvalMode.ParseServerId | evalMode.js:295-311 | an accepted server id is non-empty and contains no quote |
| EvalMode.NukeChannelName | evalMode.js:304 | the name contains no quote, and is `fucked-by-script` when there is no second match |
| EvalMode.NukeArgsRoundTrip | evalMode.js:293-304 | `enuke "id" "name"` reads back as that id and that name |
| EvalMode.BareServerId | evalMode.js:293-304 | a lone unquoted word is the server id and the name falls back to the default |
| EvalMode.SanitizeChannelName | evalMode.js:325 | the output uses only `[a-z0-9-]` |
| EvalMode.SanitizeIdempotent | evalMode.js:325 | sanitising a sanitised name changes nothing |
| EvalMode.SanitizeJoinsWords | evalMode.js:325 | two clean words separated by any whitespace run become `word-word` |
| EvalMode.ParseLogFilter | evalMode.js:549-574 | no server gives an error; no argument lists all types; a filter is accepted iff its lowercased, quote-free word is `bans`, `timeouts` or `kicks`; the type is that word without the trailing `s` |
| EvalMode.FilterAccepted | evalMode.js:561-574 | each of the three words, quoted or not, selects its singular type |
| EvalMode.ChannelIdArg | evalMode.js:687-695 | accepted iff the argument without `"` is a non-empty digit string, which is the id |
| EvalMode.ChannelIdRoundTrip | evalMode.js:687-695 | a quoted digit string reads back as its digits |
| EvalMode.SetupLoggingChannel | evalMode.js:668-720 | the store's logging channel is set exactly when the server, the id and a text channel are all present |
| MediaThreads.SlowmodeArg | mediaThreadsManagement.js:115-118 | an accepted slowmode lies in 0..21600 |
| MediaThreads.SlowmodeArgExactly | mediaThreadsManagement.js:115-118 | `mediaslowmode N` is accepted exactly for integers 0..21600 |
| MediaThreads.SlowmodeArgMissing | mediaThreadsManagement.js:115-116 | a missing argument is NaN and is refused |
| MediaThreads.WithSlowmode | mediaThreadsManagement.js:120-122 | the new entry has the new slowmode and keeps the enabled flag (false for an unconfigured channel) |
| MediaThreads.ShouldDelete | mediaThreadsManagement.js:422-431 | a message is deleted only when it has no media and the channel's config exists and is enabled |
| MediaThreads.DeletionPolicy | mediaThreadsManagement.js:417-431 | deletion happens iff the author is not a bot, the config is enabled and there are no attachments and no embeds |
| MediaThreads.HasMedia | mediaThreadsManagement.js:416-418 | a message has media iff it has an attachment or an embed |
| MediaThreads.MediaThreadsManager.constructor | mediaThreadsManagement.js:4-8 | the given configs or an empty map; no media channels |
| MediaThreads.MediaThreadsManager.IsAuthorized | mediaThreadsManagement.js:11-40 | only the bot owner, the server owner and Administrators pass, and the bot owner always does |
| MediaThreads.MediaThreadsManager.DeletesMessage | mediaThreadsManagement.js:421-431 | a message is deleted iff its author is not a bot, its channel is configured and enabled, and it has no attachment and no embed |
| MediaThreads.MediaThreadsManager.EnableMedia | mediaThreadsManagement.js:65-77 | refused without change unless authorised; then the entry becomes `{enabled: true, slowmode: 0}`, so a human message without media is deleted |
| MediaThreads.MediaThreadsManager.DisableMedia | mediaThreadsManagement.js:86-99 | refused without change unless authorised and configured; then the entry is removed and nothing in the channel is deleted |
| MediaThreads.MediaThreadsManager.MediaSlowmode | mediaThreadsManagement.js:107-123 | refused without change unless authorised and valid; then only the slowmode changes, and deletion behaviour is unchanged |
| ChannelManagement.CommandGate | channelManagement.js:63-69 | refused iff not an info command and not authorised; dispatched iff admitted and a known command; otherwise not handled |
| ChannelManagement.GateInfoAndUnknown | channelManagement.js:65-204 | info commands run for anybody; an unknown command is refused (and reported handled) for the unauthorised, and returns false for the authorised |
| ChannelManagement.SlowmodeSeconds | channelManagement.js:527-532 | an accepted value lies in 0..21600 |
| ChannelManagement.SlowmodeExactly | channelManagement.js:527-532 | exactly the integers 0..21600 are accepted |
| ChannelManagement.UserLimit | channelManagement.js:711-723 | a voice-channel mention is required first; an accepted limit lies in 0..99 |
| ChannelManagement.Bitrate | channelManagement.js:748-760 | a voice-channel mention is required first; an accepted bitrate lies in 8000..384000 and is a whole number of kbps |
| ChannelManagement.VoiceSettingsExactly | channelManagement.js:713-760 | the limit accepts exactly 0..99 and the bitrate exactly 8..384 kbps times 1000 |
| ChannelManagement.VisibilityOf | channelManagement.js:1588-1592 | private iff the lowercased word is `private`, public iff it is `public`, and only a 6- or 7-character word can be either |
| ChannelManagement.SplitVisibility | channelManagement.js:1663-1672 | a trailing visibility word sets the visibility and is dropped; otherwise public and all arguments |
| ChannelManagement.TextChannelName | channelManagement.js:1669-1679 | the cleaned name uses only `[a-z0-9-_]` and has no upper-case letter |
| ChannelManagement.TextChannelNameKeepsValid | channelManagement.js:1669-1679 | arguments already in `[a-z0-9-_]` give their `-`-joined text unchanged |
| ChannelManagement.RenamedName | channelManagement.js:1534 | the new category name has no leading or trailing whitespace; arguments whose joined text has no whitespace or quote at either end give that text unchanged |
| ChannelManagement.RenamedNameQuoted | channelManagement.js:1534 | a name given as `"name"` becomes `name` trimmed |
| ChannelManagement.SpacedName | channelManagement.js:1596-1603 | never longer than the joined arguments; all-whitespace arguments give the empty name; a joined text with no whitespace or quote at either end is the name unchanged |
| ChannelManagement.SpacedNameQuoted | channelManagement.js:1596-1603 | a name given as `"name"` becomes exactly `name`, inner spaces kept, because the trim comes before the quote removal |
| ChannelManagement.FindByName | channelManagement.js:1693-1695 | `cache.find` returns the first matching channel and null iff none matches |
| ChannelManagement.FindById | channelManagement.js:1547 | `cache.get` returns a channel with that id, and null iff none has it |
| ChannelManagement.CreateChannel | channelManagement.js:1654-1700 | usage error iff no arguments; a created channel has the cleaned name of the arguments before the visibility word, that visibility, 1..100 characters of `[a-z0-9-_]` and no text namesake; a duplicate is an existing text channel with exactly that name |
| ChannelManagement.CreateTextChannel | channelManagement.js:1674-1699 | empty-name iff the cleaned name is empty, too-long iff over 100 characters; a created channel has the cleaned name, the given visibility and no text namesake; a duplicate is an existing text channel with exactly that name, and a duplicate is reported whenever one exists for a valid name |
| ChannelManagement.CreateCategory | channelManagement.js:1579-1620 | usage error iff no arguments; a created category has the spaced name of the arguments before the visibility word, that visibility, 1..100 characters and no namesake ignoring case; a duplicate is an existing category with that name ignoring case |
| ChannelManagement.CreateCategoryNamed | channelManagement.js:1599-1617 | empty-name iff the spaced name is empty, too-long iff over 100 characters; a created category has the spaced name and the given visibility; a duplicate is an existing category with that name ignoring case, and a duplicate is reported whenever one exists for a valid name |
| ChannelManagement.CheckedName | channelManagement.js:1681-1699 | the shared name checks: empty iff the name is empty, too long iff over 100 characters, a duplicate iff a channel of that type matches (exactly or ignoring case) and is that channel, otherwise a created channel with that name, the given visibility and limit, and no namesake |
| ChannelManagement.TrailingVisibility | channelManagement.js:1663-1672 | appending `private`/`public` to `crchannel` arguments changes only the visibility |
| ChannelManagement.TrailingVisibilityCategory | channelManagement.js:1588-1597 | appending `private`/`public` to `crcato` arguments changes only the visibility |
| ChannelManagement.CreateChannelAsGiven | channelManagement.js:1654-1700 | a clean, new name of at most 100 characters is created as given, public |
| ChannelManagement.VoiceArgsShapes | channelManagement.js:1963-1980 | for any name words whose last word is neither a visibility word nor a number: name + visibility + number, name + visibility, name + number and the bare name are read as those four cases |
| ChannelManagement.VoiceArgs | channelManagement.js:1963-1980 | the name words are the arguments less zero, one or two trailing ones; with none dropped the defaults public and 0 apply; with two dropped they are a visibility word and a number, whose values are the visibility and the limit |
| ChannelManagement.CreateVoiceChannel | channelManagement.js:1952-2008 | usage error iff no arguments; in source order, empty-name iff the spaced name is empty, limit refusal iff the name is non-empty and the parsed limit is outside 0..99, too-long iff the limit is in range and the name exceeds 100 characters; a created channel has the parsed name, visibility and limit and no voice namesake ignoring case; a duplicate is an existing voice channel with that name ignoring case, and a valid name with such a namesake is always reported as a duplicate |
| ChannelManagement.VoiceLimitRefused | channelManagement.js:1989-1992 | for any non-empty name, a trailing number outside 0..99 is refused, with or without a visibility word before it |
| ChannelManagement.RenameCategory | channelManagement.js:1527-1557 | usage error iff fewer than two arguments; a rename targets `args[0]`, an existing category (type 4), with RenamedName of the other arguments, 1..100 characters and trimmed |
| ChannelManagement.SetJ2C | channelManagement.js:792-794 | sets the join-to-create id and keeps the other keys |
| ChannelManagement.ClearJ2C | channelManagement.js:817-818 | deletes only the join-to-create key |
| ChannelManagement.J2CRoundTrip | channelManagement.js:785-819 | removing after setting gives back the configuration without a join-to-create id |
| ChannelManagement.LockLink | channelManagement.js:1157-1163 | the channel is locked afterwards (the set is created if absent) and no other channel changes |
| ChannelManagement.UnlockLink | channelManagement.js:1185-1190 | the channel is unlocked afterwards; no other channel changes; without a set nothing changes |
| ChannelManagement.LockUnlockRoundTrip | channelManagement.js:1157-1190 | locking then unlocking a channel that was not locked gives back the set |
| ChannelManagement.ChannelManager.constructor | channelManagement.js:5-9 | the given configs or an empty map |
| ChannelManagement.ChannelManager.IsAuthorized | channelManagement.js:11-39 | only the bot owner, the server owner and Administrators pass, and the bot owner always does |
| ChannelManagement.ChannelManager.HandleCommand | channelManagement.js:63-69 | the gate for the caller's authorisation |
| ChannelManagement.ChannelManager.SetupJ2C | channelManagement.js:785-795 | refused without change unless the mention is a voice channel; then the guild's config (created if absent) gets that id |
| ChannelManagement.ChannelManager.RemoveJ2C | channelManagement.js:811-819 | refused without change when join-to-create is not enabled; otherwise only that key is deleted |
| ChannelManagement.ChannelManager.LockLinks | channelManagement.js:1151-1164 | with the global map present, the guild's locked set gains the channel |
| ChannelManagement.ChannelManager.UnlockLinks | channelManagement.js:1179-1191 | only an existing locked set changes, and it loses the channel |
| Utility.UptimeSplit | utilityCommands.js:546-551 | hours < 24, minutes < 60, seconds < 60, and `d*86400 + h*3600 + m*60 + s` is the uptime |
| Utility.UptimeSplitUnique | utilityCommands.js:546-551 | the split is the only such breakdown |
| Utility.RgbSplit | utilityCommands.js:482 | each component is in 0..255; line 821 repeats the same split |
| Utility.RgbRoundTrip | utilityCommands.js:482 | a colour below 2^24 is its three components recombined |
| Utility.RgbOfComponents | utilityCommands.js:482 | three components in 0..255 form a colour that splits back into them |
| Utility.SecurityLabelOf | utilityCommands.js:441 | High iff level >= 3, Medium iff level 2, Low iff level < 2 |
| Utility.SecurityLabelMonotone | utilityCommands.js:441 | a higher verification level never shows a weaker label |
| Utility.RenameAuthorized | utilityCommands.js:238-241 | refused iff the caller is neither bot owner nor server owner and lacks Manage Nicknames |
| Utility.QuotedFrom | utilityCommands.js:261 | a match is a non-empty, quote-free text that appears between two quotes; it is the capture of MatchFrom |
| Utility.MatchFrom | utilityCommands.js:261 | the positions of an opening and a closing quote with at least one non-quote character and no quote between them |
| Utility.MatchFromLeftmost | utilityCommands.js:261 | `match` returns the first match: MatchFrom starts at a position where a match is possible, no earlier position admits one, it closes at the next quote, and with no match nothing is possible anywhere |
| Utility.QuotedFromFinds | utilityCommands.js:261 | whenever a quote is followed, after at least one non-quote character, by another quote, a match is found |
| Utility.ExtractNickname | utilityCommands.js:261-271 | no nickname iff no quoted text (and with QuotedFromFinds, iff no two quotes enclose a non-empty quote-free run); an accepted nickname is that text and is 1..32 characters |
| Utility.ExtractQuotedName | utilityCommands.js:261-266 | unquoted text followed by `"name"` extracts exactly `name` |
| Utility.FirstQuotedNickname | utilityCommands.js:261-271 | when the first possible match starts at `k`, the nickname is the text from there to the next quote, or refused as too long when over 32 characters |
| Utility.EmptyQuotesSkipped | utilityCommands.js:261-266 | an empty `""` is not a match: unquoted text, `""`, then `name"` extracts `name` |
| Utility.HandleRename | utilityCommands.js:237-271 | refused iff unauthorised; a nickname is set only for a mentioned member, to the extracted quoted name |
| Utility.AfkArgs | utilityCommands.js:613-631 | usage error iff no mention; too few arguments iff fewer than 3; invalid iff the duration is NaN or < 1; otherwise the message is `args[2..]` joined by spaces |
| Utility.AfkArgsExactly | utilityCommands.js:624-631 | `afk @u N words` is accepted iff N >= 1, with the words as the message |
| Utility.UtilityCommands.constructor | utilityCommands.js:6 | the AFK map starts empty |
| Utility.UtilityCommands.HandleAFK | utilityCommands.js:612-640 | an invalid call leaves the map; a valid one stores message, start time, duration and guild under the mentioned user's id |
| Utility.UtilityCommands.AfkTimerExpire | utilityCommands.js:658-661 | removes the entry only if it is still present, and returns it |

## Left out

- The PostgreSQL branches of `database.js`, `initializeDatabase` and the fallback-on-throw paths: these are external I/O. Only the in-memory paths are modelled.
- Timers (`setInterval` cleanup, and the giveaway and AFK `setTimeout`s): their callbacks are the explicit methods `CleanupOldInteractions`, `EndGiveaway` and `AfkTimerExpire`, called with the current time.
- Every Discord API call, with its reply, embed and log-message text: these are opaque platform effects. A call that throws is an input (`fails`) where the count of failures matters.
- `acknowledgementService.js`, a dispatcher over platform replies, and the unused button and menu handlers; none changes in-process state.
- The eval-mode nuke and announcement loops, and `deleteNukeChannels` beyond its server-id argument, which `ParseServerId` models: these are sequences of API calls.
- Floating point: percentages are integers, `process.uptime()` is whole seconds, and `Math.random()` is an index oracle.
- `toLocaleString`, date grouping and sorting by date string.
- Unicode: `toLowerCase` is modelled for ASCII letters only. A non-ASCII letter whose lower case is ASCII (the Kelvin sign) is dropped by the channel-name filter in the model but kept by JavaScript. String lengths count code points, not UTF-16 units.
- `parseInt` results are unbounded integers: precision loss beyond 2^53 and `Infinity` are not modelled.
- `Bitrate`: `parseInt(x) * 1000` is exact here, with no floating-point rounding.
- `Utility.RgbSplit`: takes the 32-bit pattern that `>>` and `&` work on; the conversion of a non-integer or out-of-range colour to 32 bits is not modelled.
- `ChannelManagement.ChannelManager.LockLinks`: the global `serverConfigs` is a separate optional map held by the manager. Whether it is the same object as the manager's own map depends on process set-up that is not part of this model.
- The quarantine registries, announcement channels and other `slashCommandHandler.js` state that no core operation reads or writes.
- `Voice.VoiceManager.MuteAll`, `Voice.VoiceManager.UnmuteAll`, `Voice.VoiceManager.DisconnectAll`: the outer `try`/`catch` of each, which reports zero counts and no failures when selecting from `guild.members.cache` throws, is not modelled; the cached member list is an input and the selection never fails.
- `Database.Store.SaveHelpInteraction`, `Database.Store.SaveAuditLog`, `Database.Store.GetAuditLogs`, `Database.Store.GetAllAuditLogs`: the JavaScript default arguments (`currentCard = 1`, `details = null`, `logType = null` with `limit = 50`, and `limit = 100`) are not defaults here; callers pass those values explicitly (`1`, `None`, `None` and `50`, `100`).
- `SlashCommands.SlashCommandHandler.HandleTempOwner`: the handler stores nothing (the temporary registry is never written), so the model states only the owner check.
- `SlashCommands.SlashCommandHandler.EndGiveaway`: draws with the corrected `DrawWinners`, which picks `min(winners, participants)` winners. The timer as written picks only `min(winners, ceil(participants / 2))`; `DrawWinnersAsWritten` models that (see "## Findings").
- `EvalMode.SetupLoggingChannel`: whether a channel is text-based is an input map rather than a platform lookup.

## Findings

| source | as written | input that shows it | evidently intended | confidence | as-written member | corrected member |
|---|---|---|---|---|---|---|
| slashCommandHandler.js:1682-1686 | the draw loop's bound `Math.min(winners, participantArray.length)` is re-evaluated after each `splice`, so it draws only `min(winners, ceil(n/2))` winners | 3 participants, 5 winners: 2 winners drawn | `min(winners, n)` distinct winners, as the giveaway announces | not executed | SlashCommands.DrawWinnersAsWritten, SlashCommands.AsWrittenShortfallExample | SlashCommands.DrawWinners |

Code and design differ in two places; the model follows the code:

- A giveaway whose timer finds zero participants is not deleted. The handler returns before the `delete`, so the entry stays in the registry (`EndGiveaway`).
- The statistics count a help session as active when its age is under 24 hours. A read treats it as expired only when its age is over 24 hours. So a session exactly 24 hours old is readable but not counted active (`Database.ActiveNotExpired`).
