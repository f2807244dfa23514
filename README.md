# vrt-cogs: assistant registry and ticket bookkeeping in Dafny

This project models the core logic of two cogs from the vrt-cogs collection for the Red Discord bot.

The **assistant** cog answers chat messages with a language model. Its in-memory bookkeeping is modelled here:
- the registry through which other cogs offer functions (tools) to the model;
- the startup cleanup of the registry and of the per-guild settings;
- the single-flight save of its database;
- the guards around creating memories (embeddings);
- the credential guard of `get_chat`.

The static tables of its constants file are modelled too: the model context-window sizes, the models that support tools, the readable file extensions, and the six built-in tool schemas.

The **tickets** cog runs support tickets. The model covers:
- the panel refresh at startup (which panels are redeployed, and how they are grouped per message);
- the auto-close sweep with its warn / wait / close decision and its `valid` list of exempt channels;
- the member-left handler;
- the thread-deleted handler.

Files and modules:
- `wrappers.dfy`, module `Wrappers`: Option and Result.
- `json.dfy`, module `Json`: JSON values; a schema is a JSON object.
- `constants.dfy`, module `Constants`: the tables and tool schemas of `assistant/common/constants.py`.
- `maps.dfy`, module `Maps`: map restriction, and the in-place key-pruning loop that `_cleanup_db` repeats.
- `registry.dfy`, module `Registry`: the registry as a value. It holds the effect of every registry operation as a function of the old registry, and the cleanup loop over it.
- `settings.dfy`, module `Settings`: guild settings, the database, role-override and blacklist cleanup, and the tutor test.
- `assistant.dfy`, module `Assistant`: class `AssistantCog`. Its fields are the ones the cog updates in place (`registry`, `db`, `saving`, `first_run`, the save loop's state). Its methods are the cog's operations, each proved against the functions above.
- `decimal.dfy`, module `Decimal`: `str(n)` for integers, used for dictionary keys built from Discord ids.
- `tickets_panels.dfy`, module `TicketPanels`: the panel grouping of `initialize`.
- `tickets.dfy`, module `Tickets`: auto-close, `on_member_remove` and `on_thread_delete`. Class `TicketsCog` holds the `valid` list.

External calls become parameters:
- Discord lookups (`get_cog`, `hasattr`, `get_guild`, `get_role`, `get_member`, `get_channel`, `fetch_message`, `ticket_owner_hastyped`) become maps and sets of what resolves.
- The schema validator `json_schema_invalid` is a function parameter. The only thing assumed of it is that it reports any non-empty schema without a string `name`.
- The embedding vendor's answer is a parameter: the vector, empty when none came back.
- `can_call_llm` is a predicate parameter on the guild settings.
- The write of the config backend is a flag saying whether it fails.
- Elapsed time is an exact real number of hours.

Ticket dictionaries are insertion-ordered, so they are modelled as sequences of (key, value) pairs. Their keys are strings, as the config backend stores them. `opened[str(member.id)]` and `int(channel_id)` in the source treat them that way.

## Model

| member | source | states |
|---|---|---|
| Registry.Verdict | assistant/assistant.py:329-355 | A schema is accepted only if it has a string `name`. Rejections are checked in source order: cog not loaded, empty schema, validator complaint, name owned by another cog, missing attribute |
| Registry.VerdictAcceptsIff | assistant/assistant.py:329-355 | Registration succeeds if and only if all of these hold: the cog is loaded; the schema is non-empty and passes the validator; its name is a string not registered by any other cog; and the cog has that attribute |
| Registry.Registered | assistant/assistant.py:329-362 | On rejection the registry is unchanged. On success the schema is filed under its name in the cog's bucket, the bucket is created if absent, and every other bucket and entry is unchanged |
| Registry.RegisteredValid | assistant/assistant.py:344-362 | Registering keeps function names unique across cogs, and keeps every schema filed under its own name |
| Registry.FiledValid | assistant/assistant.py:357-362 | Filing a schema under its own unowned name keeps the registry valid |
| Registry.RegisteredLookup | assistant/assistant.py:357-362 | After success, looking up the name finds exactly this cog and this schema |
| Registry.SecondOwnerRejected | assistant/assistant.py:344-351 | Once one cog owns a name, another cog's schema of that name is rejected, and the first entry stays |
| Registry.SameCogOverwrites | assistant/assistant.py:344-362 | The same cog registering the name again replaces its own entry |
| Registry.RegisteredAllValid | assistant/assistant.py:306-314 | Registering a list keeps the registry valid and leaves every other cog's bucket exactly as it was |
| Registry.Unregistered | assistant/assistant.py:364-378 | Exactly the one entry is removed; an absent cog or name leaves the registry unchanged |
| Registry.UnregisteredCog | assistant/assistant.py:380-390 | Exactly the one bucket is removed; an absent cog leaves the registry unchanged |
| Registry.UnregisterValidIdempotent | assistant/assistant.py:364-390 | Both removals keep the registry valid, and repeating either of them changes nothing |
| Registry.Reconciled | assistant/assistant.py:121-133 | After cleanup only loaded cogs remain, each holding only functions it still has. Every entry of a loaded cog that still has the attribute is kept unchanged, and nothing new appears |
| Registry.ReconciledValidIdempotent | assistant/assistant.py:121-133 | The cleaned registry is valid, and a second cleanup changes nothing |
| Registry.ReconciledUnchangedIff | assistant/assistant.py:121-133 | Cleanup changes the registry exactly when some bucket names an unloaded cog or a missing attribute |
| Registry.ReconciledDone | assistant/assistant.py:121-133 | When no cog is left to visit, the loop's partial result is the cleaned registry |
| Registry.FindOtherOwner | assistant/assistant.py:344-351 | Finds a cog other than the caller that holds the name; returns none only if no such cog exists |
| Registry.ReconcileRegistry | assistant/assistant.py:119-133 | The in-place cleanup loop yields the cleaned registry, and its `cleaned` flag is true exactly when something was removed |
| Maps.Restrict | assistant/assistant.py:129-133 | Keeps exactly the keys in the given set, with their values unchanged |
| Maps.RestrictUnchanged | assistant/assistant.py:129-133 | Restriction changes nothing exactly when every key is allowed |
| Maps.RestrictIdempotent | assistant/assistant.py:144-163 | Restricting twice is the same as restricting once |
| Maps.PruneKeys | assistant/assistant.py:144-163 | The delete-while-iterating-a-copy loop yields the restriction, and reports a change exactly when a key was deleted |
| Settings.WithConf | assistant/assistant.py:143 | `get_conf` returns the stored settings, or inserts defaults for a new guild, and touches no other guild |
| Settings.KeepResolvableSound | assistant/assistant.py:164-173 | The cleaned blacklist is no longer than before, and each of its ids resolves to a role, member or channel |
| Settings.KeepResolvableUnchangedIff | assistant/assistant.py:164-173 | The blacklist is unchanged exactly when every id resolves |
| Settings.KeepResolvableIdempotent | assistant/assistant.py:164-173 | Cleaning the blacklist twice is the same as cleaning it once |
| Settings.RemoveFirstAfter | assistant/assistant.py:172 | `list.remove` deletes the first occurrence: one that follows a prefix without it |
| Settings.PruneBlacklist | assistant/assistant.py:164-173 | Iterating a copy and calling `remove` on each unresolved id yields the filtered blacklist, including for repeated ids; `changed` is true exactly when an id went |
| Settings.AnyRoleIsTutor | assistant/assistant.py:196 | True exactly when one of the member's roles is listed as a tutor |
| Settings.CleanSettingsKeeps | assistant/assistant.py:143-173 | After cleaning, the four override maps hold only existing roles and the blacklist only resolvable ids. Kept overrides keep their values; tutors and embeddings are untouched; the settings are unchanged exactly when already clean |
| Settings.CleanConfigs | assistant/assistant.py:136-142 | Configs remain exactly for the guilds that still exist |
| Settings.CleanConfigsClean | assistant/assistant.py:136-173 | Every remaining config belongs to an existing guild and is clean |
| Settings.CleanConfigsIdempotent | assistant/assistant.py:136-173 | A second cleanup changes nothing |
| Settings.CleanConfigsUnchangedIff | assistant/assistant.py:136-173 | Cleanup changes nothing exactly when every guild exists and every config is clean |
| Settings.CleanConfigsFixedIff | assistant/assistant.py:136-173 | The same, stated per guild: cleanup changes nothing exactly when every guild exists and cleaning leaves each of its settings as they are |
| Settings.CleanupGuildSettings | assistant/assistant.py:143-173 | The four override loops and the blacklist loop yield the cleaned settings, and `changed` is true exactly when something went |
| Settings.CleanupConfigs | assistant/assistant.py:136-173 | The guild loop yields the cleaned configs, and `cleaned` is true exactly when something went |
| Assistant.SaveView | assistant/assistant.py:101-103 | The dumped database keeps the configs and clears conversations unless they persist |
| Assistant.AssistantCog.constructor | assistant/assistant.py:56-70 | Starts with an empty registry and database, not saving, and on its first run |
| Assistant.AssistantCog.RegisterFunction | assistant/assistant.py:316-362 | Returns true exactly when the verdict accepts. The new registry is `Registered` of the old one and stays valid |
| Assistant.AssistantCog.RegisterFunctions | assistant/assistant.py:306-314 | The registry becomes `RegisteredAll` of the list, and stays valid |
| Assistant.AssistantCog.UnregisterFunction | assistant/assistant.py:364-378 | The registry becomes `Unregistered` of the old one, and stays valid |
| Assistant.AssistantCog.UnregisterCog | assistant/assistant.py:380-390 | The registry becomes `UnregisteredCog` of the old one, and stays valid; `on_cog_remove` calls this |
| Assistant.AssistantCog.CleanupDb | assistant/assistant.py:119-175 | The registry is reconciled with the loaded cogs and the configs are cleaned. The result is `cleaned` (the logged health) exactly when something changed |
| Assistant.AssistantCog.BeginSave | assistant/assistant.py:96-103 | A save already in flight makes this a no-op. Otherwise `saving` is raised, non-persistent conversations are cleared, and the dump is taken |
| Assistant.AssistantCog.FinishSave | assistant/assistant.py:104-117 | `saving` is lowered even when the write fails. The dump is stored, and `first_run` cleared, only on success. The save loop stops when conversations do not persist |
| Assistant.AssistantCog.SaveConf | assistant/assistant.py:96-117 | When a save is in flight nothing changes. Otherwise the stored dump is the database with non-persistent conversations cleared (unless the write failed), `saving` ends false, and the loop is cancelled when not persistent |
| Assistant.AssistantCog.SaveLoopTick | assistant/assistant.py:178-182 | When conversations do not persist, no field changes. When they persist and a save is in flight, no field changes either. Otherwise one whole save runs: the database is stored unless the write fails, `saving` ends false, and `first_run` is cleared on success |
| Assistant.AssistantCog.AddEmbedding | assistant/assistant.py:213-248 | An existing name without overwrite gives `EmbeddingEntryExists` with nothing stored; an empty vector gives None with nothing stored. Otherwise `Embedding(text, vector, ai_created)` is stored under the name, one save is scheduled, and the vector is returned |
| Assistant.AssistantCog.KnowledgeStore | assistant/assistant.py:184-211 | A name over 45 characters is refused before the database is touched. A user who is a tutor neither by role nor by id is refused. Otherwise the memory is added without overwriting, flagged as created by the model. Each outcome gives the whole new database and its reply text, and one save is scheduled exactly when the memory is created |
| Assistant.AssistantCog.GetChat | assistant/assistant.py:280-292 | Raises `NoAPIKey` exactly when the guild's settings fail `can_call_llm`; otherwise returns the chat response |
| Assistant.AssistantCog.InitCog | assistant/assistant.py:80-94 | Loads the stored database and cleans it. Then registers the cog's own memory tool on the reconciled registry and starts the save loop |
| Assistant.OverlappingSaves | assistant/assistant.py:96-117 | A save requested while another is writing does nothing. A change made during that write is stored by the next save |
| Constants.ModelsHavePositiveWindows | assistant/common/constants.py:1-21 | Every model has a positive context window |
| Constants.ToolModelsAreKnown | assistant/common/constants.py:83-94 | Every tool-capable model has a context-window entry |
| Constants.ReadExtensionsAreDotted | assistant/common/constants.py:95-139 | Every readable extension begins with a dot |
| Constants.ReadExtensionsRepeat | assistant/common/constants.py:95-139 | ".ini", ".css" and ".bat" each occur twice, so the list is not a set |
| Constants.GenerateImageWellFormed | assistant/common/constants.py:155-183 | It is a tool schema named "generate_image" whose required names are all properties |
| Constants.SearchInternetWellFormed | assistant/common/constants.py:185-202 | It is a tool schema named "search_internet" whose required names are all properties |
| Constants.CreateMemoryWellFormed | assistant/common/constants.py:204-221 | It is a tool schema named "create_memory" whose required names are all properties |
| Constants.SearchMemoriesWellFormed | assistant/common/constants.py:222-239 | It is a tool schema named "search_memories" whose required names are all properties |
| Constants.EditMemoryWellFormed | assistant/common/constants.py:240-257 | It is a tool schema named "edit_memory" whose required names are all properties |
| Constants.ListMemoriesTakesNoArguments | assistant/common/constants.py:258-265 | It is a tool schema named "list_memories" with empty properties and no required list |
| Decimal.DigitsShape | tickets/tickets.py:148 | The rendering of a natural number is a non-empty run of digits, a single digit exactly below ten |
| Decimal.DigitsInjective | tickets/tickets.py:148 | Different natural numbers render differently |
| Decimal.DashedKeyInjective | tickets/tickets.py:148 | For non-negative ids, the key `f"{cid}-{mid}"` determines both the channel and the message |
| TicketPanels.Prepared | tickets/tickets.py:144-147 | Modals default to empty only when absent, existing modals are kept, the name becomes the dictionary key, and nothing else changes |
| TicketPanels.CollectPanels | tickets/tickets.py:121-152 | The loop's `to_deploy` lists each key once, in order of first appearance. Each key's list is that key's group |
| TicketPanels.GroupComplete | tickets/tickets.py:122-152 | Every panel with nonzero, resolvable ids lands, prepared, in the group of its key |
| TicketPanels.GroupOnly | tickets/tickets.py:122-152 | A group holds only prepared, deployable panels of its key |
| TicketPanels.GroupMembers | tickets/tickets.py:122-152 | A group holds exactly the prepared deployable panels whose channel and message give its key |
| TicketPanels.GroupSound | tickets/tickets.py:122-147 | Every panel handed to a view is deployable, has its key, a name and modals |
| TicketPanels.KeyOrderIff | tickets/tickets.py:148-152 | A key is listed exactly when its group is non-empty |
| TicketPanels.KeyOrderDistinct | tickets/tickets.py:148-152 | No key is listed twice, so panels sharing a message get one view |
| TicketPanels.NothingToDeployIff | tickets/tickets.py:122-155 | Nothing is deployed exactly when no panel has nonzero ids that resolve, and such a guild is skipped |
| TicketPanels.SameGroupIff | tickets/tickets.py:148 | For non-negative ids, two panels share a group exactly when they share channel and message |
| TicketPanels.StartGuildViews | tickets/tickets.py:154-160 | One view is started per group, in key order |
| TicketPanels.Initialize | tickets/tickets.py:108-160 | The guild loop starts exactly the views of `StartedViews`: other guilds than the target, unresolved guilds and guilds with nothing deployable are skipped |
| TicketPanels.StartedViewsSound | tickets/tickets.py:108-160 | Every view belongs to the target guild, if one is given, and to a resolved guild. It holds a non-empty group of deployable panels on one message |
| Tickets.IndexWhere | tickets/tickets.py:307-310 | Finds the first key the test accepts, or reports that none does |
| Tickets.Lookup | tickets/tickets.py:279-281 | A key is found exactly when present, and it yields that key's value |
| Tickets.Classify | tickets/tickets.py:229-240 | Close exactly when the elapsed hours reach the limit. Warn exactly when they are within 0.33 hours below it. Wait otherwise |
| Tickets.WarnedThenClosed | tickets/tickets.py:229-238 | A warned ticket that stays unanswered is closed by the sweep 20 minutes later |
| Tickets.ClosedUnwarned | tickets/tickets.py:229-240 | The 0.33-hour window is shorter than the 20-minute sweep interval. A sweep a third of an hour before the limit therefore waits, and the next one closes without any warning |
| Tickets.CloseReasonPlural | tickets/tickets.py:242-251 | The close reason says "1 hour" for a one-hour limit and ends in " hours" otherwise, after the fixed prefix |
| Tickets.UserVisitsIff | tickets/tickets.py:209 | A member's visits are exactly that member's stored tickets |
| Tickets.VisitsIff | tickets/tickets.py:205-209 | A ticket is visited if and only if it is stored under a user key that still resolves to a member |
| Tickets.SweepGrows | tickets/tickets.py:210-228 | `valid` and the notices only grow, and `valid` never gains a duplicate |
| Tickets.SweepNotices | tickets/tickets.py:210-251 | A channel already in `valid` is never warned or closed. Every notice comes from a visited ticket that is unanswered, reachable and untyped, with the age the notice requires and the right reason |
| Tickets.SweepAllConcat | tickets/tickets.py:205-209 | Sweeping two runs of tickets is the same as sweeping the first, then the second |
| Tickets.SweepExtends | tickets/tickets.py:196-204 | A guild's sweep only appends to the notices before it |
| Tickets.GuildSweepOff | tickets/tickets.py:199-201 | A guild with auto-close off (`inactive` is 0) is left alone |
| Tickets.TicketsCog.constructor | tickets/tickets.py:196 | `valid` starts empty |
| Tickets.TicketsCog.VisitTicket | tickets/tickets.py:210-251 | One ticket: `valid` and the notices become one `Step` of the sweep |
| Tickets.TicketsCog.VisitMember | tickets/tickets.py:209-251 | One member's ticket loop is the sweep over that member's visits |
| Tickets.TicketsCog.AutoCloseGuild | tickets/tickets.py:199-251 | Auto-close off or nothing open: nothing happens. Otherwise the nested loops leave `valid` and the notices as the sweep over the visits |
| Tickets.TicketsCog.AutoClose | tickets/tickets.py:196-251 | One pass over all guilds, in order, equal to `SweepGuilds` |
| Tickets.ResolvableKeysIff | tickets/tickets.py:285-288 | A channel is closed exactly when it is one of the member's tickets and still resolves |
| Tickets.OnMemberRemove | tickets/tickets.py:277-296 | No entry for the member, or an empty one, closes nothing. Otherwise exactly the member's resolvable tickets are closed, in order |
| Tickets.FirstTicket | tickets/tickets.py:307-310 | Finds the first (user, ticket) position whose key matches, scanning users then tickets, or reports that none matches |
| Tickets.OnThreadDelete | tickets/tickets.py:306-330 | The nested search with its early return yields `ThreadDeleted`, comparing keys with `str(thread.id)`. A missing panel, an unresolvable log channel, or an error other than `NotFound` while deleting the log message leaves the entry in place |
| Tickets.CountUpdate | tickets/tickets.py:326 | Replacing one user's tickets changes the ticket count by the difference in length |
| Tickets.RemoveTicketEffect | tickets/tickets.py:326 | Deleting one entry lowers the count by one and keeps every user entry |
| Tickets.ThreadDeletedRemovesOne | tickets/tickets.py:306-330 | At most one ticket is removed, and its key matches. Every user keeps an entry. A missing panel, an unresolvable log channel, or a failed log-message delete changes nothing |
| Tickets.AsWrittenNeverRemoves | tickets/tickets.py:309 | With the comparison as written, no ticket is ever removed |
| Tickets.AsWrittenKeepsStaleTicket | tickets/tickets.py:306-330 | For a ticket keyed "42", the handler as written keeps the entry when thread 42 is deleted; the intended comparison removes it |

## Left out

- Discord and Red I/O are not modelled: sending and editing messages, `PanelView` and `LogView`, config reads and writes, event dispatch. They appear as sets of what resolves, or as returned notices.
- Concurrency is not modelled. `save_conf` is split into `BeginSave` and `FinishSave` around its awaited write, and `OverlappingSaves` shows one interleaving. Other interleavings, timers, `asyncio.to_thread` and the process pool are left out.
- Code outside the shown files is not part of this model: `request_embedding`, `can_call_llm`, `get_chat_response`, `json_schema_invalid`, `TUTOR_SCHEMA`, `close_ticket`, `ticket_owner_hastyped` and `prune_invalid_tickets`. Each is a parameter, except `prune_invalid_tickets`: `auto_close` calls it on each guild before the sweep, and the model takes `opened` as it stands after that prune. The chat loop itself is not modelled.
- Assistant.AssistantCog.AddEmbedding: does not model the `NoAPIKey` that `request_embedding` can raise, because that call is a parameter here. The model never raises from this method, and neither does `KnowledgeStore` through it.
- The settings models file is not part of this model. `GuildSettings` keeps only the fields the modelled code touches. `get_conf` is taken to return the stored settings and to insert defaults for an unknown guild.
- Registry.ReconcileRegistry: models the intended pruning. In the source, `registry.copy()` is shallow, so the inner loop deletes from the very bucket it is iterating, which Python refuses at the next step.
- Logging, the timing measurements, the `PRICES`, `SUPPORTS_SEED`, `SUPPORTS_VISION` and prompt-text constants, and translation are not modelled. Translation `_()` is taken as the identity.
- Tickets.TicketsCog.AutoCloseGuild: uses one `now` for the whole sweep. The source reads the clock again for each ticket.
- Floating point is not modelled: elapsed hours and the 0.33 margin are exact reals.
- The log-view refresh in `initialize` (the opened-tickets loop after the panels) is left out, as is the exception handling around the view starts.
- TicketPanels.Initialize: does not model an error from `fetch_message` other than `NotFound` or `Forbidden`. Such an error escapes the panel loop and ends the pass over all remaining guilds. The model treats every panel whose message does not resolve as skipped.
- The `not member` and `not thread` guards are left out: the model always receives a member and a thread.
- Dictionary keys are taken to be decimal renderings of ids, so `int(uid)` and `int(channel_id)` cannot fail.

## Findings

| source | as written | input that shows it | evidently intended | confidence | as-written member | corrected member |
|---|---|---|---|---|---|---|
| tickets/tickets.py:309 | `channel_id != thread.id` compares the stored key, a string, with the thread id, an integer. In Python they are never equal, so every entry is skipped | `opened = {"1": {"42": ticket}}` and the deletion of thread 42: the entry stays in the config | Compare with `str(thread.id)`, delete the first matching entry and stop | high: keys are stored as strings, and the same file renders and parses them with `str()` and `int()`; not executed | Tickets.AsWrittenKeepsStaleTicket | Tickets.OnThreadDelete |
