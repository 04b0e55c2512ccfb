# Session chat pipeline: a Dafny model

The project models the session chat pipeline of `src/mwps`: the discovery cache, the
selection of tools and the registry behind them, the chat loop, the context builder, the
session stores, the message transcript, and the turn that joins them. The database server's
session commands, which share the Redis hash layout, are modelled beside the stores.

`dafny verify dfyconfig.toml` checks everything.

## Layout

| file | content |
|---|---|
| Values, Text, Sorting | options and filters, `str.strip` and string order, the stable sort |
| CommandIds, SafeName | command ids split at the last dot; model-safe names |
| ToolList | policy and session filters, ordering, dedupe by name, `ToolCallRegistry` |
| Discovery, DiscoveryFields, DiscoveryBlocks, DiscoveryRuns | the refresh of the cache in place; what it takes from each field and when it fails; the blocks one refresh leaves; sequences of refreshes |
| ChatFlow, ChatRuns, ChatAnswers | the chat loop; history grammar, bounds, exceptions, routing; what every entry and tool message says |
| Context, ContextLaws, ContextParts, Conservation | trimming, last n, relevance slot, `build`; their laws; the parts of a build from the inputs; what two reads of the store lose or repeat |
| Sessions, SessionStores, StoreLaws, SessionFields | session entity, the two stores, the database server's commands; refinement; field by field meaning |
| Json | the JSON text of lists of strings, read back without loss |
| SessionCommands, CommandRuns | add and remove of session commands; runs of them over either store |
| Transcript | message records written and read back |
| SessionTurn, TurnRequests, TurnLaws, ShownTools, TranscriptLaws | one session turn; its first request; routing, filters, bare names, context and exceptions; the tools shown and what calls of them do; the transcript over turns |

Code that changes state is modelled by classes and methods (`ToolCallRegistry`,
`CommandDiscovery`, `ProxyClient`, the stores, `MessageStreamWriter`, `RedisMessageStore`) and by
methods with loops. Each is tied by its `ensures` to a function on values, and the laws are lemmas
about those functions.

## Modelling assumptions

- The provider, the proxy, the server listing, uuids and clock readings are arbitrary values, given
  as functions or parameters, so every law holds for all of their answers and failures.
- Redis is a map from keys to hashes. A scan yields each matching key once, in any order; key
  prefixes hold no glob characters. Session and message hashes are kept apart, as under the default
  prefixes. Clients decode responses where the session store reads them.
- The store laws take any codec for lists of strings that is lossless. `Json.ListCodecIsLossless` shows
  that the text `json.dumps` writes (arrays and strings, sections 5 and 7 of RFC 8259) gives such a codec.
- Message contents and tool names are strings; "function" of a tool call is an object, missing or null.
- Relevance scores are reals, and the word-set function of a text is arbitrary.
- White space is what `str.isspace` accepts; `Text.WhiteSpaceIs` lists the 29 code points.
- `list.sort` is the stable sort; `Sorting.StableSortIsUnique` shows that this determines its result.

## Where the code departs from its own description

- Config-forbidden commands are said to be always excluded
  (src/mwps/commands_policy_config.py:45); a discovered vectorization id is listed all the same:
  `ForbiddenByConfigYetReachable`.
- Adding a command to a session with an empty allow-list revokes every other command, and removing
  the only allowed command lets in all that is not forbidden: `AddKeepsTheRestIff`,
  `RemoveDropsOnlyThatIdIff`.
- Both commands take a command name for an id (src/mwps/commands/add_command_to_session_command.py:49).
  Every discovered id has a dot, so a bare name changes nothing in a turn, unless it toggles the
  session's allow-list: the first bare name added leaves only vectorization commands within reach,
  and removing the only one lets in all that is not forbidden: `BareNamesChangeNothing`,
  `BareNameTogglesReach`.
- The help tool is appended to the tools of a turn without a look at their names
  (src/mwps/commands/mwps_chat_command.py:360). A server's command called help is then shown a second
  time under that name (`ShownToolsResolve`, `HelpCommandIsShownTwice`) and never runs under it
  (`ListedCommandRunsIff`, `HelpCommandNeverRuns`).
- A provider failure whose text is empty is treated as a reply and persisted:
  `ProviderFailureIsReportedIff`.
- A tool call with a null "function" ends the flow as a provider error before the entry is appended,
  although the tool loop allows for it; from the caller's messages it escapes as an exception, and
  so do arguments that are not an object in any round that is reached: `EscapesIff`.
  A provider that only sends objects leaves the first case alone: `EscapesOnlyOnNullFunctions`.
- Server ids with dots: ids do not split back (`ParseAfterMake`), and the suffix test of the refresh
  mixes servers up, exactly when an id ends in a dot and a listed id (`ForeignEntryStaysIff`).
- Session ids created with outer white space separate the two session stores, except over a stored
  session of the same content, and so does an explicit null over a set `minimize_context`:
  `CreatedIsFoundIffRegular`, `UpdateAgreesIffRegular`. The database server's
  update differs from the store's on explicit nulls and unstripped models: `UpdatesAgreeIff`.
- `session_create` accepts a blank id, and the session store then refuses to read the session:
  `StoreReadsWhatServerCreates`.
- The builder and the relevance builder read the messages separately. When messages of one creation
  time lie on both sides of the cut, the two reads can order them differently, and a message is then
  lost or repeated; a negative number of last messages repeats messages: `ConservedByAllScansIff`.
- A window that is not positive, possible only with reserves that add up to less than nothing,
  lifts the token limit: `BuildStaysWithinLimitIff`; `NegativeWindowBuilds` is such a case.

## Model

| member | source | states |
|---|---|---|
| Text.StripFixed | src/mwps/tool_call_registry.py:31-33 | stripping is idempotent and fixes exactly the strings without outer white space |
| Text.PaddingIsStripped | src/mwps/tool_call_registry.py:31-33 | white space around a text goes, printable ASCII at its ends stays |
| Text.AtMostByFirstDifference | src/mwps/message_store.py:61 | after a common part the smaller character, or the end of the text, comes first |
| Sorting.SortByIsStableSort | src/mwps/message_store.py:61 | the sort orders the list, keeps its multiset and keeps ties in order |
| Sorting.StableSortIsUnique | src/mwps/relevance_slot_builder.py:104 | sorted with ties in order holds of exactly one list |
| CommandIds.LastDot | src/mwps/command_discovery.py:38 | the last dot, -1 exactly when there is none |
| CommandIds.MakeAfterParse | src/mwps/command_discovery.py:31-41 | rebuilding a split id gives it back iff it has a dot |
| CommandIds.ParseAfterMake | src/mwps/command_discovery.py:31-41 | splitting a built id gives its parts back iff the server id has no dot |
| CommandIds.MakeIsInjective | src/mwps/command_discovery.py:31-33 | ids of dot-free servers collide only when equal |
| CommandIds.SuffixTestIsServerTest | src/mwps/command_discovery.py:133-143 | for a dot-free server the suffix test is equality of the parsed server |
| CommandIds.SuffixTestOnBuiltId | src/mwps/command_discovery.py:133-143 | for a dot-free server an id built for another one passes the suffix test iff that one's id ends in a dot and the server |
| SafeName.PipelineIsOnePass | src/mwps/safe_name_translator.py:25-32 | the five passes equal one left-to-right pass, on every string |
| SafeName.SafeNamesAreTheFixedPoints | src/mwps/safe_name_translator.py:14-32 | results are alphanumeric chunks joined by single underscores; exactly these are unchanged; idempotent |
| SafeName.GapsBecomeUnderscores | src/mwps/safe_name_translator.py:25-32 | what lies between two letters or digits becomes one underscore iff it holds a dot, space, dash or underscore, and vanishes otherwise |
| SafeName.EndsAreDropped | src/mwps/safe_name_translator.py:25-32 | what surrounds the first and last letter or digit is dropped; a run of letters and digits stays |
| ToolList.PermittedMembers | src/mwps/effective_tool_list_builder.py:50-64 | an id survives both filters iff it is available and config policy and session lists let it through |
| ToolList.ToolCallRegistry.Register | src/mwps/tool_call_registry.py:24-33 | a blank name is refused without effect, any other is bound under its stripped form |
| ToolList.DedupeByName | src/mwps/effective_tool_list_builder.py:85-93 | the loop keeps the first id of each command name |
| ToolList.AppendVectorization | src/mwps/effective_tool_list_builder.py:74-83 | the loop appends the available, unforbidden, not yet listed vectorization ids |
| ToolList.RegisterAll | src/mwps/effective_tool_list_builder.py:95-105 | the loop fills list and registry in order, or raises iff some name is blank |
| ToolList.Build | src/mwps/effective_tool_list_builder.py:32-105 | list and registry of the kept ids, each with its schema; raises iff some name is blank |
| ToolList.EffectiveIdsAreTheReachable | src/mwps/effective_tool_list_builder.py:50-83 | the final order holds exactly the available, session-unforbidden ids that pass both filters or are vectorization ids |
| ToolList.ForbiddenByConfigYetReachable | src/mwps/effective_tool_list_builder.py:74-83 | a config-forbidden id is listed iff it is a discovered, session-unforbidden vectorization id |
| ToolList.FirstPerNameKeepsFirsts | src/mwps/effective_tool_list_builder.py:85-93 | deduplication repeats no name, loses none and keeps the first id of each |
| ToolList.AgreementCondition | src/mwps/effective_tool_list_builder.py:95-103 | every listed tool resolves to its own command iff no two listed names differ only in outer white space |
| ToolList.ToolListAndRegistryAgree | src/mwps/effective_tool_list_builder.py:47-105 | for clean names: distinct listed names, exactly the names of the reachable ids, the same registry domain, each resolving to its first id |
| Discovery.FirstText | src/mwps/command_discovery.py:102-105 | the chosen text is stripped |
| Discovery.ParseCommand | src/mwps/command_discovery.py:146-166 | a parsed command has a stripped non-empty name and the id built from it |
| DiscoveryFields.ParseIff | src/mwps/command_discovery.py:146-166 | a command is parsed iff it has a non-blank name and a description that is text, from their first or second fields, and when it raises |
| DiscoveryFields.DictIsTakenOver | src/mwps/command_discovery.py:44-58 | every usable item of the dictionary, once and in order, with its own summary and parameters; raises iff some summary is not text |
| DiscoveryFields.ContributesIff | src/mwps/command_discovery.py:102-106 | a row counts for a server iff its first id field, or else its second, names it and it has a URL in either field |
| DiscoveryFields.RefreshRaisesIff | src/mwps/command_discovery.py:89-118 | a refresh raises iff the listing does, other than by the proxy's error, or some row has an odd id or URL, a failing fetch or an odd dictionary |
| DiscoveryFields.MarkedDownIff | src/mwps/command_discovery.py:124-143 | the servers marked unavailable: rows before the first failing one with a raising command, or with none and an old entry |
| DiscoveryFields.SchemaDescribesCommand | src/mwps/command_discovery.py:146-166 | the schema behind a listed id has the name, description and parameters of a command of a listed row, and the id is that name on that server |
| DiscoveryFields.SchemaIsLatest | src/mwps/effective_tool_list_builder.py:47-56 | of entries with one id the latest gives the schema |
| Discovery.CommandsDictToList | src/mwps/command_discovery.py:44-58 | the conversion loop, or the exception of a summary that is not text |
| Discovery.CommandDiscovery.Refresh | src/mwps/command_discovery.py:84-144 | the new cache, the servers marked unavailable, and when an exception leaves both as they were |
| Discovery.CommandDiscovery.RebuildCache | src/mwps/command_discovery.py:97-144 | the loop over the rows grows the new cache in place, or stops at an exception outside the guarded part |
| Discovery.CommandDiscovery.AddServer | src/mwps/command_discovery.py:99-143 | the new cache with the row's entries appended, unchanged for a row without id or URL, or an exception outside the guarded part |
| Discovery.CommandDiscovery.AddCommands | src/mwps/command_discovery.py:118-143 | the guarded part: start length, rewrite of the tail after an exception, stale entries, and the length test |
| Discovery.CommandDiscovery.ParseInto | src/mwps/command_discovery.py:119-123 | the new cache with the entries parsed before the first raising command |
| Discovery.CommandDiscovery.MarkUnavailable | src/mwps/command_discovery.py:131-134 | from the start index on, the server's entries are rewritten as unavailable; earlier ones stay |
| Discovery.CommandDiscovery.AppendStale | src/mwps/command_discovery.py:135-141 | the old entries of the server appended as unavailable |
| DiscoveryBlocks.RefreshIsBlocks | src/mwps/command_discovery.py:97-144 | the cache is, row by row, what was parsed in order before the first exception, available iff there was none, and after an exception or without commands the old entries that pass the suffix test, in order, unavailable |
| DiscoveryBlocks.BlockShape | src/mwps/command_discovery.py:117-143 | a block is uniformly available or not, lies on its server, and is empty iff nothing was parsed or cached |
| DiscoveryBlocks.BlocksInListingOrder | src/mwps/command_discovery.py:97-144 | the cache of a listing is the cache of its first part followed by that of the rest, or none when either is abandoned |
| DiscoveryBlocks.BlockEntryOrigin | src/mwps/command_discovery.py:119-141 | every entry of a block was parsed from its row or is an old entry made unavailable |
| DiscoveryRuns.IneffectiveKeepsCache | src/mwps/command_discovery.py:89-96 | a failed, empty or abandoned refresh leaves the cache unchanged |
| DiscoveryBlocks.ListedServerKeepsEntries | src/mwps/command_discovery.py:118-144 | a listed server that had or yields an entry has one afterwards |
| DiscoveryBlocks.WhoHasEntries | src/mwps/command_discovery.py:99-144 | with dot-free ids a server has entries after a refresh iff it is listed with a URL and yields or had one |
| DiscoveryBlocks.OldEntryStaysIff | src/mwps/command_discovery.py:131-143 | an old entry stays, as unavailable, iff some listed server passes its suffix test and delivers no usable commands |
| DiscoveryBlocks.ForeignEntryStaysIff | src/mwps/command_discovery.py:131-143 | with dot-free listed ids, an unlisted server's entry stays iff its id ends in a dot and a listed id that delivers nothing |
| DiscoveryRuns.EntriesPersist | src/mwps/command_discovery.py:97-144 | over any sequence of refreshes a server keeps an entry while every effective one lists it |
| DiscoveryRuns.AvailableIsFresh | src/mwps/command_discovery.py:97-144 | what is available was parsed in the latest effective refresh |
| DiscoveryRuns.CachedIdsSplitCleanly | src/mwps/command_discovery.py:146-166 | with dot-free ids every cached id splits into its stripped command name and a listed server |
| ChatFlow.RunSessionTool | src/mwps/chat_flow.py:219-254 | registry lookup, one proxy call without copy_number, and the content for every outcome |
| ChatFlow.RunHelpForModel | src/mwps/chat_flow.py:190-216 | help by command name through the registry, and the content for every outcome |
| ChatFlow.RunTool | src/mwps/chat_flow.py:47-106 | the three direct tools of a flow without registry |
| ChatFlow.RunToolCalls | src/mwps/chat_flow.py:507-561 | the inner loop: messages and proxy calls of one round |
| ChatFlow.RunChatFlow | src/mwps/chat_flow.py:257-570 | result, proxy calls and number of provider requests of the bounded loop, on every exit |
| ChatRuns.OneAnswerPerCall | src/mwps/chat_flow.py:507-561 | one tool message per tool call, in order, under its name |
| ChatRuns.HistoryGrammar | src/mwps/chat_flow.py:301-570 | every returned history is the caller's messages and complete rounds, one per request; the message is the final entry's content or, with all rounds used, the last content |
| ChatAnswers.CallTells | src/mwps/chat_flow.py:47-254 | what a tool message says for every tool, argument and proxy outcome, and the one proxy call behind it |
| ChatAnswers.RunIsPlayed | src/mwps/chat_flow.py:319-570 | every run, however it ends: each entry is the provider's reply to the history so far, each tool message the formatted answer to its own call or the error that applies, and the result follows from the last answer |
| ChatRuns.AskedAtMost | src/mwps/chat_flow.py:319-463 | the provider is asked at most the allowed number of times, on every exit |
| ChatRuns.EscapesIff | src/mwps/chat_flow.py:319-505 | an exception escapes iff a round is played on caller messages with a null function, or some reached round gets a reply without one and with arguments that are not an object |
| ChatRuns.RunCallRoutes | src/mwps/chat_flow.py:518-560 | one tool call makes at most one proxy call, and earlier calls stay recorded |
| ChatRuns.EveryCallIsRouted | src/mwps/chat_flow.py:507-561 | every proxy call of every run targets a registered pair; without a registry it lists servers or names a stripped, non-empty server (and command) |
| Context.TrimToTokenLimit | src/mwps/context_builder.py:43-65 | the loop computes the trim of the list for any rate of characters per token, or the ZeroDivisionError |
| Context.TrimIsOptimal | src/mwps/context_builder.py:43-65 | for a positive limit the trim is the one longest fitting suffix; idempotent; monotone in the limit; a non-positive limit trims nothing |
| Context.GatherCandidates | src/mwps/relevance_slot_builder.py:54-82 | the non-empty older messages, then the non-empty documentation |
| Context.Build | src/mwps/context_builder.py:101-187 | the parts and the trimmed list, or the error that applies |
| ContextParts.BuildIsBuilt | src/mwps/context_builder.py:101-187 | the file's text and then the session's own standards and rules as system blocks, the last messages, the older ones and documentation by common words, the longest end within the limit; the error when the model is blank or the limit does not cover the reserves |
| ContextParts.SlotIsRelevanceList | src/mwps/relevance_slot_builder.py:54-105 | along the slot the number of query words in a block never increases; equal ones keep their order: older messages, then documentation |
| ContextLaws.BuildStaysWithinLimitIff | src/mwps/context_builder.py:125-186 | a successful build fits its limit iff the model's window is positive, which reserves with a non-negative sum ensure |
| ContextLaws.SerializedIsASuffix | src/mwps/context_builder.py:178-187 | the result is a suffix of standards, rules, last n, relevance |
| ContextLaws.ScoreInUnitInterval | src/mwps/relevance_slot_builder.py:28-36 | scores lie in 0..1, 0 iff no word is shared, 1 iff every query word occurs |
| ContextLaws.SlotIsStablePermutation | src/mwps/relevance_slot_builder.py:84-105 | the slot is the one stable descending sort of the candidates; a query without words keeps their order |
| ContextLaws.ConservesIff | src/mwps/context_builder.py:129-148 | for two reads of the same messages, last n, slot and empty-bodied older messages make up messages and documentation iff both have the same blocks before the cut, or a negative n passes the whole list |
| ContextLaws.TwoOrdersLoseAMessage | src/mwps/relevance_slot_builder.py:54-82 | two messages read in two orders are not conserved |
| Conservation.SameTimes | src/mwps/message_store.py:61-62 | any two sorted reads hold the same creation time at each position |
| Conservation.ConservedByAllScansIff | src/mwps/relevance_slot_builder.py:54-82 | the context conserves the messages for all pairs of scan orders iff no two messages with different blocks tie across the cut |
| TurnLaws.TurnContextConservesIff | src/mwps/commands/mwps_chat_command.py:281-331 | the built context of a turn conserves its session's messages whatever the two scans, iff no two messages with different blocks tie across the cut |
| SessionFields.CreatedIsReadBack | src/mwps/session_entity.py:37-65 | in either store a created session reads back with every given attribute in its own field; a blank id is refused |
| SessionFields.CreationTouchesNoOther | src/mwps/session_store.py:189-214 | creating a session leaves every other one as it was |
| SessionFields.UpdatedIsReadBack | src/mwps/session_store.py:111-142 | in either store an updated session reads back with the given fields replaced and the others kept; an unknown one is refused |
| SessionFields.UpdateTouchesNoOther | src/mwps/session_store.py:216-263 | updating a session leaves every other one as it was |
| SessionFields.FlagIsSetIff | src/mwps/session_store.py:54-59 | a stored flag is set iff it is 1, true or yes in any case and with any outer white space |
| SessionStores.InMemorySessionStore.Create | src/mwps/session_store.py:96-109 | the session under its own id, or the error for a blank id |
| SessionStores.InMemorySessionStore.Update | src/mwps/session_store.py:111-142 | the patched session under the stripped id, or KeyError without effect |
| SessionStores.RedisSessionStore.constructor | src/mwps/session_store.py:153-159 | the prefix is stripped and not empty, the given one if that is so already |
| SessionStores.RedisSessionStore.Create | src/mwps/session_store.py:189-214 | the seven hash fields written under the session's key |
| SessionStores.RedisSessionStore.Update | src/mwps/session_store.py:216-263 | decoded, patched and written back, or the error that applies |
| SessionStores.DatabaseServer.SessionCreate | src/database_server/commands/session_create_command.py:99-141 | the hash written and the session presented |
| SessionStores.DatabaseServer.SessionGet | src/database_server/commands/session_get_command.py:94-125 | the same reading of the hash as the session store's |
| SessionStores.DatabaseServer.SessionUpdate | src/database_server/commands/session_update_command.py:121-187 | the merged hash and the session presented, or the error that applies |
| SessionStores.DatabaseServer.MergeInto | src/database_server/commands/session_update_command.py:145-163 | every provided field overwrites its variable, an explicit null included |
| SessionFields.ServerCreatedIsReadBack | src/database_server/commands/session_create_command.py:108-141 | what session_create answers, and the session store then reads, has every given attribute in its own field, texts stripped |
| SessionFields.ServerUpdatedIsReadBack | src/database_server/commands/session_update_command.py:129-187 | what session_update answers, and the session store then reads: provided fields replaced, nulls as empty values, the others kept |
| Json.BodyRoundTrip | src/mwps/session_store.py:204-207 | reading a written string gives it back, with every escape and surrogate pair, and stops at its closing quote |
| Json.ListCodecIsLossless | src/mwps/session_store.py:40-51 | reading a written list of strings gives it back, for every list |
| Json.ListText | src/mwps/session_store.py:204-207 | the text of a list: quoted and escaped strings with comma and space between, in brackets |
| Json.CharacterText | src/mwps/session_store.py:204-207 | the escape of every character: letters for quote, backslash and five controls, UTF-16 units in lower-case hex outside printable ASCII |
| StoreLaws.HashRoundTrip | src/mwps/session_store.py:165-214 | writing a session and reading it back gives it back, empty texts as None |
| StoreLaws.RedisRefinesMemory | src/mwps/session_store.py:85-263 | over any sequence of regular operations both stores give the same answers |
| StoreLaws.EmptyStoresStayAlike | src/mwps/commands/session_init_command.py:46-65 | from two empty stores any regular run is answered alike |
| StoreLaws.UpdateAgreesIffRegular | src/mwps/session_store.py:135-139 | an update is answered alike iff no explicit null meets a set minimize_context |
| StoreLaws.CreatedIsFoundIffRegular | src/mwps/session_store.py:92-109 | a created session is found alike in both stores iff its id is stripped, or the stripped id is already taken by a session of the same content |
| StoreLaws.StoreReadsWhatServerCreates | src/database_server/commands/session_create_command.py:109-141 | the session store reads back the session that session_create returned iff its id is not blank |
| StoreLaws.UpdatesAgreeIff | src/database_server/commands/session_update_command.py:145-172 | session_update and the store's update leave the same database iff the model is stripped and no null clears a set list or flag |
| SessionCommands.AddCommand | src/mwps/commands/add_command_to_session_command.py:81-135 | in either store, the answer for every case, and the session with the id allowed and no longer forbidden |
| SessionCommands.RemoveCommand | src/mwps/commands/remove_command_from_session_command.py:72-102 | in either store, the answer for every case, and the session with the id forbidden and no longer allowed |
| CommandRuns.AdditionAcceptedIff | src/mwps/commands/add_command_to_session_command.py:93-121 | an addition is accepted iff both ids are non-blank, the config does not forbid the id and the session exists; each refusal has its own text and changes nothing |
| CommandRuns.RemovalAcceptedIff | src/mwps/commands/remove_command_from_session_command.py:72-90 | a removal is accepted iff both ids are non-blank and the session exists |
| CommandRuns.ForbiddenIsNeverAllowed | src/mwps/commands/add_command_to_session_command.py:101-113 | what the config forbids at every addition and was not allowed is never allowed, in either store, after any run on any sessions |
| SessionCommands.LastChangeDecides | src/mwps/commands/add_command_to_session_command.py:122-132 | over any sequence the last command on an id decides its lists |
| SessionCommands.ListsStayDisjoint | src/mwps/commands/remove_command_from_session_command.py:91-99 | disjoint lists stay disjoint and nothing else in the session changes |
| SessionCommands.ListsAfterChanges | src/mwps/commands/remove_command_from_session_command.py:91-99 | over any sequence the allow-list repeats no id, and the forbidden list holds an id once for each removal since its last addition |
| SessionCommands.WhatAddPermits | src/mwps/commands/add_command_to_session_command.py:122-125 | what the session permits after an addition, exactly |
| SessionCommands.WhatRemovePermits | src/mwps/commands/remove_command_from_session_command.py:91-92 | what the session permits after a removal, exactly |
| SessionCommands.RemoveDropsOnlyThatIdIff | src/mwps/effective_tool_list_builder.py:57-64 | a removal drops just its id iff it does not empty a non-empty allow-list |
| SessionCommands.AddKeepsTheRestIff | src/mwps/effective_tool_list_builder.py:57-64 | an addition keeps the rest iff the allow-list was not empty |
| SessionCommands.ReachableAfterRemove | src/mwps/effective_tool_list_builder.py:50-83 | the reachable ids after a removal, filters and vectorization included |
| SessionCommands.ReachableAfterAdd | src/mwps/effective_tool_list_builder.py:50-83 | the reachable ids after an addition, filters and vectorization included |
| CommandRuns.CommandsAgreeOverStores | src/mwps/commands/add_command_to_session_command.py:114-135 | mirrored stores answer any run of the two commands alike and stay mirrored |
| CommandRuns.SessionAfterCommands | src/mwps/commands/add_command_to_session_command.py:114-135 | in either store, after any run on any sessions, a session reads back with its own accepted changes applied in order |
| Transcript.MessageStreamWriter.Write | src/mwps/message_stream_writer.py:39-60 | the record's hash under its key, or nothing when Redis raises |
| Transcript.RedisMessageStore.GetMessages | src/mwps/message_store.py:42-62 | the scan loop and sort over the session's records |
| Transcript.EarlierIsReadFirst | src/mwps/message_store.py:61-62 | of two records of a session the one with the earlier time is read first |
| Transcript.MessagePrefixIs | src/mwps/message_store.py:37-40 | the given prefix, or message, without outer white space and trailing colons |
| Transcript.ReadIsSortedPermutation | src/mwps/message_store.py:42-62 | a read returns each record of the session once and no other, by creation time, ties in scan order |
| Transcript.FreshRecordJoins | src/mwps/message_stream_writer.py:39-53 | a record with a fresh uuid joins its own session and changes no other |
| SessionTurn.BuildHistory | src/mwps/commands/mwps_chat_command.py:281-331 | trimmed context or all stored messages, then the user's message |
| TurnRequests.RequestOfTurn | src/mwps/commands/mwps_chat_command.py:267-331 | the first request, from session, config and stored messages: the trimmed context of the first non-empty model, or all stored messages; then the user's message |
| TurnRequests.LastAreLatest | src/mwps/context_builder.py:129-134 | no message before the last ones has a later time than one of them |
| SessionTurn.BuildTools | src/mwps/commands/mwps_chat_command.py:337-369 | names and registry of a fresh discovery with the help tool last; the help tool alone and an empty registry when discovery or builder raises |
| SessionTurn.ExecuteSessionMode | src/mwps/commands/mwps_chat_command.py:240-452 | session lookup in either store, then database, answer, the tool names handed to the provider and the proxy calls of one turn |
| TurnLaws.EveryCallIsPermitted | src/mwps/chat_flow.py:507-561 | every proxy call of a turn targets an id parsed from its listing, not session-forbidden, and passing both filters or a vectorization id |
| TurnLaws.CallsObeyFilters | src/mwps/effective_tool_list_builder.py:50-83 | no call of a turn, for help or to run a command, is on the session's or the config's forbidden list, or off an allow-list, other than a vectorization command the session does not forbid |
| TurnLaws.CreatedListsAreObeyed | src/mwps/session_entity.py:55-65 | a turn never calls what its session was created to forbid, and with an allow-list only what is on it or a vectorization command |
| TurnLaws.CallsGoToListedServers | src/mwps/chat_flow.py:231-238 | with dot-free ids every call goes to a server of the turn's listing |
| TurnLaws.RemovedCommandIsNeverCalled | src/mwps/commands/remove_command_from_session_command.py:22-25 | in either store, a command whose id was last removed from the session is never called |
| TurnLaws.BareNamesChangeNothing | src/mwps/commands/remove_command_from_session_command.py:72-102 | changes of bare command names leave tools, chat and outcome of a turn alone, over any run that does not toggle the allow-list |
| TurnLaws.BareNameTogglesReach | src/mwps/effective_tool_list_builder.py:57-83 | the reachable ids, exactly, when a bare name is the first one added or the only one removed |
| TurnLaws.TurnRaisesIff | src/mwps/chat_flow.py:488-505 | a turn of a known session raises, and then stores nothing, iff some reached round gets a reply with proper functions and arguments that are not an object |
| ShownTools.ShownToolsResolve | src/mwps/commands/mwps_chat_command.py:352-369 | with dot-free ids the registry agrees with the listed commands; the shown names are distinct iff no command is called help, which is so iff discovery fails or no reachable id has that name |
| ShownTools.CommandIsShownIff | src/mwps/effective_tool_list_builder.py:50-103 | a command name is shown iff an available entry of that name is let through |
| ShownTools.HelpCommandIsShownTwice | src/mwps/commands/mwps_chat_command.py:360 | one server with a permitted command called help makes the name appear twice |
| ShownTools.NamePriorityInTurn | src/mwps/effective_tool_list_builder.py:66-105 | with dot-free ids a name resolves to the preferred server's command when that passes both filters, else the one discovered first among those that do, else a reachable vectorization command, else nothing |
| ShownTools.ForwardedIffShown | src/mwps/chat_flow.py:518-545 | any tool call reaches the proxy iff a listed command has the name it seeks, its own or the one help asks about; the one call is that command, or help on it |
| ShownTools.ListedCommandRunsIff | src/mwps/chat_flow.py:521-545 | called by its listed name a command runs, on its server with the model's arguments, iff it is not called help |
| ShownTools.HelpCommandNeverRuns | src/mwps/chat_flow.py:521-527 | a listed command named help never runs in a whole turn while the model pads no tool name with white space |
| TurnLaws.FirstRequest | src/mwps/commands/mwps_chat_command.py:298-331 | the first request ends with the user's message; before it stands the trimmed context iff a model is set and the limit covers the reserves, else every stored message |
| TranscriptLaws.TurnAddsItsRecords | src/mwps/commands/mwps_chat_command.py:392-442 | the answer tells the database: both records when it replied, the user's alone after one write, none otherwise, and nothing else changes |
| TranscriptLaws.ProviderFailureIsReportedIff | src/mwps/commands/mwps_chat_command.py:392-442 | a provider failure is reported and stores nothing iff its text is not empty; an empty one is stored as far as the writes succeed |
| TranscriptLaws.ReplyIsAnswered | src/mwps/commands/mwps_chat_command.py:403-442 | a reply is answered once both records are stored; they show as the user's content and the reply, under the turn's session and time |
| TranscriptLaws.TranscriptOverTurns | src/mwps/commands/mwps_chat_command.py:403-442 | over any sequence of turns and for any scans, a reader gets its session's old records and the records its own turns stored, each once and no other |
| TranscriptLaws.TranscriptInTurnOrder | src/mwps/message_store.py:42-62 | over any sequence of turns with advancing times a reader gets the past messages, then what each turn of its session stored, turn by turn |
| TranscriptLaws.LatestExchangeIsLast | src/mwps/message_store.py:61-62 | after a successful turn with a later timestamp, the user's content and the reply are read last |

## Left out

- Network and foreign calls: the proxy client's and provider client's transport, and the HTTP fetch of a server's commands. Their outcomes are parameters.
- Config loading, generators, validators and command-line tools, adapter registration, JSON schemas, logging, token counters and timeouts.
- `run_tool_like_model`, the mode of `mwps_chat` without a session, and the provider configuration checks before the loop (src/mwps/chat_flow.py:277-286), which raise before any effect.
- Closing of the proxy client; the two error exits do not do it.
- The order of the two records of one turn: both carry one timestamp, so the scan decides.
- `serialize_messages` and `serialize_tools`: on the role and content dictionaries of the builder the first is a copy; the second adds description and parameters to the names that are modelled.
- `CommandAliasRegistry`, which the builder accepts and ignores, and `CallStack`, `ModelCallDepthGuard` and `ModelCallingToolAllowList`, which no modelled flow calls.
- Message contents that are lists of parts: the trim is proved for any character count of a message.
- JSON text that the writer never produces: the modelled reader refuses it, where `json.loads` reads more.
- Redis errors other than those of the two message writes of a turn.
