# opencode-web, modelled in Dafny

This project models the logic core of opencode-web, a browser front end for
opencode instances, and the small broker process that keeps track of them.
The Dafny files describe what the following parts of the system do and prove
properties of that behaviour:

- **The broker's instance registry.** This is a table of
  `{cwd, port, host, status, lastSeen}` records.
  - The process-facing routes update it in place: `/register`, `/ping` and
    `/deregister`.
  - The client-facing routes sweep it for stale entries before they answer
    `GET /instances`.
  - `POST /instance` starts an instance and `DELETE /instance` stops one.
    Both poll the table with `waitFor` until it shows the change or the
    wait times out.
  - The single-file broker (`broker.js`) has the same table and handlers,
    its own staleness constant and a check of its port argument.
- **The web client's list and cache algorithms.**
  - The side-by-side diff view. It builds rows from the hunk lines and
    groups them into blocks for the narrow layout.
  - The per-session message cache that the event stream keeps up to date.
  - The session and event helpers.
  - The recent-projects, client and last-session stores.
  - The merge and ordering of broker instances with recent projects, in the
    instance switcher and in the project list.
  - The client manager's reconciliation of the URL's `cwd` with the online
    instances and the client store.
  - The helpers of the message view: path stripping, diagnostics and the
    tool-part view.
  - The project name derived from the server's root path.
  - The time-ordered ID generator.

The model runs nothing. Clocks are replaced by explicit parameters (`now`,
`currentTimestamp`), and so is anything the code gets from outside: the
registry as seen at each poll, the parsed patch, and the random suffix of
an ID. Where the code updates state in place, the model does too. This
covers the registry table, the message cache, the stores and the ID
generator's counters. Each such method is proved to perform exactly the
update that a pure function describes, and the properties are proved about
those functions.

Modules:

| file | module | models |
|---|---|---|
| `registry.dfy` | `InstanceRegistry` | the broker's table and its route handlers |
| `broker_routes.dfy` | `BrokerRoutes` | `waitFor`, `POST /instance`, `DELETE /instance` |
| `standalone_broker.dfy` | `StandaloneBroker` | `broker.js`: its handlers and the start-up port check |
| `content_diff.dfy` | `ContentDiff` | diff rows and mobile blocks (both copies of the component) |
| `message_events.dfy` | `MessageEvents` | `message.updated` / `message.part.updated` handlers (both copies) |
| `session_utils.dfy`, `opencode_types.dfy` | `SessionUtils`, `OpencodeTypes` | the helpers of `lib/utils.ts` and the data they read |
| `stores.dfy` | `RecentProjects`, `ClientStore`, `LastSession` | the three stores |
| `instance_switcher.dfy` | `InstanceSwitcher` | the switcher's instance list, selection and label |
| `instance_lists.dfy` | `InstanceLists` | the "Available Projects" merge and sort |
| `client_manager.dfy` | `ClientManager` | the client manager's derived cwd and its effects |
| `tool_messages.dfy` | `ToolMessages` | `ToolPart`, `stripWorkingDirectory`, `getDiagnostics` (both copies) |
| `app_info.dfy`, `path_names.dfy` | `AppInfo`, `PathNames` | the project name of the app-info query; path splitting |
| `generate_id.dfy` | `GenerateId` | `generateNewID` |
| `ordered_maps.dfy`, `stable_sort.dfy`, `wrappers.dfy` | `OrderedMaps`, `StableSort`, `Wrappers`, `Js`, `Seqs` | a JavaScript `Map` (insertion-ordered), the stable `Array.prototype.sort`, JavaScript truthiness, sequence helpers |

## Model

| member | source | states |
|---|---|---|
| InstanceRegistry.Registered | apps/cli/src/broker/routes/proc-routes.ts:16-29 | registering a known cwd keeps the length; an unknown cwd appends exactly one online entry with the loopback host and `lastSeen = now` |
| InstanceRegistry.Pinged | apps/cli/src/broker/routes/proc-routes.ts:40-41 | a heartbeat never changes the table's length |
| InstanceRegistry.Deregistered | apps/cli/src/broker/routes/proc-routes.ts:48-49 | deregistering never removes an entry |
| InstanceRegistry.Swept | apps/cli/src/broker/routes/public-routes.ts:17-24 | the sweep keeps the length and maps each entry to itself, or to itself marked offline when it is stale |
| InstanceRegistry.RegisterKnownCwd | apps/cli/src/broker/routes/proc-routes.ts:16-20 | for a known cwd only that entry changes: new port, status online, `lastSeen = now`; host and position are kept |
| InstanceRegistry.RegisterKeepsUnique | apps/cli/src/broker/routes/proc-routes.ts:16-29 | registering keeps at most one entry per cwd |
| InstanceRegistry.PingUnmatchedIsNoOp | apps/cli/src/broker/routes/proc-routes.ts:40-42 | a heartbeat whose (cwd, port) matches no entry changes nothing |
| InstanceRegistry.PingOnlyRefreshesLastSeen | apps/cli/src/broker/routes/proc-routes.ts:40-41 | a heartbeat changes only `lastSeen`, only on an entry matching both cwd and port, and sets it to now |
| InstanceRegistry.DeregisterMarksOffline | apps/cli/src/broker/routes/proc-routes.ts:48-50 | the cwd's entry is marked offline and kept; every other entry is unchanged |
| InstanceRegistry.SweepDemotesExactlyStale | apps/cli/src/broker/routes/public-routes.ts:16-24 | after the sweep an entry is offline iff it was offline or had a truthy `lastSeen` more than 30000 ms old; only the status changes |
| InstanceRegistry.SweepNeverPromotesAndIsIdempotent | apps/cli/src/broker/routes/public-routes.ts:18-23 | the sweep never marks an entry online, and sweeping twice at one `now` equals sweeping once |
| InstanceRegistry.SweepSparesUnseen | apps/cli/src/broker/routes/public-routes.ts:20 | an entry without `lastSeen` is never demoted |
| InstanceRegistry.RegisterThenListShowsOnline | apps/cli/src/broker/routes/public-routes.ts:26-29 | after a registration, a listing within the staleness window shows the cwd online with the new port |
| InstanceRegistry.DeregisterThenListShowsOffline | apps/cli/src/broker/routes/public-routes.ts:26-29 | after a deregistration, a listing still has the entry and shows it offline |
| InstanceRegistry.SilentEntryGoesOffline | apps/cli/src/broker/routes/public-routes.ts:20-21 | an entry whose last heartbeat is more than 30000 ms old is listed offline |
| InstanceRegistry.ApplyKeepsEntries | apps/cli/src/broker/routes/proc-routes.ts:9-51 | any one request keeps cwds unique and hosts loopback, removes no entry and keeps each entry's cwd at its position |
| InstanceRegistry.RunKeepsEntries | apps/cli/src/broker/routes/proc-routes.ts:9-51 | the same holds for any sequence of requests, so the table never shrinks |
| InstanceRegistry.Registry.constructor | apps/cli/src/broker/index.ts:22-26 | the shared table starts empty |
| InstanceRegistry.Registry.Register | apps/cli/src/broker/routes/proc-routes.ts:9-31 | 400 with no change when cwd or port is falsy, else 200 with the table upserted |
| InstanceRegistry.Registry.Ping | apps/cli/src/broker/routes/proc-routes.ts:33-43 | 400 with no change when cwd or port is falsy, else 200, matched or not, with the heartbeat applied |
| InstanceRegistry.Registry.Deregister | apps/cli/src/broker/routes/proc-routes.ts:45-51 | 400 with no change when cwd is falsy, else the entry marked offline and the whole table returned |
| InstanceRegistry.Registry.UpdateInstanceStatus | apps/cli/src/broker/routes/public-routes.ts:17-24 | the in-place loop leaves exactly the swept table |
| InstanceRegistry.Registry.ListInstances | apps/cli/src/broker/routes/public-routes.ts:26-29 | the table is swept first; the reply is version "1.0.0", name "opencode-web" and the swept table |
| BrokerRoutes.WaitFor | apps/cli/src/broker/routes/public-routes.ts:32-45 | resolves at the first tick where the condition holds or the elapsed time exceeds the timeout, with the condition's value there; it is pending iff no tick settles |
| BrokerRoutes.SettlesAtUnique | apps/cli/src/broker/routes/public-routes.ts:35-43 | at most one tick settles the wait (polling stops once resolved) |
| BrokerRoutes.WaitResolvesTrueIff | apps/cli/src/broker/routes/public-routes.ts:32-45 | the wait resolves true iff the condition holds at some tick reached before the timeout had elapsed |
| BrokerRoutes.OnlinePort | apps/cli/src/broker/routes/public-routes.ts:72-77 | there is a port iff the cwd has an online entry, and it is the port of such an entry |
| BrokerRoutes.StartSteps | apps/cli/src/broker/routes/public-routes.ts:66-68 | each tick of the start wait checks "an online entry for cwd exists" in that tick's table |
| BrokerRoutes.StopSteps | apps/cli/src/broker/routes/public-routes.ts:100-102 | each tick of the stop wait checks "no online entry for cwd is left" |
| BrokerRoutes.PostInstance | apps/cli/src/broker/routes/public-routes.ts:48-84 | 400 without cwd; 409 without spawning if the cwd is online at request time (no sweep first); else it spawns, answers 201 with the online port when the wait succeeds, and kills the process and answers 500 on timeout |
| BrokerRoutes.DeleteInstance | apps/cli/src/broker/routes/public-routes.ts:87-106 | 400 without cwd; 404 when the cwd is not online; else the shutdown request goes to the online port, whatever it returns, and the reply is 200 when the cwd goes offline within the wait, 500 otherwise |
| StandaloneBroker.TrimStart | apps/cli/broker.js:7 | `parseInt` skips leading white space (the whole StrWhiteSpaceChar set: tab, line feed, vertical tab, form feed, carriage return, the Zs spaces, the byte order mark, and the line and paragraph separators): the result is a suffix that does not start with such a character |
| StandaloneBroker.TrimStartSkipsSpace | apps/cli/broker.js:7 | any run of that white space before the text is skipped entirely |
| StandaloneBroker.LeadingDigits | apps/cli/broker.js:7 | the longest prefix of decimal digits |
| StandaloneBroker.StartupPort | apps/cli/broker.js:7-11 | a port is accepted exactly when the argument is present and parses (as `parseInt(_, 10)`) to a non-zero number, and it is that number |
| StandaloneBroker.StartupSkipsLeadingSpace | apps/cli/broker.js:7-11 | a positive decimal port after any leading white space is accepted as that port |
| StandaloneBroker.StartupAcceptsVerticalTab | apps/cli/broker.js:7-11 | the argument "\v8080" starts the broker on port 8080 |
| StandaloneBroker.Decimal | apps/cli/broker.js:7 | a number written in decimal is a non-empty string of digits |
| StandaloneBroker.DecimalValue | apps/cli/broker.js:7 | reading a decimal rendering back gives the number |
| StandaloneBroker.ParseLeadingDigits | apps/cli/broker.js:7 | `parseInt` of digits followed by non-digit text reads the digits |
| StandaloneBroker.StartupAcceptsDecimalPort | apps/cli/broker.js:7-11 | any positive port written in decimal is accepted as that port |
| StandaloneBroker.StartupRefusesFalsyPort | apps/cli/broker.js:7-11 | a missing argument, one without digits, or one that parses to 0 is refused |
| StandaloneBroker.StartupIgnoresTrailingText | apps/cli/broker.js:7-11 | trailing text after the digits is ignored |
| StandaloneBroker.LeadingDigitsPrefix | apps/cli/broker.js:7 | the leading digits of digits followed by non-digit text are those digits |
| StandaloneBroker.RegisterUpsertsByCwd | apps/cli/broker.js:31-49 | register upserts by cwd: cwds stay unique; the length grows by one only for an unknown cwd; the cwd is then online with the port and `lastSeen = now`; a new entry has the loopback host; other entries are unchanged |
| StandaloneBroker.PingRefreshesExactMatch | apps/cli/broker.js:52-60 | a heartbeat refreshes `lastSeen` of the entry matching both cwd and port and changes nothing else |
| StandaloneBroker.DeregisterKeepsEntry | apps/cli/broker.js:63-71 | deregister marks the cwd's entry offline, keeps its port and position, and leaves other entries unchanged |
| StandaloneBroker.FalsyFieldsChangeNothing | apps/cli/broker.js:31-71 | a falsy cwd, or a falsy port for register and ping, changes nothing |
| StandaloneBroker.ListDemotesByStaleMs | apps/cli/broker.js:13-28 | listing sweeps first: an entry is offline afterwards iff it was offline or its truthy `lastSeen` is more than `STALE_MS` = 30000 ms old; nothing else changes |
| ContentDiff.ContextText | apps/web/src/components/content-diff.tsx:91-97 | a context line shows its content, or " " when that is empty, so never "" |
| ContentDiff.RunLength | apps/web/src/components/content-diff.tsx:40-50 | the length of a run of lines with one prefix is at most the number of lines |
| ContentDiff.RunLengthFacts | apps/web/src/components/content-diff.tsx:40-50 | the run is maximal: all its lines have the prefix and the next line does not |
| ContentDiff.PairRowsShape | apps/web/src/components/content-diff.tsx:53-80 | k removals and m additions give max(k, m) rows: min(k, m) modified pairs, then the pure removals or the pure additions |
| ContentDiff.RemovalRunYieldsPairs | apps/web/src/components/content-diff.tsx:34-82 | a removal run and the addition run after it contribute exactly their pairing, and the rest of the hunk is read afresh |
| ContentDiff.HunkRowsShape | apps/web/src/components/content-diff.tsx:31-101 | every row is well shaped: an unchanged row has the same non-empty text on both sides, an added row an empty left, a removed row an empty right |
| ContentDiff.HunkRowsKeepLines | apps/web/src/components/content-diff.tsx:31-101 | each '-' line is the left of exactly one removed or modified row, each '+' line the right of exactly one added or modified row, and the unchanged rows are the context lines, all in hunk order |
| ContentDiff.LineRowsSides | apps/web/src/components/content-diff.tsx:83-100 | a lone '+' line gives one added row with an empty left; a ' ' line one unchanged row; any other prefix no row |
| ContentDiff.HunkRowsCount | apps/web/src/components/content-diff.tsx:98-100 | there are never more rows than '-', '+' and ' ' lines; lines with other prefixes emit nothing |
| ContentDiff.BuildHunkRows | apps/web/src/components/content-diff.tsx:26-101 | the hunk loop computes exactly the hunk's rows |
| ContentDiff.CollectRun | apps/web/src/components/content-diff.tsx:36-50 | the look-ahead returns the maximal removal run and the maximal addition run after it, with their contents |
| ContentDiff.PairAll | apps/web/src/components/content-diff.tsx:53-80 | the pairing loop computes exactly the pairing |
| ContentDiff.HunksRowsKeepLines | apps/web/src/components/content-diff.tsx:24-103 | over several hunks too, the removed, added and unchanged sides are exactly the '-', '+' and ' ' lines, in order |
| ContentDiff.BuildRows | apps/web/src/components/content-diff.tsx:18-110 | the rows of every hunk of every patch, in order, and none when parsing threw |
| ContentDiff.BuildHunksRows | src/components/content-diff.tsx:27-104 | the inner loop of the older copy's memo: the rows of each hunk of one patch, in turn |
| ContentDiff.ChangeRunLength | apps/web/src/components/content-diff.tsx:125-139 | the run of change rows is at most the number of rows |
| ContentDiff.ChangeRunFacts | apps/web/src/components/content-diff.tsx:125-130 | the run is maximal: its rows are modified, removed or added rows, and the next row is not |
| ContentDiff.BuildMobileBlocks | apps/web/src/components/content-diff.tsx:112-160 | the grouping loop computes exactly the mobile blocks |
| ContentDiff.GroupRound | src/components/content-diff.tsx:122-159 | one outer round consumes at least one row (the loop terminates) and emits the blocks of one change run, then the unchanged row's block |
| ContentDiff.CollectChanges | src/components/content-diff.tsx:127-141 | the inner loop stops at the end of the change run and collects its non-empty removed and added texts |
| ContentDiff.MobileBlocksShape | src/components/content-diff.tsx:127-158 | no block is empty, an unchanged block has one line, and per change run there is at most one removed block followed by at most one added block |
| ContentDiff.MobileBlocksKeepLines | src/components/content-diff.tsx:134-158 | the blocks hold exactly the non-empty left texts of removed and modified rows, the non-empty right texts of added and modified rows, and the unchanged rows' left texts, each in order |
| ContentDiff.MobileBlocksKeepKind | apps/web/src/components/content-diff.tsx:132-156 | the blocks of one kind hold exactly the row texts of that kind, in order |
| MessageEvents.MessageUpserted | apps/web/src/hooks/use-handle-session-message-events.ts:19-41 | a known id keeps the length; an unknown id appends one message after the old ones |
| MessageEvents.UpsertedMessageHoldsInfo | apps/web/src/hooks/use-handle-session-message-events.ts:23-40 | afterwards the id is found with the new info: at its old index with its old parts, or at the end with no parts |
| MessageEvents.UpsertKeepsOtherMessages | apps/web/src/hooks/use-handle-session-message-events.ts:25-29 | every other message is unchanged at its index |
| MessageEvents.MessageUpsertIdempotent | apps/web/src/hooks/use-handle-session-message-events.ts:19-41 | applying the same event twice equals applying it once |
| MessageEvents.MessageUpsertKeepsUnique | apps/web/src/hooks/use-handle-session-message-events.ts:19-41 | message ids stay unique |
| MessageEvents.LegacyMessageUpdated | src/hooks/use-handle-session-message-events.ts:24-42 | the older handler writes only for an unknown id, and then writes the upserted list |
| MessageEvents.LegacyLosesCompletion | src/hooks/use-handle-session-message-events.ts:24-31 | a completion of a cached running message is never stored, so the session stays busy, unlike the fixed handler |
| MessageEvents.PartUpserted | apps/web/src/hooks/use-handle-session-message-events.ts:60-73 | the part count grows by at most one, and not at all for a known part id |
| MessageEvents.UpsertedPartIsFound | apps/web/src/hooks/use-handle-session-message-events.ts:60-73 | the part is then found under its id: at the old index for a known id, appended after the old parts otherwise; other parts are untouched |
| MessageEvents.PartUpsertIdempotent | src/hooks/use-handle-session-message-events.ts:61-72 | upserting the same part twice equals once |
| MessageEvents.PartUpsertKeepsUnique | src/hooks/use-handle-session-message-events.ts:61-72 | part ids stay unique |
| MessageEvents.MessagesWithPart | apps/web/src/hooks/use-handle-session-message-events.ts:56-75 | nothing is written iff the message is not cached; otherwise the list keeps its length |
| MessageEvents.PartUpdateTouchesOnlyTarget | src/hooks/use-handle-session-message-events.ts:73-79 | only the target message's parts change; every message's info and every other message are kept, in order |
| MessageEvents.PartUpdateKeepsBusy | apps/web/src/hooks/use-handle-session-message-events.ts:44-81 | a part update never changes whether the session is busy |
| MessageEvents.MessageCache.constructor | apps/web/src/hooks/use-handle-session-message-events.ts:16-17 | the cache starts with no lists (every session reads as []) |
| MessageEvents.MessageCache.HandleMessageUpdated | apps/web/src/hooks/use-handle-session-message-events.ts:11-42 | other event types change nothing; otherwise the event's session gets the upserted list (a missing list reads as []) and no other session changes |
| MessageEvents.MessageCache.HandleMessageUpdatedLegacy | src/hooks/use-handle-session-message-events.ts:9-43 | the older handler writes back only the append of an unknown id |
| MessageEvents.MessageCache.HandleMessagePartUpdated | apps/web/src/hooks/use-handle-session-message-events.ts:44-81 | other event types and uncached messages change nothing; otherwise the session's list gets the part upserted in its message, and no other session changes |
| SessionUtils.IsAssistantMessage | apps/web/src/lib/utils.ts:14-18 | a message is the assistant's iff it was not written by the user |
| SessionUtils.IsCompletedToolPart | apps/web/src/lib/utils.ts:20-24 | true exactly for a part of type "tool" whose state's status is "completed"; a part without a state, or a pending, running or failed tool, is not completed |
| SessionUtils.IsSessionBusy | apps/web/src/lib/utils.ts:29-39 | false for no messages; true only when the last message is an assistant message that has not completed |
| SessionUtils.BusyDependsOnLast | apps/web/src/lib/utils.ts:29-39 | busy depends only on the last message: an assistant message whose `time.completed` is absent or 0 |
| SessionUtils.NotBusyAfter | apps/web/src/lib/utils.ts:33-38 | a user message, or a completed one, last means the session is not busy |
| SessionUtils.GetSessionIdFromEvent | apps/web/src/lib/utils.ts:44-65 | the session id comes from `info.sessionID`, `part.sessionID`, `info.id` or `properties.sessionID` by event type: `info.sessionID` for message.updated, `part.sessionID` for message.part.updated, `info.id` for session.updated and session.deleted, and `properties.sessionID` for message.removed, session.idle, session.error and permission.updated; null exactly for other types |
| RecentProjects.ProjectAdded | apps/web/src/store/recent-projects.ts:22-39 | a known path keeps the length; a new path adds one entry |
| RecentProjects.ProjectAddedPlacement | apps/web/src/store/recent-projects.ts:24-38 | a known path is refreshed at its index with `lastUsed = now`, other entries unchanged; a new path goes in front of the old list |
| RecentProjects.ProjectAddedKeepsUnique | apps/web/src/store/recent-projects.ts:22-39 | paths stay unique |
| RecentProjects.ProjectRemoved | apps/web/src/store/recent-projects.ts:41-44 | no entry with the path is left |
| RecentProjects.RemoveKeepsOthers | apps/web/src/store/recent-projects.ts:43 | an entry survives iff it was there and has another path |
| RecentProjects.RemoveAbsentIsNoOp | apps/web/src/store/recent-projects.ts:41-44 | removing an absent path changes nothing |
| RecentProjects.RemoveUndoesAdd | apps/web/src/store/recent-projects.ts:22-44 | removing a path just added equals removing it from the old list |
| RecentProjects.GetProjectNameFacts | apps/web/src/store/recent-projects.ts:46-49 | the name is the path's last separator-free segment, preceded by a separator or the whole path; an empty last segment gives the whole path |
| RecentProjects.RecentProjectsStore.constructor | apps/web/src/store/recent-projects.ts:20 | the store starts with no projects |
| RecentProjects.RecentProjectsStore.AddProject | apps/web/src/store/recent-projects.ts:22-39 | the store's list becomes the added list |
| RecentProjects.RecentProjectsStore.RemoveProject | apps/web/src/store/recent-projects.ts:41-44 | the store's list becomes the filtered list |
| ClientStore.ClientCreated | apps/web/src/store/opencode-client.ts:25-45 | the cwd then has a client on the port; other cwds are untouched; a cwd already on that port is a no-op |
| ClientStore.ClientRemoved | apps/web/src/store/opencode-client.ts:47-56 | only the cwd's entry goes; a missing cwd is a no-op |
| ClientStore.ClientOf | apps/web/src/store/opencode-client.ts:58-61 | there is a client iff the cwd has an entry |
| ClientStore.ClientAfterCreate | apps/web/src/store/opencode-client.ts:25-61 | right after `createClient` the cwd has a client: the old one if it was on that port, else a fresh one for the port with two retries |
| ClientStore.CreateIdempotent | apps/web/src/store/opencode-client.ts:28-31 | creating twice equals creating once |
| ClientStore.OpencodeClientStore.constructor | apps/web/src/store/opencode-client.ts:23 | the store starts with no clients |
| ClientStore.OpencodeClientStore.CreateClient | apps/web/src/store/opencode-client.ts:25-45 | the clients become the created map |
| ClientStore.OpencodeClientStore.RemoveClient | apps/web/src/store/opencode-client.ts:47-56 | the clients become the map without the cwd |
| ClientStore.OpencodeClientStore.ClearAllClients | apps/web/src/store/opencode-client.ts:63-65 | no cwd has a client afterwards |
| LastSession.LastSessionStore.constructor | apps/web/src/store/last-session.ts:11 | the store starts empty |
| LastSession.LastSessionStore.SetLastSession | apps/web/src/store/last-session.ts:12-14 | the cwd then reads as the session; every other cwd reads as before |
| LastSession.LastSessionStore.ClearAll | apps/web/src/store/last-session.ts:15 | every cwd reads as undefined afterwards |
| OrderedMaps.Lookup | apps/web/src/components/instance-switcher.tsx:79 | `map.get` finds a value iff `map.has` holds |
| OrderedMaps.Set | apps/web/src/components/instance-switcher.tsx:74 | `map.set` keeps the size for a present key and adds one entry otherwise |
| OrderedMaps.SetLookup | apps/web/src/components/instance-switcher.tsx:74 | after `map.set(k, v)` the key reads as v and every other key as before |
| OrderedMaps.SetOrder | apps/web/src/components/instance-switcher.tsx:92 | setting a present key keeps its position; a new key goes last (insertion order of `map.values()`) |
| OrderedMaps.SetUnique | apps/web/src/components/instance-switcher.tsx:70-90 | keys stay unique |
| OrderedMaps.MergeFacts | apps/web/src/components/instance-switcher.tsx:72-90 | after "set all of a, then add the missing of b" the keys are unique and are those of a and b; a key reads as the last value a gave it, or else the first value b gave it |
| OrderedMaps.ValuesFacts | apps/web/src/pages/chat/components/instance-lists.tsx:59 | `Array.from(map.values())` of a map whose values carry their key lists each key once, so it has as many elements as keys |
| StableSort.SortBy | apps/web/src/pages/chat/components/instance-lists.tsx:59-61 | sorting is a permutation |
| StableSort.SortBySorted | apps/web/src/components/instance-switcher.tsx:104-105 | the result is ascending in the key |
| StableSort.SortByStable | apps/web/src/components/instance-switcher.tsx:104-105 | elements with equal keys keep their relative order |
| InstanceSwitcher.BrokerEntries | apps/web/src/components/instance-switcher.tsx:73-75 | each broker instance is set under its cwd |
| InstanceSwitcher.ProjectEntries | apps/web/src/components/instance-switcher.tsx:78-90 | each recent project is offered under its path as a stopped instance (no host, port 0, `startedAt` 0) |
| InstanceSwitcher.MergeInstances | apps/web/src/components/instance-switcher.tsx:65-92 | the two `forEach` passes over a fresh `Map`, then its values, compute the merged list |
| InstanceSwitcher.MergedFacts | apps/web/src/components/instance-switcher.tsx:70-92 | no cwd appears twice; the cwds are exactly the broker cwds and the recent paths, so the length is their number; a broker cwd shows its last broker instance, any other path its first recent project as a stopped instance |
| InstanceSwitcher.FirstWithFrom | apps/web/src/components/instance-switcher.tsx:78-80 | the first recent project with a path is what the second pass offers for it |
| InstanceSwitcher.OrderByFacts | apps/web/src/components/instance-switcher.tsx:104-107 | ordering is a permutation, every online entry precedes every other, and each group is ascending in the key |
| InstanceSwitcher.InstancesFacts | apps/web/src/components/instance-switcher.tsx:94-107 | the shown list is a permutation of the merged list without repeated cwds; online first; each group ascending by start time with 0 and undefined sorting last, so an entry started at 0 is followed in its group only by entries started at 0, unknown, or beyond `MAX_SAFE_INTEGER` |
| InstanceSwitcher.RecentProjectSortsFirst | apps/web/src/components/instance-switcher.tsx:99-105 | as written (`startedAt ?? MAX_SAFE_INTEGER`), a recent project sorts before a stopped broker instance reported without a start time |
| InstanceSwitcher.BrokerInstanceSortsFirst | apps/web/src/components/instance-switcher.tsx:94 | with 0 and undefined both treated as large, the two entries tie and the stable sort keeps the broker instance first |
| InstanceSwitcher.SelectedInstance | apps/web/src/components/instance-switcher.tsx:111-113 | nothing iff the list is empty; the first entry whose cwd is the URL cwd (no earlier entry has it) when there is one, else the first entry |
| InstanceSwitcher.LabelEmpty | apps/web/src/components/instance-switcher.tsx:116-120 | the label is "" iff nothing is selected or the selected cwd is "" |
| InstanceLists.InstanceEntries | apps/web/src/pages/chat/components/instance-lists.tsx:35-43 | each stopped instance is set under its cwd as an offline project named by `getProjectName`, with `lastSeen` or now as its time |
| InstanceLists.RecentEntries | apps/web/src/pages/chat/components/instance-lists.tsx:46-56 | each recent project is offered under its path as a recent project |
| InstanceLists.MergeProjects | apps/web/src/pages/chat/components/instance-lists.tsx:28-62 | the offline filter, the two passes and the sort compute the merged list |
| InstanceLists.EntriesFacts | apps/web/src/pages/chat/components/instance-lists.tsx:32-57 | before sorting: unique paths, exactly the stopped cwds and recent paths, a stopped instance's folder as that instance, any other as its first recent project |
| InstanceLists.EntryWinner | apps/web/src/pages/chat/components/instance-lists.tsx:35-56 | the value under each path carries that path and comes from the stopped instance when there is one |
| InstanceLists.RecentFirstWith | apps/web/src/pages/chat/components/instance-lists.tsx:46-48 | the first recent project with a path is what the second pass offers for it |
| InstanceLists.MergedProjectsFacts | apps/web/src/pages/chat/components/instance-lists.tsx:28-62 | each path once, exactly the stopped cwds and the recent paths, newest first; a stopped instance wins (offline, source "offline", named by `getProjectName`), any other path shows its first recent project |
| InstanceLists.ProjectsCard | apps/web/src/pages/chat/components/instance-lists.tsx:64-66 | nothing is rendered iff the list is empty |
| InstanceLists.CardHiddenWhenNothingToShow | apps/web/src/pages/chat/components/instance-lists.tsx:24-66 | the card is hidden iff there is no stopped instance and no recent project |
| ClientManager.CurrentCwd | apps/web/src/components/opencode-client-manager.tsx:23-35 | a truthy URL cwd wins (even if offline); else the first online instance's cwd; else none |
| ClientManager.UrlEffectsExclusive | apps/web/src/components/opencode-client-manager.tsx:45-94 | the URL-repair effect and the default-cwd effect never both write in one render |
| ClientManager.OnlineHas | apps/web/src/components/opencode-client-manager.tsx:48-50 | `onlineInstances.some(cwd matches and online)` holds iff some online broker instance has the cwd |
| ClientManager.UrlSettles | apps/web/src/components/opencode-client-manager.tsx:45-94 | an online URL cwd is left alone; afterwards a set URL cwd is online; a second render changes nothing; other parameters are untouched |
| ClientManager.ClientsCreatedHas | apps/web/src/components/opencode-client-manager.tsx:38-42 | after the pass every instance's cwd has a client |
| ClientManager.ClientsCreatedPort | apps/web/src/components/opencode-client-manager.tsx:39-41 | a cwd's client is on the port of the last instance with that cwd |
| ClientManager.ClientsCreatedOthers | apps/web/src/components/opencode-client-manager.tsx:38-42 | cwds no instance has are untouched |
| ClientManager.ClientsCreatedFacts | apps/web/src/components/opencode-client-manager.tsx:38-42 | the three facts above together |
| ClientManager.OnlineClientsCreated | apps/web/src/components/opencode-client-manager.tsx:19-42 | every online instance's cwd gets a client, and cwds without an online instance are untouched |
| ClientManager.CleanupKeepsOnlineClients | apps/web/src/components/opencode-client-manager.tsx:38-78 | creation then cleanup leaves every online cwd with a client, and only cwds the broker knows |
| ClientManager.CreateOnlineClients | apps/web/src/components/opencode-client-manager.tsx:38-42 | the loop of `createClient` calls leaves exactly the created map |
| ClientManager.RemoveUnavailableClients | apps/web/src/components/opencode-client-manager.tsx:68-78 | the clients of cwds no broker instance has, online or not, are removed and the others kept |
| ClientManager.ClearWhenBrokerOffline | apps/web/src/components/opencode-client-manager.tsx:81-85 | an offline broker clears every client; any other status changes nothing |
| ToolMessages.ToolPartViewCases | apps/web/src/pages/chat/components/messages.tsx:111-138 | the error view iff a tool part in error state, whoever wrote the message; the completed view iff a completed tool part of an assistant message; only the completed view depends on the role |
| ToolMessages.DirPrefix | src/pages/chat/components/messages.tsx:242 | the prefix ends with '/' and extends the working directory by at most that '/' |
| ToolMessages.StripWorkingDirectory | src/pages/chat/components/messages.tsx:239-252 | a missing argument returns the path as it is; a present path gives a present result |
| ToolMessages.StripFacts | apps/web/src/pages/chat/components/messages.tsx:232-246 | "" for the directory itself; prefix + result is the path when it lies under the prefix; otherwise the path unchanged; the result is always a suffix of the path |
| ToolMessages.StripJoined | apps/web/src/pages/chat/components/messages.tsx:235-243 | stripping a path built as prefix + relative path gives the relative path back |
| ToolMessages.GetDiagnostics | src/pages/chat/components/messages.tsx:255-288 | the nested loops compute the error lines: none unless the current file has an entry, else those of all files |
| ToolMessages.FileErrorsMembers | apps/web/src/pages/chat/components/messages.tsx:261-265 | a file contributes exactly its severity-1 diagnostics, with 1-based positions |
| ToolMessages.AllErrorsMembers | apps/web/src/pages/chat/components/messages.tsx:260-279 | an error line is reported iff some file, the current one or another, has a severity-1 diagnostic at that position with that message |
| ToolMessages.OtherFilesReported | apps/web/src/pages/chat/components/messages.tsx:254-279 | an error in another file is reported while the current file has only a warning |
| AppInfo.WithProjectName | src/hooks/fetch/app.tsx:26 | every field of the app data is kept and the project name is added |
| AppInfo.ProjectNameFacts | apps/web/src/hooks/fetch/app.tsx:12-18 | the name has no separator; "" for a non-string root or a root of only separators; otherwise the last folder of the root with trailing separators removed, non-empty when that is non-empty |
| AppInfo.AllSepStripsToEmpty | src/hooks/fetch/app.tsx:21 | a root of only separators normalises to "" |
| AppInfo.TrailingSepsIgnored | apps/web/src/hooks/fetch/app.tsx:15 | trailing separators on the root do not change the name |
| PathNames.SplitLast | apps/web/src/store/recent-projects.ts:47-48 | the last piece of `split(/[/\\]/)` is the path's last segment |
| PathNames.SplitRunsLast | apps/web/src/hooks/fetch/app.tsx:16-17 | the last piece of `split(/[/\\]+/)` is the last segment too |
| PathNames.SplitPiecesNoSep | apps/web/src/store/recent-projects.ts:47 | no piece of the split contains a separator |
| PathNames.LastSegmentFacts | apps/web/src/store/recent-projects.ts:47-48 | the last segment is a separator-free suffix, preceded by a separator unless it is the whole string |
| PathNames.StripTrailingSepsFacts | apps/web/src/hooks/fetch/app.tsx:15 | `replace(/[\\/]+$/, "")` removes only separators, and the result does not end with one |
| PathNames.StripAppendedSeps | src/hooks/fetch/app.tsx:21 | stripping separators appended to a string that does not end with one gives the string back |
| GenerateId.Complement48Is | src/lib/generateId.ts:36-39 | `~v & 0xffffffffffff` is 2^48 - 1 minus the low 48 bits of v |
| GenerateId.ByteAt | src/lib/generateId.ts:43 | each byte is between 0 and 255 |
| GenerateId.BytesDecode | src/lib/generateId.ts:41-44 | the six bytes are the big-endian encoding of the value's low 48 bits; higher bits are dropped |
| GenerateId.HexFacts | src/lib/generateId.ts:46-48 | the hex part has exactly 12 lowercase hex digits, and they decode to the value mod 2^48 |
| GenerateId.DecodeInjective | src/lib/generateId.ts:46-48 | equal-length hex strings with the same value are equal |
| GenerateId.DecodeOrder | src/lib/generateId.ts:46-48 | for equal-length hex strings a smaller value is an earlier string |
| GenerateId.HexOrder | src/lib/generateId.ts:41-48 | below 2^48, hex parts are in numeric order |
| GenerateId.EncodedLowBits | src/lib/generateId.ts:34-43 | the 48 bits the ID keeps are the timestamp modulo 2^36 followed by the 12-bit counter |
| GenerateId.SameMillisecondOrder | src/lib/generateId.ts:34-48 | for any timestamp, within one millisecond a later counter gives a later ascending ID and an earlier descending ID |
| GenerateId.LaterMillisecondOrder | src/lib/generateId.ts:34-48 | a later millisecond gives a later ascending ID and an earlier descending ID, whatever the counters, when both timestamps lie in the same 2^36 ms window (about 795 days); across windows the order can wrap |
| GenerateId.EncodedOrder | src/lib/generateId.ts:36-48 | values whose low 48 bits ascend give ascending hex parts, and descending ones after the complement |
| GenerateId.CountersInOneMillisecond | src/lib/generateId.ts:28-32 | k calls in a new millisecond use counters 1..k; in the millisecond of the last call they go on from its counter |
| GenerateId.IdGenerator.constructor | src/lib/generateId.ts:18-19 | both `lastTimestamp` and `counter` start at 0 |
| GenerateId.IdGenerator.GenerateNewId | src/lib/generateId.ts:22-54 | the counter resets in a new millisecond and is then incremented; the ID is prefix + "_" + the 12 hex digits of the encoded value + the suffix |

## Left out

- Process spawning, killing and `unref`, the HTTP servers, CORS and
  `listen` are outside the model. `POST /instance` records whether it
  spawned or killed a process; `DELETE /instance` records the port its
  shutdown request went to. The shutdown request's outcome is ignored, as
  in the source.
- `waitFor`'s 200 ms timer is modelled by the finite sequence of
  observations its ticks make: the condition's value and the elapsed time.
  When the sequence runs out before the wait settles, the reply is still
  pending. Between ticks, other requests change the shared table. So each
  tick carries its own snapshot of the table, and the model does not
  interleave the requests themselves.
- `Date.now()`, `new Date().toISOString()` and `new Date(...).getTime()` are
  explicit integer parameters. Dates are kept as the milliseconds they
  denote, so an ISO-string round trip is the identity. Invalid dates (NaN)
  are not modelled.
- `parsePatch` is a library call. Its result is an input, with None for a
  parse that threw; the console message is not modelled.
- The older content-diff copy memoises its rows with no dependencies, so it
  ignores later changes of `props.diff`. This React behaviour is not
  modelled; both copies have the same row and block logic.
- The older copy of `isCompletedToolPart` (src/pages/chat/components/messages.tsx:104-106)
  reads `part.state.status` without `?.`, so it throws for a tool part
  without a state. The model treats such a part as not completed, as the
  newer copy in `lib/utils.ts` does. The part types make `state` required.
- Rendering, JSX, highlighting and the error text of a failed tool part
  (`part.state.error`) are not modelled. The view is reduced to which
  branch renders.
- `getDiagnostics` iterates `Object.values`, which lists integer-like keys
  first. The model keeps the entries in the order given.
- `getDiagnostics` and the last-session store index a plain object
  (`diagnosticsByFile[currentFile]`, `map[cwd]`). The model treats it as a
  map, so a key such as "constructor", which JavaScript finds on the
  object's prototype, reads as absent.
- `addProject` spreads the caller's project (`{...project}`). The model
  keeps only the path, name and time, and drops any extra fields the
  caller passes.
- The URL search parameters are a map from name to value. The order of the
  parameters and repeated names, which `URLSearchParams` keeps, are not
  modelled.
- The opencode SDK client is opaque. A client is recorded by its port and
  retry count.
- The React effects are modelled one by one. Each effect is one function of
  the values the render saw, or one store method. The scheduling and
  re-running of effects are not modelled. Neither are the event-stream
  loop, query invalidation or the `persist` middleware.
- The random suffix of an ID is a parameter. The call
  `randomBase62(length - 12)` uses an undeclared `length`, and its result
  is not modelled.
- GenerateId.SameMillisecondOrder: stated only for counters below 4096, that
  is at most 4095 IDs in one millisecond. A larger counter spills into the
  timestamp bits. The encoding of that case is still modelled exactly, but
  no order is claimed for it.
- The old file-based registry, broker discovery, the CLI and the UI-only
  components are not part of this model.

## Findings

| source | as written | input that shows it | evidently intended | confidence | as-written member | corrected member |
|---|---|---|---|---|---|---|
| apps/web/src/components/instance-switcher.tsx:94-101 | `a.startedAt ?? Number.MAX_SAFE_INTEGER` replaces only a missing `startedAt`, so the `startedAt: 0` given to recent projects (line 87) sorts first | a stopped broker instance, which the broker reports without `startedAt`, and a recent project for another folder: the project is listed first | as the comments at lines 86 and 94 say, 0 and undefined both sort as large, so a recent project does not move ahead of a broker instance | medium, not executed | InstanceSwitcher.RecentProjectSortsFirst | InstanceSwitcher.InstancesFacts |
| src/hooks/use-handle-session-message-events.ts:24-31 | a `message.updated` event for a cached message builds the updated list but never calls `setQueryData` | a cached running assistant message `msg_1`, then `message.updated` with its completion time: the cache keeps the running message and the session stays busy | write the list back, as the newer copy does at apps/web/src/hooks/use-handle-session-message-events.ts:30 | high, not executed | MessageEvents.LegacyLosesCompletion | MessageEvents.UpsertedMessageHoldsInfo |
