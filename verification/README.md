# dns-failover, modelled in Dafny

This project models the core of **dns-failover**, a service that:

- watches a primary IP with ping, TCP or HTTP probes;
- points a set of Cloudflare DNS records at a backup IP once the primary has failed a number of consecutive times;
- points them back once the primary has succeeded a number of consecutive times.

Around that failover engine the model also covers:

- the in-memory configuration store: monitors, Cloudflare accounts, the switch history and the IP-down log;
- the decisions inside the HTTP handlers: the auth cookie gate, first-login token setup, monitor defaults, manual restore, and the "offline_hot" list of GetStatus;
- the pure helpers of the notification and DNS services.

Modules, one per source file of the core, plus shared helpers:

| module | file | models |
|---|---|---|
| `Config` | config.dfy | the records of `internal/config/config.go`, as datatypes |
| `MonitorEngine` | engine.dfy | `internal/monitor/engine.go`: a `Health` value with one pure step function per transition; classes `Monitor` and `Engine` that do the same steps in place, proved against those functions |
| `EngineTraces` | engine_traces.dfy | whole runs of the check loop: the streak invariant, failover and restore exactly at the thresholds, one backup alert per episode, the documented scenario |
| `ConfigStore` | store.dfy | `internal/config/store.go`: class `Store` over a `data: Config` field, each method proved against a function on the old value |
| `Api` | api.dfy | `internal/api/handler.go`: auth, monitor defaults, the add/update/delete handlers over `Store` and `Engine`, RestoreMonitor |
| `OfflineHot` | offline_hot.dfy | the offline_hot aggregation of GetStatus: the scan, the grouping, the selection and the sort |
| `Service` | services.dfy | `internal/service/services.go`: splitCSVEmails, SendEmail's guard, buildPlainEmail, the SearchRecords filter |
| `Text`, `Seqs`, `Wrappers` | text.dfy, seqs.dfy, wrappers.dfy | Go's `strings.TrimSpace`/`Split`/`Join`/`Contains`/`ToLower` and `unicode.IsSpace`; first-match search and removal on sequences; `Option` |

Inputs the Go code reads from the outside world are parameters here:

- the primary probe's outcome is a `bool`;
- the backup ping is a `BackupProbe`: pinger setup error, lost, or healthy;
- the clock is `now` / `startOfDay` / `freshId`;
- the Cloudflare update outcome is the set `failing` of subdomains whose update fails.

Callbacks the engine launches are recorded as `Event`s appended to `Engine.events`, in launch order.

Behaviours of the code worth knowing, which the model keeps as they are:

- A success while Normal does not write `SuccCount`. `EngineTraces.RunCountsStreaks` shows it is 0 anyway whenever the monitor is Normal, in any run of check ticks from a fresh start.
- `BackupFailCount` and `BackupDown` are never reset when the monitor leaves Down, not by `handleSuccess` and not by `ForceRestore`. `EngineTraces.RestoreKeepsBackupAlertSuppressed` shows the consequence: after a restore with the flag set, the next down-episode of the backup raises no alert until a healthy backup ping has cleared the flag.
- The backup watchdog runs only for the literal check type `"ping"`. An empty check type is probed by ping but never watched; `Api.PingDefaultEnablesWatchdog` shows what the handlers' `"ping"` default changes.
- The TCP probe is selected by `"tcping"`, not `"tcp"`.
- `handleFailure` and `handleSuccess` do not default thresholds. A threshold of 0 or below trips on the first outcome (`EngineTraces.Demanded`).

## Model

| member | source | states |
|---|---|---|
| MonitorEngine.ProbeFor | internal/monitor/engine.go:176-185 | "http" and "https" select the HTTP probe, exactly "tcping" the TCP probe, every other check type (the empty one included) the ping probe |
| MonitorEngine.Fresh | internal/monitor/engine.go:64-68 | a new monitor is Normal on the original IP with both streak counters and both watchdog fields cleared |
| MonitorEngine.OnFailure | internal/monitor/engine.go:338-359 | while Normal a failure extends the failure streak; failover (Down, backup IP, failCount 0) happens iff the extended streak reaches the threshold, and fires OnIPDown(original) then OnSwitch(toBackup); below the threshold nothing else changes; while Down a failure only zeroes succCount; the watchdog fields never change |
| MonitorEngine.OnSuccess | internal/monitor/engine.go:361-379 | while Down a success extends the success streak; restore (Normal, original IP, succCount 0) happens iff it reaches the threshold, firing one OnSwitch(!toBackup); while Normal a success only zeroes failCount and leaves succCount as it is |
| MonitorEngine.ScheduleTarget | internal/monitor/engine.go:151-159 | the configured switch IP when set, else the other IP of the original/backup pair |
| MonitorEngine.OnScheduleTick | internal/monitor/engine.go:143-174 | nothing happens while Down or when the target is empty or already in effect; otherwise the monitor moves to the target and zeroes both counters, with the status unchanged, firing exactly one ScheduledSwitch(from, to); an event fires iff the state changes |
| MonitorEngine.BackupThreshold | internal/monitor/engine.go:239-241 | the watchdog threshold is the monitor's failure threshold when positive, and exactly 3 when it is 0 or below; so it is at least 1 |
| MonitorEngine.BackupWatched | internal/monitor/engine.go:221 | the watchdog runs only while Down, for check type "ping", with a backup IP; so it only ever runs beside the ping probe, and never without a backup IP |
| MonitorEngine.OnBackupProbe | internal/monitor/engine.go:219-279 | only the watchdog fields change, and only while Down with check type "ping" and a backup IP; a pinger setup error changes nothing; a healthy ping clears counter and flag silently; a lost ping extends the counter, and the alert fires iff the counter reaches the threshold while the flag is clear, setting the flag and clearing the counter |
| MonitorEngine.OnCheck | internal/monitor/engine.go:176-195 | one check tick: the primary outcome's transition decides status, IP and streak counters, and its callbacks come first; the watchdog fields are those OnBackupProbe gives on the state the primary outcome left, and its callbacks follow |
| MonitorEngine.Restored | internal/monitor/engine.go:96-101 | a forced restore gives Normal on the original IP with both streaks cleared and leaves the watchdog fields untouched |
| MonitorEngine.Monitor.constructor | internal/monitor/engine.go:64-68 | a monitor object starts in the Fresh state of its configuration |
| MonitorEngine.Engine.constructor | internal/monitor/engine.go:46-51 | an engine starts with no monitors, no loop contexts and no callbacks |
| MonitorEngine.Engine.StartMonitor | internal/monitor/engine.go:53-75 | the id is registered with a new monitor object in the Fresh state, replacing any previous one; other ids keep their objects; the schedule loop runs for the id iff scheduling is enabled with a positive period; the registry invariant is kept |
| MonitorEngine.Engine.StopMonitor | internal/monitor/engine.go:77-86 | the id is removed from monitors, loop contexts and schedule loops; an unknown id changes nothing |
| MonitorEngine.Engine.ForceRestore | internal/monitor/engine.go:88-105 | an unknown id gives ("", false) and changes nothing; a known id gives the IP in effect before and the Restored state, with no callback |
| MonitorEngine.Engine.HandleFailure | internal/monitor/engine.go:338-359 | the in-place update leaves the monitor in OnFailure's state and appends OnFailure's callbacks |
| MonitorEngine.Engine.HandleSuccess | internal/monitor/engine.go:361-379 | the in-place update leaves the monitor in OnSuccess's state and appends OnSuccess's callbacks |
| MonitorEngine.Engine.ScheduledSwitch | internal/monitor/engine.go:143-174 | the in-place update leaves the monitor in OnScheduleTick's state and appends its callback |
| MonitorEngine.Engine.CheckBackupHealth | internal/monitor/engine.go:219-280 | the in-place update leaves the monitor in OnBackupProbe's state and appends its alert |
| MonitorEngine.Engine.Check | internal/monitor/engine.go:176-195 | one tick of the check loop leaves the monitor in OnCheck's state and appends its callbacks in order |
| EngineTraces.RunCountsStreaks | internal/monitor/engine.go:338-379 | after any run of check ticks from a fresh start: Normal means the original IP, failCount equals the trailing failures and succCount is 0; Down means the backup IP, succCount equals the trailing successes and failCount is 0; each streak stays below what its threshold demands |
| EngineTraces.FailoverExactlyAtThreshold | internal/monitor/engine.go:342-355 | from Normal, a tick fails over iff it completes a run of consecutive failures as long as the threshold demands |
| EngineTraces.RestoreExactlyAtThreshold | internal/monitor/engine.go:365-375 | from Down, a tick restores iff it completes a run of consecutive successes as long as the threshold demands |
| EngineTraces.NoFailoverWithoutStreak | internal/monitor/engine.go:342-358 | a short trailing failure streak never fails over, however many failures came before an intervening success |
| EngineTraces.CheckAlertsWhenFlagRises | internal/monitor/engine.go:265-279 | in a tick without a healthy backup ping, a backup alert fires iff the down flag rises |
| EngineTraces.BackupAlertOncePerEpisode | internal/monitor/engine.go:219-279 | between two healthy backup pings the backup alert fires at most once, and not at all when the flag was already set |
| EngineTraces.RestoreKeepsBackupAlertSuppressed | internal/monitor/engine.go:88-105 | after ForceRestore with the flag set, no backup alert fires until a healthy backup ping |
| EngineTraces.FailoverThenRestoreScenario | internal/monitor/engine.go:338-379 | with thresholds 3 and 2: three failures give Down on the backup IP with OnIPDown(original) then OnSwitch(toBackup); then a failure and two successes give one OnSwitch back and the fresh state |
| EngineTraces.ScheduleTogglesBack | internal/monitor/engine.go:151-172 | without a switch IP, two scheduled switches go from original to backup and back, each reported |
| ConfigStore.FindMonitor | internal/config/store.go:71-80 | the lookup finds a monitor with the id, and finds none iff no monitor has it |
| ConfigStore.UpsertedMonitors | internal/config/store.go:82-93 | the first monitor with the id is replaced in place, else the monitor is appended; every other entry keeps its place, and the id then finds the new monitor |
| ConfigStore.MonitorsWithout | internal/config/store.go:95-105 | the first monitor with the id is removed and the others keep their order; an unknown id changes nothing |
| ConfigStore.UpsertKeepsIdsUnique | internal/config/store.go:82-93 | upserting keeps monitor ids unique |
| ConfigStore.DeleteThenFindNothing | internal/config/store.go:95-105 | with unique ids, a deleted id is no longer found and the ids stay unique |
| ConfigStore.ActiveCredentials | internal/config/store.go:107-123 | the active account's credentials iff the active index lies in the account list, else the default credentials |
| ConfigStore.UpdatedAccounts | internal/config/store.go:168-178 | the first account with the id is replaced in place, every other one kept; an unknown id changes nothing |
| ConfigStore.AccountsWithout | internal/config/store.go:180-196 | the first account with the id is removed, the accounts before it keep their positions and those after it move down by one; an unknown id changes nothing |
| ConfigStore.ActiveAfterDelete | internal/config/store.go:186-191 | an unknown id leaves the active index alone; deleting the active account resets the index to 0; deleting any other account keeps the same account active at its new position |
| ConfigStore.DeleteKeepsActiveAccount | internal/config/store.go:183-191 | deleting any account other than the active one leaves the same account active |
| ConfigStore.DeleteActiveFallsBackToFirst | internal/config/store.go:186-188 | deleting the active account makes index 0 active |
| ConfigStore.ActiveAfterActivate | internal/config/store.go:198-208 | activation selects the index of an account with the id, or leaves the index unchanged for an unknown id |
| ConfigStore.ActivateThenCredentials | internal/config/store.go:198-208 | after activating a known account, its credentials are the ones in use |
| ConfigStore.AppendBounded | internal/config/store.go:238-258 | the event comes last; with a positive bound at most that many entries remain, and they are the newest ones in their order |
| ConfigStore.NewestFirst | internal/config/store.go:260-288 | min(limit, length) entries, all of them when the limit is not positive, in reverse order |
| ConfigStore.AppendedIsListedFirst | internal/config/store.go:238-273 | the entry just appended is listed first, whatever the bound and the limit |
| ConfigStore.ListAllReversesLog | internal/config/store.go:260-273 | listing without a limit and reading it backwards gives the log back |
| ConfigStore.ListNewest | internal/config/store.go:268-272 | the reverse-index loop computes NewestFirst |
| ConfigStore.Store.constructor | internal/config/store.go:15-24 | a new store holds the all-empty configuration |
| ConfigStore.Store.GetMonitor | internal/config/store.go:71-80 | returns the monitor FindMonitor finds, with true, or the zero monitor with false |
| ConfigStore.Store.UpsertMonitor | internal/config/store.go:82-93 | the loop with early return changes only the monitor list, to UpsertedMonitors |
| ConfigStore.Store.DeleteMonitor | internal/config/store.go:95-105 | the loop with early return changes only the monitor list, to MonitorsWithout |
| ConfigStore.Store.GetCloudflareConfig | internal/config/store.go:107-123 | returns ActiveCredentials of the data |
| ConfigStore.Store.GetAuthToken | internal/config/store.go:140-144 | returns the stored token |
| ConfigStore.Store.SetAuthToken | internal/config/store.go:147-152 | only the stored token changes, to the given one |
| ConfigStore.Store.HasAuthToken | internal/config/store.go:155-159 | true iff the stored token is not empty |
| ConfigStore.Store.AddCloudflareAccount | internal/config/store.go:161-166 | only the account list changes: the account is appended |
| ConfigStore.Store.UpdateCloudflareAccount | internal/config/store.go:168-178 | only the account list changes, to UpdatedAccounts |
| ConfigStore.Store.DeleteCloudflareAccount | internal/config/store.go:180-196 | only the account list and the active index change, to AccountsWithout and the adjusted index |
| ConfigStore.Store.ActivateCloudflareAccount | internal/config/store.go:198-208 | only the active index changes, to ActiveAfterActivate |
| ConfigStore.Store.UpdateGlobalConfig | internal/config/store.go:228-236 | only the default credentials and the three notification settings change |
| ConfigStore.Store.AppendSwitchEvent | internal/config/store.go:238-247 | only the history changes, to AppendBounded |
| ConfigStore.Store.AppendIPDownEvent | internal/config/store.go:249-258 | only the IP-down log changes, to AppendBounded |
| ConfigStore.Store.ListSwitchHistory | internal/config/store.go:260-273 | returns NewestFirst of the history |
| ConfigStore.Store.ListIPDownEvents | internal/config/store.go:275-288 | returns NewestFirst of the IP-down log |
| Text.TrimSpace | internal/service/services.go:360 | the result has no white space at either end, and only white space surrounds it in the input |
| Text.TrimSpaceIdempotent | internal/service/services.go:360 | trimming twice is trimming once |
| Text.TrimmedIsFixed | internal/service/services.go:360 | a string without white space at its ends is its own trim |
| Text.Split | internal/service/services.go:357 | one more piece than separators, no piece contains the separator, and joining the pieces with it gives the input back |
| Text.ToLower | internal/service/services.go:116-120 | each position is lowered, and no upper-case ASCII letter remains |
| Text.ToLowerIdempotent | internal/service/services.go:116-120 | lowering twice is lowering once |
| Text.ContainsEmpty | internal/service/services.go:118-120 | every string contains the empty query |
| Service.NonEmptyTrimmed | internal/service/services.go:358-366 | at most one address per piece, each non-empty and trimmed |
| Service.CsvEmails | internal/service/services.go:356-367 | at most one address more than there are commas, each non-empty and trimmed |
| Service.NoBlankPieceKeepsAll | internal/service/services.go:359-365 | when no piece trims to nothing, every piece is kept, trimmed, at its own position |
| Service.NonEmptyTrimmedConcat | internal/service/services.go:359-365 | the addresses of earlier pieces come before those of later pieces, in order |
| Service.BlankSplitsToNothing | internal/service/services.go:356-367 | a string of commas and white space yields no address |
| Service.SplitCsvEmails | internal/service/services.go:356-367 | the loop computes CsvEmails |
| Service.EmailRecipients | internal/service/services.go:289-297 | SendEmail proceeds iff it is enabled with host, non-zero port, user name, password and To set, and To yields at least one address; it then sends to exactly those addresses |
| Service.BlankToSendsNothing | internal/service/services.go:290-297 | a To field of commas and white space sends nothing |
| Service.RecipientsAreTrimmed | internal/service/services.go:294-297 | every recipient handed to SMTP is non-empty and trimmed |
| Service.PlainHeaderLines | internal/service/services.go:370-375 | the five header fields of the message, none of them empty |
| Service.BuildPlainEmail | internal/service/services.go:369-379 | as written: the five header fields joined by CRLF, then one CRLF, the body and a final CRLF |
| Service.HeaderLinesAreSingleLines | internal/service/services.go:370-377 | the header fields are non-empty single lines when their inputs are |
| Service.PlainEmailHasNoBlankLine | internal/service/services.go:369-379 | as written, a one-line message contains no empty line at all, so no header/body separator |
| Service.PlainEmailExample | internal/service/services.go:369-379 | a concrete message with no empty line |
| Service.BuildPlainEmailSeparated | internal/service/services.go:369-379 | corrected: the header fields, an empty line, then the body and a final CRLF |
| Service.SeparatedEmailSplitsAtBlankLine | internal/service/services.go:369-379 | corrected: the first empty line comes right after the header fields, and everything after it is the body and the final CRLF |
| Service.Matches | internal/service/services.go:118-120 | a record matches when the lower-cased query occurs in its lower-cased name, content or type; the empty query matches every record |
| Service.Search | internal/service/services.go:115-124 | a record is in the result iff it is listed and matches; the result is never longer than the input |
| Service.SearchConcat | internal/service/services.go:115-124 | a single record is kept iff it matches, and searching a concatenation gives the two searches in order, so matching records keep their order and every occurrence is kept |
| Service.SearchRecords | internal/service/services.go:115-124 | the filter loop computes Search |
| Service.EmptyQueryKeepsAll | internal/service/services.go:116-122 | an empty query keeps every record |
| Service.SearchIgnoresQueryCase | internal/service/services.go:116 | the search gives the same records for a query and its lower-cased form |
| Api.AuthGate | internal/api/handler.go:82-107 | a request passes iff no token is stored or its cookie equals the stored token |
| Api.CheckAuth | internal/api/handler.go:122-157 | setup is needed iff no token is stored, and the caller counts as authenticated iff the middleware would let the request through |
| Api.Login | internal/api/handler.go:160-190 | a missing or empty token is a 400; with no stored token the submitted one is stored; a different token is a 401; success sets the cookie to the token, and a failure changes nothing |
| Api.LoginGrantsAccess | internal/api/handler.go:160-190 | a successful login hands out a cookie the middleware accepts |
| Api.StoredTokenIsFinal | internal/api/handler.go:170-181 | once a token is stored no login replaces it, and any other cookie is refused |
| Api.DefaultCheckType | internal/api/handler.go:311-313 | an empty check type becomes exactly "ping"; any other is kept |
| Api.AddDefaults | internal/api/handler.go:308-313 | an empty id becomes `freshId` and a non-empty one is kept; an empty check type becomes "ping" and another is kept; nothing else changes |
| Api.UpdateDefaults | internal/api/handler.go:328-331 | the id is the path's; an empty check type becomes "ping" and another is kept; nothing else changes |
| Api.PingDefaultEnablesWatchdog | internal/api/handler.go:311-313 | for an empty check type the default keeps the ping probe but turns on the backup watchdog |
| Api.AddMonitor | internal/api/handler.go:302-320 | the defaulted monitor is upserted and its id runs a fresh monitor; other ids keep their monitor objects; its schedule loop runs iff scheduling is enabled with a positive period, and the other ids' loops stay; no callback is recorded |
| Api.UpdateMonitor | internal/api/handler.go:322-338 | the monitor under the path id is upserted and restarted fresh; other ids keep their monitor objects; its schedule loop runs iff scheduling is enabled with a positive period, and the other ids' loops stay; no callback is recorded |
| Api.DeleteMonitor | internal/api/handler.go:340-348 | the monitor is deleted from the store and unregistered from the engine with its schedule loop; the other ids' monitors and loops stay; no callback is recorded |
| Api.CredentialsUsable | internal/api/handler.go:201-205 | credentials are usable with an API token, or else only with both an API key and an e-mail |
| Api.RestoreRejection | internal/api/handler.go:392-405 | the handler goes on iff the body is JSON (or empty), the monitor is known and has a zone; every rejection is a 400 or a 404, and a 404 exactly for an unknown monitor |
| Api.RestoreProxied | internal/api/handler.go:412-415 | a proxied flag in the request wins; without one, the original IP's CDN setting is used |
| Api.PlannedUpdates | internal/api/handler.go:424-429 | one update per subdomain, in order, to the original IP with the chosen proxied flag |
| Api.PushUpdates | internal/api/handler.go:424-429 | all subdomains are updated in order iff none fails; otherwise the updates stop right after the first failing one |
| Api.FinishRestore | internal/api/handler.go:407-440 | the engine's monitor is restored first; then without usable credentials a 500; a failing update a 500; otherwise a 200 and the restore logged with the from-IP falling back to the backup IP, history bounded to 200 |
| Api.PublishRestore | internal/api/handler.go:408-440 | the steps after ForceRestore meet RestoreFinished |
| Api.RestoreMonitor | internal/api/handler.go:386-446 | a non-JSON body is a 400, an unknown monitor a 404 and a monitor without zone a 400, all before ForceRestore and changing nothing; otherwise the FinishRestore outcome |
| Api.StatusOfflineHot | internal/api/handler.go:448-504 | offline_hot over the newest 2000 IP-down events: sorted, each entry hot and equal to its group's aggregate over the day's events, every hot group present, none twice |
| Api.ChronologicalLogScansTheDay | internal/api/handler.go:451-475 | with the log appended in time order, the scan reads exactly the listed events of the day |
| OfflineHot.TodayCount | internal/api/handler.go:471-475 | the scan reads the events before the first one older than the start of the day |
| OfflineHot.ScanReadsTheWholeDay | internal/api/handler.go:471-475 | on a newest-first list the scanned events are exactly those of the day |
| OfflineHot.LastAtOf | internal/api/handler.go:488-490 | the group's timestamp is at least 0 and the largest of its events, taken by one of them unless it is 0 |
| OfflineHot.AggregateSnoc | internal/api/handler.go:476-490 | one more event changes only its own group: counted once more, newest timestamp kept, name set at the first event |
| OfflineHot.NameComesFromGroup | internal/api/handler.go:478-486 | a group's name is that of one of its events |
| OfflineHot.KeysOf | internal/api/handler.go:476-486 | a key has a group iff some scanned event has it |
| OfflineHot.GroupsSnoc | internal/api/handler.go:476-490 | appending an event replaces only the group of its own key |
| OfflineHot.TallyStep | internal/api/handler.go:476-490 | one iteration of the first loop turns the groups of a prefix into those of the next prefix |
| OfflineHot.Tally | internal/api/handler.go:470-491 | the first loop reads exactly the day's events and ends with their groups |
| OfflineHot.SelectHot | internal/api/handler.go:493-498 | every group counted at least 3 times, each once, and nothing else |
| OfflineHot.InsertHot | internal/api/handler.go:499-504 | insertion keeps every element and adds the new one |
| OfflineHot.InsertHotSorted | internal/api/handler.go:499-504 | inserting into a sorted list keeps it sorted |
| OfflineHot.SortHot | internal/api/handler.go:499-504 | the result is a permutation ordered by count descending, then last timestamp descending |
| OfflineHot.OfflineHotList | internal/api/handler.go:470-504 | sorted; each entry counted at least 3 times and equal to its group's aggregate over the day's events; every such group present; none twice |

## Left out

- Probes: ping, HTTP and TCP checks and the backup pinger, including the 60% packet-loss rule. They are network I/O; each outcome is an input.
- The TCP check calls `net.DialTimeout` without importing `net`. The probes are not modelled, so this does not show in the model.
- Concurrency: the `run` and `runSchedule` ticker loops, contexts, mutexes and goroutines. Each tick is one sequential step. `Engine.cancels` and `Engine.scheduleLoops` record which loops are live.
- Callback delivery: callbacks run as goroutines, so their delivery order is not guaranteed. The model records them in launch order.
- `Engine.GetStatus` and the monitors, history and system parts of the GetStatus handler: display snapshots only. The history is `Store.ListSwitchHistory`.
- File I/O: `Load`, `Save` and `saveLocked`, with JSON (un)marshalling. Every save is taken to succeed, so no store error and no handler 500 caused by a save is modelled. `cloneConfig` is only a deep copy.
- Remote services: the Cloudflare API calls of `DNSService`, DingTalk signing and posting, Telegram, the SMTP/TLS delivery of SendEmail, and the `Notify` fan-out after a restore. `UpdateRecordBySubdomain` is reduced to "fails or not", decided by the set `failing`.
- `buildHTMLEmail`: it reads `time.Now` and fills a fixed template. Its header lines are assembled the same way as in `buildPlainEmail`, so the finding below applies to it as well.
- Web-framework parts of the handlers: routing, JSON binding (reduced to "not JSON" and an absent field), responses, `GenerateToken` (random), `runtime.MemStats`, and cookie lifetime and flags.
- `cmd/server/main.go`: process wiring and the callback closures that write history and notify. main.go is not part of this model.
- Text.ToLower: lowers ASCII letters only, because Go's full Unicode case mapping has no counterpart here.
- OfflineHot.SelectHot: Go ranges over the map in an unspecified order; the model picks keys with `:|`, so the order before sorting is left open, as it is in Go.
- OfflineHot.SortHot: sorts a copy, not in place as `sort.Slice` does. Entries tied in both count and timestamp may come in any order, as with Go's unstable sort.
- OfflineHot.OfflineHotList: timestamps are compared as milliseconds against `startOfDay` in milliseconds. Computing the start of the day from the local clock and time zone is left to the caller.
- Api.AddMonitor: the generated id (`time.Now().UnixNano()`) is the parameter `freshId`.
- Api.RestoreMonitor: an empty request body counts as JSON without a `proxied` field, as `io.EOF` is accepted. The restore's timestamp is the parameter `now`.

## Findings

| source | as written | input that shows it | evidently intended | confidence | as-written member | corrected member |
|---|---|---|---|---|---|---|
| internal/service/services.go:369-379 | the header lines end with one empty string and are joined by CRLF, so a single CRLF separates the last header field from the body | from "ops@example.com", to ["admin@example.com"], subject "failover", body "switched": the message has no empty line, so the body line reads as one more header field and the body is empty (section 2.1 of RFC 5322 requires an empty line between header section and body) | one more empty string in the header lines, giving CRLF CRLF before the body | not executed | Service.PlainEmailHasNoBlankLine | Service.SeparatedEmailSplitsAtBlankLine |
