# Verified model of the frp control plane

A small control plane for frp: a server keeps the desired tunnels of every gateway and a config version per
gateway in SQLite; an agent on each gateway pulls that state, renders `frpc.toml`, restarts `frpc` and records the
version it applied. Nothing ties a tunnel's row change to the bump of the version, nor the version a pull reads to
the rows it reads, so what the system promises rests on the order of single statements. This project models that
system and proves what it promises, after any interleaving and any faults.

Run `dafny verify dfyconfig.toml`.

## Layout

| file | what it models |
|---|---|
| `Text`, `Decimal`, `Seqs` | strings as Go orders, trims and splits them; numerals; sequences and multisets |
| `Rules`, `NameLaws` | names, hosts, domains and slugs, of which server and agent carry copies; reference readings of them |
| `Render`, `Toml`, `RoundTrip` | the `frpc.toml` printer, an independent reader written from TOML v1.0.0 (sections "String", "Integer", "Array of Tables"), and what reading printed files gives |
| `Data` | tunnel rows, config responses, `toProxies` |
| `Protocol`, `ProtocolInvariant`, `ProtocolTheorems` | the config-version protocol as a state machine, its invariant, and its theorems |
| `ProtocolCounts` | what the protocol does once for each time it is asked to; what a restart forgets; what untouched tunnels are promised |
| `ProtocolLimits` | reachable states that mark where those theorems end, and what brings the system back |
| `Database`, `TunnelService`, `TunnelRules`, `TunnelLaws` | the store's statements, the tunnel service's operations, their guarantees, and their answers field by field and column by column |
| `Times`, `Janitor`, `Health`, `ServerPublish`, `GatewayApi` | text timestamps, the TTL sweep, health reports, server-side publishing, registration and config |
| `ServerRuns`, `ServerRefines` | sequential runs of all operations on the database; each one is a run of the protocol machine |
| `Agent`, `AgentRefines` | the agent's objects, call by call; a `SyncOnce` call is one path of the protocol machine |
| `EndToEnd` | from database rows to the bytes frpc reads |

## How the protocol is modelled

A step of `Protocol.Next` is one SQL statement, one effect of the agent, or one fault. Any number of creations,
updates, deletions and janitor disablings of any gateway are in flight at once; each changes its row in one step and
raises the version in a later one. A failed bump is an operation that takes no further step. A pull reads the version
in one step and the rows in a later one. `SyncOnce` holds its lock from `Begin` until it returns; the pull, the
write, verify or rename, the start and the save of the state may each fail; frpc may exit and the agent may crash and
restart at any point. `main` runs one sync before its loops start. Heartbeats, the one-place trigger slot, `Run` and publish calls
interleave freely. The theorems quantify over every reachable state, or over every run.

`Database.Store`, `TunnelService.Service`, `Agent.State`, `Agent.Manager` and `Agent.Synchronizer` are classes whose
methods change their fields step by step as the Go code does. Each method is proved against a function from the old
contents and the method's faults to the new contents; the properties of those functions are lemmas beside them.

## Where the code and its documentation differ

The code is followed.

- `agent/internal/sync/sync.go:108` says the next heartbeat re-syncs after a version could not be persisted. It does
  not: the version in memory is already the new one, so heartbeats ask for a sync exactly when the server's version
  has moved on (`ProtocolTheorems.FailedSaveUnnoticed`). Until then the state file stays behind while frpc runs. A
  later call with the same version repairs it exactly when it finds frpc down and nothing fails
  (`Agent.SaveRepairedExactly`, `Agent.FailedSaveRepaired`).
- `agent/internal/publish/publish.go:41-43` and `docs/AI_PUBLISH.md:78-80` say the next heartbeat-driven sync reconciles
  a tunnel answered "pending_sync". A heartbeat compares versions and nothing else
  (`server/internal/gateway/gateway.go:154-158`), so none asks for a sync when an earlier sync had already recorded the
  version, frpc then exited, and the pull of the publish call's own sync failed: the tunnel is enabled, its creation
  complete, and frpc down (`ProtocolLimits.PendingUnservedReachable`). That stays so, however many heartbeats pass, until
  a sync begins or the agent restarts (`ProtocolLimits.HeartbeatsDoNotHelp`). Between syncs, while heartbeats ask for
  none, a pending tunnel is served exactly when frpc runs (`ProtocolTheorems.PendingIsReconciled`). In the other case the
  loop's own tick repairs it (`ProtocolLimits.TickServesPending`).
- `server/internal/gateway/gateway.go:182` says only non-expired tunnels are returned. The query filters on `enabled`
  alone, so an expired tunnel is returned until a sweep has come by (`Janitor.ExpiredServed`,
  `Janitor.ExpiredAtItsTime`). A response holds none exactly when the gateway has no expired enabled tunnel
  (`Janitor.ListsNoneExpiredExactly`), which a fault-free sweep brings about (`Janitor.ServedAfterSweep`).
- `agent/internal/publish/publish.go` answers "ok" when the sync succeeded. The published tunnel is then among the rows
  frpc's configuration was made from, unless a later change removed it. Its block is in the file exactly when it is
  the block of the row chosen for its name: the first valid row in stable name order among those that sanitise alike
  (`EndToEnd.PublishedIsConfigured`). Two things put another row first. A name with a hyphen in front sanitises to the
  same and sorts first (`EndToEnd.ShadowReachable`); after sequential operations nothing else can
  (`EndToEnd.SlugServed`). And two concurrent creations under one name and domain can both pass the checks and leave two
  valid rows of one name (`EndToEnd.TwinsReachable`), of which the later listed is skipped
  (`EndToEnd.LaterTwinSkipped`).
- Hosts are trimmed before they are checked and printed untrimmed. A trailing carriage return passes every check
  and makes the whole file unreadable (`EndToEnd.CarriageReturnPasses`, `EndToEnd.UnprintableHostBreaksFile`).

## Model

| member | source | states |
|---|---|---|
| ProtocolInvariant.ResponseFresh | server/internal/gateway/gateway.go:190-200 | reading the version first makes a response sound whatever happened between the two reads: its version was reached, its rows are the rows if nothing moved since, and it holds every enabled creation its version covers |
| ProtocolInvariant.ResponseStep | server/internal/tunnel/service.go:163-168 | no server statement of any mutation, of any gateway, ever makes a sound response unsound |
| ProtocolInvariant.ServerStep | server/internal/database/tunnels.go:130-188 | every server statement keeps ids fresh, operations attached to their rows and gateways, and completed creations intact until another statement addresses them |
| ProtocolInvariant.Step | agent/internal/sync/sync.go:71-112 | every step of server or agent, faults included, keeps the whole invariant |
| ProtocolInvariant.ReachableInv | agent/internal/sync/sync.go:71-112 | the invariant holds in every reachable state |
| ProtocolTheorems.Agreement | agent/internal/sync/sync.go:71-112 | in every reachable state: lock free, frpc running, equal versions and no mutation of the gateway between row change and bump imply that the running configuration is made of exactly the gateway's enabled rows, and `frpc.toml` is that same configuration |
| ProtocolTheorems.PendingBreaksAgreement | server/internal/tunnel/service.go:257-267 | without the condition on pending mutations agreement fails: from any agreeing state with a tunnel, a deletion whose bump has not come leaves versions equal and the deleted tunnel served |
| ProtocolTheorems.LostBumpStaysServed | server/internal/tunnel/service.go:262-267 | how long: after a deletion whose bump is lost, every run that touches the gateway with no further statement and in which neither frpc nor the agent ends leaves the deleted tunnel served and `need_sync` false |
| ProtocolTheorems.StaleStays | server/internal/gateway/gateway.go:154-158 | the same for any wrong configuration under matching versions |
| ProtocolTheorems.RowsFirstIsUnsound | server/internal/gateway/gateway.go:190-200 | were the rows read first and the version last, a creation in between would give a response that is unsound with nothing pending, while the code's order gives a sound one |
| ProtocolTheorems.PublishOk | agent/internal/publish/publish.go:44-66 | whenever a publish call has returned "ok", on either path, the configuration its frpc had read holds the created tunnel as created, unless a later statement addressed the row before it was listed |
| ProtocolCounts.UntouchedIsServed | agent/internal/publish/publish.go:44-66 | without the history: along every run from a fresh install in which no update, deletion or sweep has picked the created tunnel, a call that returned "ok" did so on a configuration that holds its row as created |
| ProtocolTheorems.SuccessMeansRunning | agent/internal/sync/sync.go:82-111 | at the step where `SyncOnce` returns success, the response it answers for is the file's, is the running frpc's (on the reload path unless frpc has exited since), and has the recorded version |
| ProtocolTheorems.ReachableOutcome | agent/internal/publish/publish.go:53-57 | at the step that answers a publish call the answering configuration is a duplicate-free listing of enabled rows and holds the call's tunnel |
| ProtocolTheorems.RunningIsRecorded | agent/internal/sync/sync.go:87-111 | whatever failed before: until a sync replaces the file, a running managed frpc was started from the response whose version memory holds, the file is still that response's, and the version was applied |
| ProtocolTheorems.NoLostWakeup | agent/internal/sync/sync.go:46-51 | in every reachable state: after any trigger the slot is full, or `Run` holds the token, or a sync has begun since |
| ProtocolTheorems.WakeupServed | agent/internal/sync/sync.go:115-128 | a trigger that no sync has followed can be answered within two steps of the loop once the lock is free; that the token is then gone is `ProtocolCounts.TokensUsedOnce` |
| ProtocolCounts.TriggerWaits | agent/internal/sync/sync.go:46-51 | no wake-up is lost, told by events: from every reachable state, after an answer that asks for a sync the wake-up waits in the slot or in `Run`'s hands along every run, whichever other syncs run meanwhile, until `Run` itself begins one |
| ProtocolCounts.WokenServed | agent/internal/sync/sync.go:115-128 | and `Run` can begin it within two steps once the lock is free |
| ProtocolCounts.TokensUsedOnce | agent/internal/sync/sync.go:115-128 | and none is used twice: along every run from any state the tokens `Run` takes, plus one if the slot is full at the end, are at most the answers that asked for a sync, plus one if the slot was full at the start |
| ProtocolCounts.NoTriggerNoToken | agent/internal/sync/sync.go:115-128 | along a run without such an answer at most one token is taken, and after it the slot stays empty |
| ProtocolCounts.SyncsAsked | agent/internal/sync/sync.go:115-128 | the syncs the loop begins never exceed the ticks and tokens it took, and equal them, but for one still owed, along every run in which the agent does not end |
| ProtocolCounts.BeatsAnswered | agent/internal/heartbeat/heartbeat.go:26-38 | along every run without a restart the answers and failures of heartbeats equal the heartbeats, but for the one in flight |
| ProtocolCounts.CallSyncsOnce | agent/internal/publish/publish.go:44-57 | along every run without a restart a publish call's syncs equal its returned creations, but for one about to begin |
| ProtocolCounts.StartupAlone | agent/cmd/gateway-agent/main.go:64-103 | in every reachable state between the agent's start and the end of `main`'s own sync there is no heartbeat, trigger, publish call or other sync |
| ProtocolCounts.RestartForgets | agent/internal/config/state.go:25-39 | a start takes the state file's version, manages no frpc, empties the slot and knows no calls; a heartbeat then asks exactly when that version is behind the server's |
| ProtocolTheorems.StateFileSound | agent/internal/config/state.go:72-111 | at every crash point the state file is one complete snapshot, its version is zero or one whose `Apply` succeeded, and is at most memory's, which is at most the server's |
| ProtocolTheorems.VersionsMonotone | agent/internal/config/state.go:72-111 | along every run, crashes and restarts included, persisted and desired versions never decrease |
| ProtocolTheorems.SettledForever | server/internal/gateway/gateway.go:154-158 | once settled, any run without a mutation of the gateway, frpc exit or agent end keeps the same process and file, and every heartbeat finds `need_sync` false |
| ProtocolTheorems.SteadyForever | agent/internal/sync/sync.go:82-85 | while versions match and frpc runs, right configuration or wrong, every run without a mutation of the gateway, frpc exit or agent end keeps process, file and state file, and no heartbeat asks for a sync |
| ProtocolTheorems.FailedSaveUnnoticed | agent/internal/sync/sync.go:106-109 | along every run that follows a failed save, until a sync records a version again or the agent is started anew, the state file stays as it was and a heartbeat asks for a sync exactly when the server's version has moved past the response's |
| ProtocolTheorems.SettledStep | agent/internal/sync/sync.go:82-85 | a settled system stays settled under every calm step, through the fast path |
| ProtocolTheorems.SyncConverges | agent/internal/sync/sync.go:71-112 | over a quiet server a `SyncOnce` without faults ends settled, whatever heartbeats, triggers, publish calls and other gateways' mutations interleave |
| ProtocolTheorems.SyncProgress | agent/internal/sync/sync.go:71-112 | a running `SyncOnce` can always take a clean step that brings it nearer its end |
| ProtocolTheorems.OneSyncSettles | agent/internal/sync/sync.go:71-128 | from every reachable state with the gateway quiet, the agent up and the lock free, the next `SyncOnce` the program has, of `main` at its start or of the loop's tick or token, reaches agreement in at most eleven steps |
| ProtocolTheorems.PendingIsReconciled | agent/internal/publish/publish.go:41-57 | what becomes of "pending_sync": in every reachable state between syncs in which a heartbeat asks for no sync, frpc's configuration holds the created tunnel as created (unless a later statement addressed the row before it was listed) exactly when frpc runs |
| ProtocolLimits.PendingUnservedReachable | agent/internal/publish/publish.go:41-57 | from a fresh install, for every enabled tunnel of the gateway: a state is reachable in which its publish call was answered "pending_sync", its creation is complete, nothing is pending, frpc is down, and no heartbeat asks for a sync |
| ProtocolLimits.PendingLost | agent/internal/sync/sync.go:75-85 | the way there from any settled state with a created tunnel: frpc exits, the call's sync begins, its pull fails |
| ProtocolLimits.HeartbeatsDoNotHelp | server/internal/gateway/gateway.go:154-158 | with frpc down and versions equal, every run without a mutation of the gateway, a new sync or the agent's end keeps frpc down and triggers no sync, however many heartbeats it has |
| ProtocolLimits.TickServesPending | agent/internal/sync/sync.go:115-128 | over a quiet gateway the program's own next sync serves a pending tunnel in at most eleven steps |
| ProtocolLimits.OneVersionTwoLists | server/internal/gateway/gateway.go:190-200 | a version does not determine its rows: a pull before and one after a deletion whose bump has not come read the same version and different rows, both in reachable states |
| ProtocolTheorems.HeartbeatSettles | agent/internal/heartbeat/heartbeat.go:26-38 | from every reachable state with the gateway quiet, the lock free, the loop waiting, no heartbeat in flight and versions that differ, one heartbeat, its answer and the loop taking the token lead to a `SyncOnce` that reaches agreement in at most nine more steps |
| ProtocolTheorems.NeverRunsUnrenderable | agent/internal/frpc/render.go:40-46 | without a usable server address and port no frpc is ever started and no file written, along every run |
| AgentRefines.SyncRefines | agent/internal/sync/sync.go:71-112 | a `SyncOnce` call is a run of the whole machine from any reachable state, with any mutations between its reads of version and rows and every outcome of apply and save: it ends in a reachable state whose view is the method's specification's, and the publish call it ran for is "ok" exactly when the specification says success |
| AgentRefines.FailedPullRefines | agent/internal/sync/sync.go:75-79 | so is a call whose pull fails, before or after the rows were read: the specification without a reply, and the publish call pending |
| AgentRefines.RestRefines | agent/internal/sync/sync.go:80-111 | from the version on, view and success of the specification are those of the machine's path for every fault |
| ServerRefines.OpRefines | server/internal/tunnel/service.go:163-168 | every sequential operation on the database, with any of its write faults, is a run of the protocol machine's server that ends with the same rows and versions |
| ServerRefines.LoopRefines | server/cmd/control-api/main.go:165-171 | the janitor's loop is one disabling operation of the machine per tunnel |
| Agent.State.Save | agent/internal/config/state.go:81-111 | the file becomes the snapshot of memory or stays; every content it has meanwhile is the old or the new whole one; memory is untouched |
| Agent.State.SetConfigVersion | agent/internal/config/state.go:72-77 | memory takes the version even when the save fails; the file is the new snapshot exactly on success |
| Agent.State.Load | agent/internal/config/state.go:25-39 | loading gives back what was saved; a missing file gives an unregistered state, a damaged one an error |
| Agent.Manager.WriteConfig | agent/internal/frpc/process.go:62-80 | `frpc.toml` becomes the content, or stays when directory, temporary file, verification or rename fails; the process is untouched |
| Agent.Manager.StartLocked | agent/internal/frpc/process.go:136-160 | on success the current process has read exactly the installed file, or found none; on failure nothing changes |
| Agent.Manager.StopLocked | agent/internal/frpc/process.go:162-180 | afterwards there is no current process and the file is the same |
| Agent.Manager.Apply | agent/internal/frpc/process.go:52-59 | a config rejected before the rename leaves file and process alone; once installed, frpc runs exactly this text or is stopped |
| Agent.Synchronizer.SyncOnce | agent/internal/sync/sync.go:71-112 | view and result are those of the specification for every reply and fault; only the version of the state changes; every content of the state file meanwhile is a whole one |
| Agent.Synchronizer.Reload | agent/internal/sync/sync.go:101-111 | whatever was rendered and whatever fails, view and result are those of the specification |
| Agent.Synchronizer.Trigger | agent/internal/sync/sync.go:46-51 | afterwards the slot is full, and nothing else has changed |
| Agent.Synchronizer.FrpcExits | agent/internal/frpc/process.go:149-157 | when frpc ends by itself the view loses the running text and nothing else |
| Agent.Synchronizer.Beat | agent/internal/heartbeat/heartbeat.go:26-38 | the slot is full afterwards exactly if it was or the server answered `need_sync`; a failed heartbeat changes nothing |
| Agent.Publish | agent/internal/publish/publish.go:44-66 | without a created tunnel nothing happens; else the answer is "ok" exactly when the sync that follows succeeds |
| Agent.FailedSync | agent/internal/sync/sync.go:75-104 | a failed call keeps the recorded version and the state file, and either file and process too, or leaves frpc stopped so that the next call retries |
| Agent.SuccessfulSync | agent/internal/sync/sync.go:82-111 | a successful call leaves frpc running and the recorded version equal to the reply's; unless the fast path was taken frpc runs the rendering of the reply |
| Agent.SyncTwice | agent/internal/sync/sync.go:82-85 | a second call with the same reply succeeds and changes nothing, whatever would have failed in it |
| Agent.FailedSaveStays | agent/internal/sync/sync.go:106-109 | after a failed save the call still succeeds and memory has the new version; the state file keeps the old one, and the next call with that reply does nothing while frpc runs |
| Agent.SaveRepairedExactly | agent/internal/sync/sync.go:82-111 | a call with the recorded version writes a state file that is behind exactly when frpc is down, the settings are usable and apply and save succeed |
| Agent.FailedSaveRepaired | agent/internal/sync/sync.go:82-111 | the input: after a failed save frpc exits, and the same reply without faults saves the version |
| Agent.CleanSync | agent/internal/sync/sync.go:71-112 | without faults a call succeeds exactly when the pull did and the settings are usable or nothing needed doing |
| Data.ToProxies | agent/internal/sync/sync.go:131-147 | the loop returns the proxies of its list |
| Data.ProxyColumns | agent/internal/sync/sync.go:131-147 | which those are: the enabled tunnels' and no others', in order, each with its tunnel's name, type, target host and port, domain and remote port |
| Data.ProxiesEnabled | agent/internal/sync/sync.go:131-147 | a list of enabled tunnels passes one for one |
| Data.ListingPermutation | server/internal/database/tunnels.go:101 | two listings of the same enabled rows give the same proxies up to order |
| Frpc.Render | agent/internal/frpc/render.go:40-110 | errors, text and warnings are those of the specification for every input |
| Frpc.WriteProxies | agent/internal/frpc/render.go:58-107 | the loop writes the accepted blocks after the header and collects the warnings of the selection, for any way of judging a proxy and writing a block |
| Frpc.StableSortSorts | agent/internal/frpc/render.go:48-50 | the sort orders by name, keeps the multiset, and keeps proxies of one name in order |
| Frpc.StableSortUnique | agent/internal/frpc/render.go:48-50 | nothing else meets the contract of a stable sort |
| Frpc.StableSortPermutation | agent/internal/frpc/render.go:48-50 | with distinct names permutations sort to the same list |
| Frpc.RenderPermutation | agent/internal/frpc/render.go:48-110 | with distinct names text and warnings are the same for every permutation of the proxies |
| Frpc.JudgeMeaning | agent/internal/frpc/render.go:61-105 | a proxy is a candidate exactly when its sanitised name is non-empty and host, ports and domain are valid for its type, and then for its own block |
| Frpc.JudgeReasons | agent/internal/frpc/render.go:61-105 | an invalid proxy is reported for the first of its faults in the order name, host, port, type, public end |
| Frpc.ScanPicks | agent/internal/frpc/render.go:58-107 | the emitted blocks are exactly the first valid ones of each sanitised name in sorted order, and blocks plus warnings equal the proxies: an invalid namesake never keeps a valid proxy out |
| Frpc.ScanDistinct | agent/internal/frpc/render.go:66-69 | emitted names are pairwise distinct |
| Frpc.NoWarnings | agent/internal/frpc/render.go:58-107 | no warning exactly when all proxies are valid and their sanitised names distinct; then one block per proxy |
| Frpc.EmittedIffLeads | agent/internal/frpc/render.go:48-107 | for any proxies, names distinct or not: exactly the blocks of those valid proxies are emitted that no valid proxy of the same sanitised name precedes, by lesser name or by equal name and earlier position |
| Frpc.EmittedExactly | agent/internal/frpc/render.go:58-107 | among proxies with distinct names and blocks, a valid one is emitted exactly when its name is least among those sanitised to the same |
| RoundTrip.ReadEscape | agent/internal/frpc/render.go:137-140 | a TOML reader gets the quoted string back, or refuses it exactly when it holds a control character other than tab and newline |
| RoundTrip.ReadPrinted | agent/internal/frpc/render.go:52-106 | reading a printed file gives back address, port, token and blocks in order exactly when every string is printable, and otherwise fails |
| RoundTrip.RenderRoundTrip | agent/internal/frpc/render.go:40-110 | the same for the output of `Render`: frpc reads exactly what the loop accepted |
| Toml.ReadLineOf | agent/internal/frpc/render.go:53-56 | a line `key = value` defines that key as its value text reads, in whatever table is current |
| Toml.DefinedTwice | agent/internal/frpc/render.go:53-56 | a key that the current table has already is refused, as TOML demands, so what reads back was written once |
| Decimal.ParsePrint | agent/internal/frpc/render.go:54 | reading a printed number gives the number back |
| Rules.SanitizeAccepted | agent/internal/frpc/render.go:113-115 | on names the server accepts, the agent's sanitising removes edge hyphens and nothing else |
| Rules.SanitizeFixedPoint | agent/internal/frpc/render.go:113-115 | an accepted name is kept exactly when no hyphen is at an edge |
| Rules.SanitizeIdempotent | agent/internal/frpc/render.go:113-115 | sanitising twice is sanitising once, for every input |
| Rules.SanitizeKeeps | agent/internal/frpc/render.go:113-115 | sanitising keeps every letter, digit and underscore, in order, for every input |
| NameLaws.SanitizeJoins | agent/internal/frpc/render.go:113-115 | between two accepted texts without hyphens at the outer ends, a run of characters that are not allowed, however long, becomes one hyphen, and nothing else changes |
| Rules.HostnameGrammar | server/internal/tunnel/service.go:70 | the label-by-label predicate is the regular expression's language: exactly the texts that a non-empty list of labels joined by dots makes, each from one list |
| NameLaws.LabelIsName | server/internal/tunnel/service.go:69-70 | the two expressions agree: a host label is a tunnel name without underscores, of at most 63 characters, with no hyphen at an end |
| NameLaws.HostAccepted | server/internal/tunnel/service.go:287-296 | a host is accepted exactly when without surrounding blanks it is an IP address or labels joined by dots |
| NameLaws.DomainAccepted | server/internal/tunnel/service.go:298-304 | a domain is accepted exactly when without surrounding blanks it is at least two labels joined by dots |
| Rules.SlugifyKeeps | server/internal/publish/publish.go:190-194 | the slug keeps every letter and digit of the lower-cased name, in order, for every input |
| NameLaws.SlugifyWords | server/internal/publish/publish.go:190-194 | what `slugify` is: the maximal runs of letters and digits of the lower-cased text joined by single hyphens, whatever stood between, before or after them |
| NameLaws.LowerLetters | server/internal/publish/publish.go:191 | capitals move to the small letters, slug characters stay, and only letters, digits and two foreign signs become slug characters |
| Rules.SlugifyGivesSlug | server/internal/publish/publish.go:190-194 | the result is empty or words over `[a-z0-9]` joined by single hyphens, for every input |
| Rules.SlugifyFixedPoint | server/internal/publish/publish.go:190-194 | slugs are kept |
| Rules.SlugIsStableName | server/internal/tunnel/service.go:69 | every slug is a legal tunnel name and a fixed point of the agent's sanitising |
| Rules.SlugDomain | server/internal/tunnel/service.go:298-304 | slug, dot, suffix passes `validDomain` exactly when the slug has at most 63 characters and the suffix, without trailing blanks, is a host name |
| Database.Store.CreateTunnel | server/internal/database/tunnels.go:11-33 | inserts the row, and fails without effect on a fault or a used id |
| Database.Store.UpdateTunnel | server/internal/database/tunnels.go:130-164 | writes back the patched row, or fails without effect; what a patched row is says `TunnelLaws.UpdateExactly` |
| Database.Store.SetTunnelEnabled | server/internal/database/tunnels.go:167-171 | changes the flag of that row and nothing else |
| Database.Store.DeleteTunnel | server/internal/database/tunnels.go:174-188 | removes the tunnel and its health row together or not at all |
| Database.Store.EnsureConfigVersion | server/internal/database/configversion.go:11-20 | starts a missing version at 1 and keeps an existing one |
| Database.Store.BumpConfigVersion | server/internal/database/configversion.go:35-48 | raises the version by one, a missing one to 1; a failure may come before or after that |
| Database.Store.UpsertHealthCheck | server/internal/database/health.go:9-25 | the tunnel's status is the given one, all others stay |
| TunnelService.Service.AllocateRemotePort | server/internal/tunnel/service.go:176-188 | the least unused port of the range, or a conflict exactly when every port is used |
| TunnelService.AllocateSucceeds | server/internal/tunnel/service.go:176-188 | by pigeonhole it succeeds while fewer tunnels hold ports of the range than it has |
| TunnelService.Service.Create | server/internal/tunnel/service.go:75-173 | result and database are those of the specification for every request, id and fault; what that is say `TunnelLaws.TcpCreated`, `HttpCreated`, `CreateRefused` and `CreateFaults` |
| TunnelService.Service.Update | server/internal/tunnel/service.go:200-254 | the same for a partial update, with `TunnelLaws.UpdateExactly` and `UpdateFaults` |
| TunnelService.Service.Delete | server/internal/tunnel/service.go:257-271 | the same for a deletion, with `TunnelLaws.DeleteExactly` |
| TunnelLaws.TcpCreated | server/internal/tunnel/service.go:84-168 | exactly which requests of lower-cased type "tcp" are created on a registered gateway, and the row: name trimmed, target as asked, no domain, the port asked for or the least free one of the range, enabled unless switched off; all other tables as before but the version one higher |
| TunnelLaws.HttpCreated | server/internal/tunnel/service.go:84-168 | the same for "http": the domain asked for, which must be valid and free, and no port |
| TunnelLaws.CreateRefused | server/internal/tunnel/service.go:75-161 | which error every refused creation gets, for every type: unknown gateway, then the form of the request, then the name, then the form of what the type needs, then its freedom; and that nothing changes |
| TunnelLaws.CreateFaults | server/internal/tunnel/service.go:160-168 | a failed insert leaves nothing; after a failed bump the caller gets an error though the tunnel is stored |
| TunnelLaws.UpdateExactly | server/internal/tunnel/service.go:200-254 | exactly which updates are accepted; then each of the five columns is the patch's where it sets it and the old one where not, the others stay, that row alone is rewritten and the version is one higher |
| TunnelLaws.UpdateServes | server/internal/database/tunnels.go:130-164 | an accepted update that switches the tunnel off takes it out of the rows the gateway is served, on puts it in, and without the switch nothing comes or goes |
| TunnelLaws.UpdateFaults | server/internal/tunnel/service.go:237-250 | an unknown tunnel and failing statements: what is answered and what is left |
| TunnelLaws.DeleteExactly | server/internal/tunnel/service.go:257-271 | the tunnel and its health row go and nothing else does, the version of its gateway rises by one, and what failing statements answer and leave |
| TunnelRules.AdmitMeaning | server/internal/tunnel/service.go:75-161 | a creation is accepted exactly when the gateway exists, the request is well-formed, and name and domain or port are free or allocatable; with the fields of the request written out in `TunnelLaws.TcpCreated` and `TunnelLaws.HttpCreated` |
| TunnelRules.CreateErrors | server/internal/tunnel/service.go:75-161 | not-found exactly for an unknown gateway; conflict exactly for a well-formed request whose name, domain or port is contested or whose range is exhausted |
| TunnelRules.AdmittedRow | server/internal/tunnel/service.go:75-161 | an accepted row takes over what was asked for, with the requested or least free port, meets every rule and collides with no row in a unique column |
| TunnelRules.CreateKeeps | server/internal/tunnel/service.go:75-173 | creation keeps the rules and uniqueness, whatever fails, and leaves other tunnels as they are |
| TunnelRules.UpdateErrors | server/internal/tunnel/service.go:206-235 | exactly which updates are accepted and which are conflicts, with the blank domain and zero port passing unchecked |
| TunnelRules.UpdateKeeps | server/internal/tunnel/service.go:200-254 | an update keeps the rules and uniqueness and never moves a tunnel to another gateway |
| TunnelRules.CreateDelete | server/internal/tunnel/service.go:257-271 | deleting a tunnel just created restores every table; the version has risen by two |
| TunnelRules.UpdateUndo | server/internal/tunnel/service.go:200-254 | the opposite patch of an accepted update restores the row, exactly unless the old port lies beyond 65535, which is then refused |
| Times.Calendar | server/internal/database/db.go:77 | every number of seconds has a valid Gregorian reading that names it |
| Times.YearStartFormula | server/internal/database/db.go:77 | the readings are Gregorian: the days before a year are 365 each, one more for every fourth, less the hundredths, plus the four-hundredths |
| Times.MonthStartFormula | server/internal/database/db.go:77 | and the months have their lengths: counted from March, 153 days in every five |
| Times.SecondsOrder | server/internal/database/db.go:77 | readings compare field by field as the times they name |
| Times.TextOrder | server/internal/database/db.go:77 | for years 0000 to 9999 (section 5.1 of RFC 3339) the order of stored texts is the order of times cut to seconds |
| Times.ParseFormat | server/internal/database/db.go:77-84 | parsing a formatted time gives it back, cut to seconds |
| Times.FormatParse | server/internal/database/db.go:77-84 | formatting a parsed text gives that text back, so no other spelling and no day that does not exist is read |
| Times.FilterSound | server/internal/database/tunnels.go:230-234 | the SQL filter includes every expiry at or before now, none a full second or more later, and is exact in whole seconds |
| Times.ExpiryInRange | server/internal/publish/publish.go:122-128 | up to the year 9700 the present plus any 64-bit duration stays within four-digit years, so every stored expiry is one the order of texts is right for |
| Janitor.Sweep | server/cmd/control-api/main.go:159-175 | one tick disables the listed expired tunnels except those whose statement fails, changes no other field or tunnel, and raises each gateway's version by the number disabled and bumped |
| Janitor.SweepEffect | server/cmd/control-api/main.go:159-175 | without faults: exactly the enabled expired tunnels are disabled, and each version rises by exactly the number of its tunnels disabled |
| Janitor.SweepIdempotent | server/cmd/control-api/main.go:159-175 | a second sweep at the same time does nothing |
| Janitor.SweepOnTime | server/cmd/control-api/main.go:159-175 | a tunnel expiring at a given time stays enabled in a sweep exactly when that time is later in whole seconds |
| Janitor.SweptExactly | server/cmd/control-api/main.go:159-175 | any enabled tunnel, with an expiry or without, stays enabled in a sweep exactly when it has none or a later one in whole seconds |
| Janitor.ExpiredServed | server/internal/gateway/gateway.go:181-196 | an expired enabled tunnel is among the rows a config response lists |
| Janitor.ExpiredAtItsTime | server/internal/gateway/gateway.go:181-196 | any enabled tunnel with an expiry is an example, at that very time |
| Janitor.ListsNoneExpiredExactly | server/internal/gateway/gateway.go:181-196 | a response lists no tunnel expired at a time exactly when the gateway has no enabled one expired then |
| Janitor.ServedAfterSweep | server/cmd/control-api/main.go:159-175 | after a fault-free sweep a response lists exactly the gateway's enabled unexpired tunnels of before, unchanged |
| Health.Report | server/internal/health/health.go:55-87 | the checks before the first failing lookup or write have their full effect and the rest none; without a failure skipped names those whose tunnel was not found, and recorded plus skipped equals the checks sent |
| Health.UnknownNames | server/internal/health/health.go:57-62 | the skipped list holds the names of exactly the checks whose name no tunnel of the gateway has, in the order of the checks |
| Health.ReportReflects | server/internal/health/health.go:80-84 | a report keeps the events of every tunnel in step with its status changes into unhealthy |
| Health.ReportKeeps | server/internal/health/health.go:57-78 | health rows are written only for existing tunnels, and no other table changes |
| ServerPublish.ResolveDomain | server/internal/publish/publish.go:165-180 | on success subdomain, dot, suffix is a free domain and the subdomain the first free of ten candidates; it fails exactly when all ten are taken |
| ServerPublish.ResolvedDomain | server/internal/publish/publish.go:165-194 | the resolved subdomain is a legal name and a fixed point of the agent's sanitising, and its domain valid exactly when it fits one label and the suffix is a host name |
| ServerPublish.Publish | server/internal/publish/publish.go:88-161 | result and database are those of the specification for every request; what that is says `ServerPublish.PublishSucceeds` |
| ServerPublish.PublishSucceeds | server/internal/publish/publish.go:88-161 | exactly when publishing succeeds without faults: type blank or http, the subdomain or without one the name makes a slug, one of ten domains is free, the duration blank or readable, the request creatable; the row then: named after the subdomain, with its domain, enabled, expiring the duration asked for or the default after now, or never when that is not positive; a refused request changes nothing |
| ServerPublish.ResolvedFirst | server/internal/publish/publish.go:165-180 | which subdomain: the slug if its domain is free, else the slug with the first of nine suffixes that makes a free one, none exactly when all ten domains are held |
| ServerPublish.PublishedUntil | server/internal/publish/publish.go:117-128 | from the request to the sweep, up to the year 9700: a published tunnel stays enabled in a sweep exactly when now plus the duration asked for or the default is later in whole seconds, or that duration is not positive |
| GatewayApi.AllocateGatewayID | server/internal/gateway/gateway.go:294-314 | the first of nine candidates that no gateway has |
| GatewayApi.Register | server/internal/gateway/gateway.go:61-100 | the gateway row comes first and the version row second: which of them stands after each fault, and what the agent is told |
| GatewayApi.RegisterSucceeds | server/internal/gateway/gateway.go:61-108 | registration fails only when nine ids are taken; the id is new and a slug, with version 1 or the version an earlier row left |
| GatewayApi.RegisteredId | server/internal/gateway/gateway.go:282-314 | which id: the slug of the name, or "gateway" when that is empty, if free, else the same with the first of eight suffixes that makes a free one |
| GatewayApi.IdSlugIsSlug | server/internal/gateway/gateway.go:282-290 | whatever the name, the base id is a slug |
| GatewayApi.Config | server/internal/gateway/gateway.go:183-221 | without interference: the version and the enabled tunnels of that gateway, each once |
| ServerRuns.SequentialRules | server/internal/tunnel/service.go:75-271 | after every sequential run of all operations, whichever writes fail: names unique per gateway, non-empty domains and non-zero ports unique, every row within the rules, every gateway registered, health rows of existing tunnels |
| ServerRuns.IdentityForLife | server/internal/database/tunnels.go:152-159 | a tunnel not deleted keeps gateway, name, type and expiry along every run |
| ServerRuns.VersionRun | server/internal/database/configversion.go:35-48 | along every run versions never decrease, and while no bump is lost an equal version means that no tunnel of the gateway has changed |
| ServerRuns.MutationRaises | server/internal/tunnel/service.go:163-168 | a mutation without faults is refused without effect or raises its owner's version by exactly one and no other |
| ServerRuns.AlertsAreRises | server/internal/health/health.go:80-84 | over every run the unhealthy events of a tunnel number the changes into that status in its history, first report included, and its health row is the latest report since its last deletion |
| EndToEnd.TextOfRows | server/internal/database/tunnels.go:101 | with distinct names the rendered text does not depend on the order rows are listed in |
| EndToEnd.TextAgreement | agent/internal/sync/sync.go:71-112 | agreement at the level of bytes, for gateways with distinct tunnel names: `frpc.toml` and what the running frpc read are the rendering of the gateway's current enabled rows, in whichever order those are listed |
| EndToEnd.NoWarningsServed | agent/internal/sync/sync.go:87-99 | for rows the service accepted, no warning exactly when no update blanked a needed field, ports are at most 65535 and names differ beyond edge hyphens; then one block per tunnel |
| EndToEnd.SequentialNoWarnings | server/internal/tunnel/service.go:75-271 | the same exact condition on the rows that any sequential run of operations leaves |
| ServerRuns.TidyRunKeeps | server/internal/tunnel/service.go:200-254 | along every run in which no update blanks what its tunnel's type needs, with the port range within 65535, every http tunnel has a domain and every tcp tunnel a valid port, and names created clean stay clean |
| EndToEnd.TidyRunServed | agent/internal/frpc/render.go:58-107 | after every such run with no edge hyphen in the gateway's names: no warning, and as many blocks as enabled tunnels, among them every enabled tunnel's: its sanitised name, its own target host and port, and its domain or remote port |
| EndToEnd.TidyRunRead | agent/internal/frpc/render.go:40-110 | and that is what frpc reads from the file, when it is TOML at all, with the server's address, port and token |
| EndToEnd.ServedExactly | agent/internal/frpc/render.go:58-107 | a servable tunnel is configured exactly when no servable namesake up to edge hyphens sorts before it |
| EndToEnd.SlugServed | agent/internal/frpc/render.go:61-69 | among rows that meet the service's rules and uniqueness, a servable tunnel named by a slug is configured exactly unless a servable tunnel has its name with a hyphen in front |
| EndToEnd.ShadowReachable | server/internal/tunnel/service.go:90-107 | shadowing happens: wherever a tunnel named by a slug can be created, one with a hyphen before that name and another domain can be created after it, and shadows it |
| EndToEnd.ConfiguredExactly | agent/internal/frpc/render.go:48-107 | for any rows, unique or not: a block is emitted exactly when it is that of a valid row that no valid row of the same sanitised name is ahead of, by lesser name or by equal name and earlier listing |
| EndToEnd.LaterTwinSkipped | server/internal/tunnel/service.go:102-140 | of two valid rows with one name the later listed is skipped, and its block is missing unless it is the same as the other's |
| EndToEnd.TwinsReachable | server/internal/tunnel/service.go:102-140 | such rows arise: two http requests under one slug, each admitted against the same database, whose statements overlap, both run to their end and leave two valid enabled rows of one name on one gateway |
| ServerRefines.OverlapRuns | server/internal/tunnel/service.go:140-168 | two creations that have both passed their checks before either inserts run to their end whatever their rows, and leave both |
| EndToEnd.PublishedIsConfigured | agent/internal/publish/publish.go:44-66 | the whole way of a publish answered "ok" in the concurrent machine, unless a later statement addressed the row before it was listed: the configuration holds the row as created; and if its columns are valid and the file is readable TOML, the file has its block, of its sanitised name, own target host and port, and own domain or remote port, exactly when that is the block of the row chosen for its name, so always when it is chosen itself |
| EndToEnd.CarriageReturnPasses | server/internal/tunnel/service.go:287-296 | appending a carriage return to a host never changes the verdict of the host check, and makes it unprintable |
| EndToEnd.UnprintableHostBreaksFile | agent/internal/frpc/render.go:137-140 | one accepted tunnel with an unprintable host makes the whole file no TOML |

## Left out

- Random suffixes, fresh ids, the clock and the answers of the network are inputs. A fresh id is one never used before where that matters, and the random suffixes a loop may draw are given up front.
- Faults of reads in the tunnel service and the config pull's server side: a failing lookup answers with an internal error (or not-found in `Update` and `Delete`) before anything is written; an unparsable stored timestamp makes a read fail. In a health report a failing read of the previous status is ignored by the code, which then logs the event again.
- Concurrent service calls: uniqueness of names, domains and ports is proved for sequential runs only; the code has no lock or constraint for it. The protocol machine, which is concurrent, does not rely on it.
- `net.ParseIP`, `time.ParseDuration` and the choice among rows of one name in `GetTunnelByName` are parameters, quantified over.
- Unicode lower-casing beyond its ASCII results; invalid UTF-8; the wording of warnings, errors and log lines.
- Times: years beyond 9999, which no expiry reaches before the year 9700; sub-second digits and zone offsets in the parser, which stored texts never have.
- The TOML reader's literal and multi-line strings, comments, floats, dates, inline tables and `\u` escapes: the printer never writes them. The reader accepts dotted keys as whole names.
- The order of `ListTunnels` by creation time: a listing is any order of the rows, which is more general.
- `Manager.EnsureRunning`, which nothing calls; `Manager.Stop` at shutdown; a kill that does not take effect, and an frpc that outlives a crashed agent. At most one managed frpc runs.
- Changes of the server's frp settings: they raise no version, so the protocol keeps them fixed.
- The temporary siblings of `frpc.toml` and the state file matter only until their rename; a stale one is overwritten.
- The credentials part of the state file and registration retries on the agent; `TouchGatewayHeartbeat`; auth, HTTP, JSON, health probes, list views, dashboards, installers.
- Columns no decision depends on: `auth_mode`, `source`, `ttl_seconds`, latency and message of health checks, all `created_at` and `updated_at`.
