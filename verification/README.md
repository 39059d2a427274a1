# A model of the EchoEar cloud relay

The relay is a Go service between phones and the computers ("agents") they control. This project models its two large
stateful systems and the two smaller ones beside them, and proves what they keep over whole runs.

- **Users, sharing, leases, usage** (`internal/database/access_repository.go`). `AccessModel` holds the tables as one
  value and every transaction as a function on it; `AccessStore.Store` is the object whose fields the transactions
  update in place, each method proved against that function. `AccessEffects` says of the columns alone when each goes
  through and what it changes. `AccessRuns` builds runs out of atomic handlers and proves what each transaction keeps.
  `AccessSafety`, `AccessSessions`, `AccessTerms`, `AccessLeases`, `AccessListing`, `AccessSweep` and `AccessAudit` hold
  the results over runs; `AccessOverlap` lets lifecycle transactions overlap. `UsageModel` and `UsageStore` are the usage
  ledger; `UsageInterleaving` runs its transactions statement by statement.
- **Tunnel and gateway** (`internal/api/tunnel.go`, `internal/api/hapi_gateway.go`). `TunnelModel` is the registry under
  its lock, with one step for each critical section and each thing done after an unlock; `TunnelStore.HapiTunnel` is the
  object. `TunnelSafety` and `TunnelDiscovery` say what every interleaving keeps. `GatewayRequest` frames a body,
  `GatewayResponse` is the streaming loop, `GatewayPipe` the bounded channel in front of it, and `Base64` the code both
  use; `GatewayMeaning` says of the events alone what the client gets.
- **Mailbox** (`internal/database/agent_repository.go`): `MailboxModel` and `MailboxStore`; over runs `MailboxHistory`,
  `MailboxDrain` and, for the responses, `MailboxResponses`; `MailboxConcurrent` lets claims overlap.
- **Device credentials** (`internal/database/repository.go`): `DeviceModel`, `DeviceSafety` and `DeviceStore` for whole
  operations, `DeviceOverlap` for binds and exchanges whose statements other operations come between.
- **One connection request from ticket to answer** (`internal/api/echoear_handlers.go`): `HapiConnection`, with the
  envelope check in `ControlAad`.

`UsageEffects`, `TunnelEffects`, `MailboxEffects` and `DeviceEffects` say of those parts, too, when each operation goes
through and what it changes, and that the statements of an operation in a row are the whole operation.

Conventions. Times are integers in nanoseconds, and `NOW()` and the Go clock are one clock that only moves forward. A
constraint failure is an error that changes nothing. Random ids and tokens are parameters; where their freshness
matters a step with a used one is no step. Hashes are injective. Strings arrive trimmed, as the source trims them. A
result over "every run" holds for every sequence of steps, those with rejected inputs included.

`dafny verify dfyconfig.toml` checks everything.

## Model

| member | source | states |
|---|---|---|
| AccessStore.Store.ReadRequest | internal/database/access_repository.go:186-197 | A request is unreadable exactly when its status or role is neither absent nor known; the status is complained about first. |
| AccessStore.Store.CheckLifecycle | internal/database/access_repository.go:183-209 | The guards of a lifecycle change in their order, the last-administrator count included, and otherwise the row that will be written. |
| AccessStore.Store.CloseAccount | internal/database/access_repository.go:222-232 | Every session of the account is not live, its leases on either side are revoked and its open shares on either side are; every session, lease and share of others equals its old value. |
| AccessStore.Store.UpdateUserLifecycle | internal/database/access_repository.go:176-239 | The transaction's whole effect on all tables and the log, or its refusal with nothing changed; nobody else's row, session, lease or share changes. |
| AccessStore.Store.CreateShare | internal/database/access_repository.go:327-373 | The whole effect, with the roll-back on each failing check and on the open-share index. |
| AccessStore.Store.TransitionShare | internal/database/access_repository.go:414-468 | The whole effect: the share moves or is amended with its version raised, every lease of it is revoked, one row is logged. |
| AccessStore.Store.ListAccessibleAgents | internal/database/access_repository.go:472-510 | After lapsed active shares are closed, the rows are exactly those of the outer join, in the order of the query, no agent twice. |
| AccessStore.Store.JoinAgent | internal/database/access_repository.go:479-482 | The outer join gives one agent at most one row, and exactly the one the access rule grants. |
| AccessStore.Store.ResolveAgentAccess | internal/database/access_repository.go:512-523 | It finds the first in the order of the query of the granted rows that match the identifier, and none only if no granted row matches. |
| AccessStore.Store.CreateAccessLease | internal/database/access_repository.go:525-551 | The inserted lease with its clamped end, or the day's limit or a constraint and no change. |
| AccessStore.Store.RevokeAccessLease | internal/database/access_repository.go:553-556 | One ticket is revoked and no other row changes, or the statement fails, says so and changes nothing. |
| AccessStore.Store.RenewAccessRequest | internal/database/access_repository.go:565-583 | Which leases get which new end, and that it answers true exactly when a candidate existed. |
| AccessStore.Store.SessionByToken | internal/database/repository.go:287-305 | A token finds its user exactly if the session is live and not expired and the user active. |
| AccessStore.Store.GatewayAuthorized | internal/api/hapi_gateway.go:310-319 | The check of a tick passes if and only if the stream is authorized for the first row under its identifier, of the owner and name it was opened for; then it renews, otherwise no lease changes. |
| AccessEffects.LifecycleGoesThrough | internal/database/access_repository.go:192-209 | A lifecycle change with known columns goes through if and only if nobody disables himself and another active administrator is there if the target stops being one. |
| AccessEffects.LifecycleEffect | internal/database/access_repository.go:211-236 | The target's row has what was asked for and keeps the rest; sessions, leases and shares change exactly where an account that stops being active had them open. |
| AccessEffects.CreateGoesThrough | internal/database/access_repository.go:336-366 | An offer goes through if and only if the agent is the owner's, the grantee somebody else who is active, the window one, and no pending or active share of the pair exists. |
| AccessEffects.CreateEffect | internal/database/access_repository.go:358-370 | One pending share of version 1 with the offered terms and one log row come, nothing else changes. |
| AccessEffects.TransitionGoesThrough | internal/database/access_repository.go:425-442 | Accept and decline go through exactly for the grantee of a pending share, revoke for the owner or an administrator and update for the owner of an open one, the latter with a window that is one. |
| AccessEffects.TransitionEffect | internal/database/access_repository.go:443-463 | An update leaves the limit, the end and the start it names and raises the version, status and parties stay; any other action changes the status alone; exactly that share's leases are revoked. |
| AccessEffects.SweepEffect | internal/database/access_repository.go:390-473 | Exactly the active shares, or also the pending ones, whose end is not after now are closed. |
| AccessEffects.GrantedRow | internal/database/access_repository.go:474-482 | A granted row has its agent's name, public id and owner, its share's limit and version, and as identifier the name for the owner and the public id for anybody else. |
| AccessEffects.RowFoundBy | internal/database/access_repository.go:512-523 | A granted row is found by its agent's public id, and by its name for the owner alone. |
| AccessEffects.GrantedToGrantee | internal/database/access_repository.go:479-482 | Somebody else's agent is granted exactly if its owner is active and an active share to the user has begun and not ended. |
| AccessEffects.GrantedToOwner | internal/database/access_repository.go:479-482 | An own agent is granted exactly while its owner is active. |
| AccessEffects.IssueGoesThrough | internal/database/access_repository.go:532-550 | A ticket for a granted row is issued if and only if its id is new and the tasks counted are below the share's limit, if it has one. |
| AccessEffects.IssueEffect | internal/database/access_repository.go:525-551 | The lease has the row's agent, owner, share and version, the user, the request id, and ends after the ttl asked for, or after five minutes if that is not within ten. |
| AccessEffects.RenewalSucceeds | internal/database/access_repository.go:572-583 | A renewal succeeds if and only if some unrevoked unexpired lease has this request, user, agent and version. |
| AccessEffects.RenewalEffect | internal/database/access_repository.go:565-580 | Exactly such leases with less than half of the ttl left, in whole seconds, are set to end after it; a ttl beyond seven days or not positive counts as a day. |
| AccessEffects.RevokeLeaseEffect | internal/database/access_repository.go:553-556 | One ticket is revoked, no other changes. |
| AccessEffects.RegistrationEffect | internal/database/agent_repository.go:26-48 | A registration adds an agent of the owner and name, or changes nothing here if there is one. |
| AccessSessions.SessionValidIff | internal/database/repository.go:274-318 | In every run a token is valid for a user if and only if some step was a login of that user with it less than its ttl ago, and no later step logged it out or deactivated the user. |
| AccessSessions.SessionEndedBy | internal/database/repository.go:312-318 | If a live session has ended by the end of a run, some step logged out this token or deactivated its user. |
| AccessSessions.EndedSessionStream | internal/api/hapi_gateway.go:310-314 | A stream whose login was followed by its logout or the user's deactivation fails at every tick. |
| AccessTerms.TermsOfLatestUpdate | internal/database/access_repository.go:443-463 | In every run the limit, the end and, if named, the start of an updated share are those of the latest update in the log. |
| AccessTerms.TermsAsCreated | internal/database/access_repository.go:358-367 | The terms of a share without an update in the log are those of the step that created it. |
| AccessRuns.StepSound | internal/database/access_repository.go:327-583 | Each handler keeps one open share for an agent and grantee, every share with its agent's owner, every lease with its share's agent, parties and a version the share has had; rows keep their identity and only move forward. |
| AccessRuns.ExecSound | migrations/004_user_management_agent_sharing.sql:34-78 | The same for every run: closed shares and revoked leases stay so, versions and lease ends never go back, the log only grows. |
| AccessRuns.NoOrphans | internal/database/access_repository.go:347-356 | With the foreign keys in force the clean-up before an insert deletes nothing. |
| AccessSafety.InactiveAccountIsClosed | internal/database/access_repository.go:222-232 | In every reachable state an account that is not active has no live session, no unrevoked lease and no open share on either side. |
| AccessSafety.AdminRemains | internal/database/access_repository.go:198-209 | A store with an active administrator has one after every run of lifecycle transactions that do not overlap. |
| AccessOverlap.AdminRemainsIffTimely | internal/database/access_repository.go:183-237 | For every run of lifecycle transactions that overlap statement by statement, starting with an active administrator: one is there after every step if and only if each demotion is written while more than one is. |
| AccessOverlap.LateDemotionWasOvertaken | internal/database/access_repository.go:203-211 | A demotion is written too late only if another one was committed since its own count. |
| AccessOverlap.MutualDemotion | internal/database/access_repository.go:201-211 | The failing run: two administrators demote each other and both count before either commits. |
| AccessOverlap.LifecycleAlone | internal/database/access_repository.go:176-237 | The three statements in a row do to the accounts what the whole transaction does. |
| AccessSafety.DeactivationKills | internal/database/access_repository.go:222-232 | Deactivating a party closes the share and revokes every lease under it. |
| AccessSafety.DeadForever | internal/database/access_repository.go:459-461 | A closed share with all its leases revoked stays that way over every run. |
| AccessSafety.RevocationLasts | internal/api/hapi_gateway.go:310-319 | After a revoke and over every later run, a stream that passes its check has a live ticket of something else than that share; one whose request id came only with that share's tickets fails at every tick, also if the agent is shared again. |
| AccessSafety.DeactivationLasts | internal/api/tunnel.go:387-397 | The same after the owner or the grantee was deactivated, also if the account is enabled again. |
| AccessLeases.RenewalArithmetic | internal/database/access_repository.go:565-583 | For every ttl: a renewal never shortens, never touches an expired or revoked lease, sets no other end than now plus the clamped ttl, and leaves each candidate at least the refresh span. |
| AccessLeases.RenewalKeepsCandidates | internal/database/access_repository.go:572-582 | A renewal succeeds again at once exactly when it succeeded. |
| AccessLeases.EndComesFromIssueOrRenewal | internal/database/access_repository.go:526-578 | In every run a lease ends one clamped ttl after a step that issued it or renewed it as a candidate, so never beyond that ttl after it. |
| AccessLeases.ExpiredForever | internal/database/access_repository.go:573-578 | No run revives an expired lease. |
| AccessLeases.SteadyStreamSurvives | internal/api/hapi_gateway.go:190-196 | A stream whose session and access stand, whose identifier finds that access and no other row, whose ticket is not revoked and whose ticks come less than the refresh span apart passes the whole check at every tick, whatever else runs in between. |
| AccessLeases.RaceExecSound | internal/database/access_repository.go:512-551 | The tables stay sound and only move forward when resolving an access and inserting the lease are separate steps. |
| AccessLeases.UpdateFences | internal/database/access_repository.go:447-459 | Once a share has reached a version, what is resolved from it later accepts no ticket below it, one inserted after the update included. |
| AccessLeases.TicketInForceIsCurrent | internal/database/access_repository.go:443-461 | In every run of whole handlers an unrevoked ticket of a share carries the version the share has now. |
| AccessListing.ListedIffMayUse | internal/database/access_repository.go:474-482 | An agent is listed exactly when its owner is active and the user owns it or holds it through an active share in its window. |
| AccessListing.RowShape | internal/database/access_repository.go:475-482 | A row is the owner's, with no share and version 0, or carries the only share in force, at version 1 or more. |
| AccessListing.ReachableRowUnique | internal/database/access_repository.go:474-482 | In every reachable store each agent is listed at most once for a user. |
| AccessListing.SweepTimingIrrelevant | internal/database/access_repository.go:390-473 | Closing lapsed shares earlier or later grants the same rows after every run that leaves the swept shares alone. |
| AccessListing.SparingRunsAgree | internal/database/access_repository.go:390-473 | The same from the tables at the start alone: it is enough that the run updates no share that had lapsed then and offers none of their agents to the same grantee. |
| AccessSweep.OneStepDecides | internal/database/access_repository.go:390-473 | For every sound store, either sweep and any step: everybody is granted the same after the step, swept before it or not, if and only if the step is not a signed-in owner's update that brings a lapsed active share back into its window. |
| AccessSweep.SweepDecides | internal/database/access_repository.go:359-473 | For a lapsed share, active or pending, and either sweep that closes it: after a renewal (and acceptance) the grantee may use the agent if and only if no sweep came first, after an accepted new offer if and only if one did. |
| AccessAudit.LogReplaysToShares | internal/database/access_repository.go:367-463 | In every run the log alone gives each share's parties, version and status up to expiry; the version is one plus the logged updates, and each status fixes how often accept, decline and revoke were logged, a revoked share without a revoke row having had a party deactivated. |
| AccessAudit.MovesWereEntitled | internal/database/access_repository.go:425-442 | In every run each logged accept and decline was made by the share's grantee, each update by its owner, each revoke by its owner or by who was an administrator at that moment. |
| UsageModel.RecordBalances | internal/database/access_repository.go:623-637 | Recording keeps every day's total equal to the sum of its events, with no event twice. |
| UsageModel.RecordIsIdempotent | internal/database/access_repository.go:607-609 | A report sent again under its event id changes nothing, on that day or any other, whatever it then claims. |
| UsageEffects.ReportIsValid | internal/database/access_repository.go:586-590 | A report is valid exactly with an event id of 1 to 128 characters, no task or one, and amounts that the columns hold. |
| UsageEffects.RefusedOverTheLimit | internal/database/access_repository.go:611-626 | A report is refused for the limit if and only if its event is new, it has a task, there is a limit and the sum of the day's events with it exceeds it; the last allowed task passes. |
| UsageEffects.RecordedAsEvent | internal/database/access_repository.go:627-651 | Otherwise it becomes one more event of its share and day and the reply is the day's sum with it. |
| UsageStore.Ledger.CheckLimit | internal/database/access_repository.go:611-626 | A report is within the limit exactly if the day's tasks with it stay within the policy, or it makes no task, or there is no limit. |
| UsageStore.Ledger.InsertUsage | internal/database/access_repository.go:628-639 | Both inserts take effect, or neither when a total would overflow its column. |
| UsageStore.Ledger.RecordShareUsage | internal/database/access_repository.go:585-654 | The statements in order have exactly the effect and reply of the atomic recording, with the limit refused before anything is written. |
| UsageInterleaving.CommitIsRecord | internal/database/access_repository.go:598-654 | Under the row lock, what a transaction commits is what the atomic recording would do at that moment. |
| UsageInterleaving.RefusalIsRecord | internal/database/access_repository.go:611-626 | A transaction stops at the limit exactly when the atomic recording would be refused at that moment. |
| UsageInterleaving.InsertNeverClashes | migrations/004_user_management_agent_sharing.sql:94-103 | Under the lock the event table's primary key is never violated. |
| UsageInterleaving.LedgerSound | internal/database/access_repository.go:596-640 | In every interleaving each total is the sum of its events, none twice, and a day's tasks never exceed the largest limit the share has had. |
| UsageInterleaving.EachEventCountsOnce | internal/database/access_repository.go:627-639 | In the books of every interleaving each event adds its amount to its own share and day and to no other total, and no other event has its share and id. |
| UsageInterleaving.LedgerUnderNormalizedPolicies | internal/api/admin_share_handlers.go:47-49 | With the limits the API admits, no day of a share has more than 1000 tasks. |
| UsageInterleaving.Serializable | internal/database/access_repository.go:590-654 | Every interleaving leaves the books as the committed calls run one after the other. |
| UsageEffects.AloneIsRecord | internal/database/access_repository.go:590-654 | A transaction whose statements run in a row has the effect of the atomic recording. |
| TunnelSafety.RegistryAlwaysOk | internal/api/tunnel.go:159-226 | In every interleaving: peers and gateways are stored under their own key and id, no inner map is empty, at most 4 mobiles and 128 gateways a key, gateways only under the current gateway-capable agent they joined, agents and mobiles that left are closed, and every gateway that left is closed or about to be. |
| TunnelSafety.OneOpenAgent | internal/api/tunnel.go:162-170 | Of all agents that ever attached under a key at most one is open, and it is the registered one. |
| TunnelDiscovery.DiscoveryAlwaysOk | internal/api/tunnel.go:286-355 | In every interleaving each registered waiter is that of a running call for this key and id, answers go to the call they were addressed to, and results were earned. |
| TunnelDiscovery.PayloadWasAnswered | internal/api/tunnel.go:338-355 | A call returns a payload only if at some step the agent current for its key answered its request id and the lookup found this call's own waiter. |
| TunnelDiscovery.CapturedWaiterIsServed | internal/api/tunnel.go:194-209 | A waiter taken out of the registry by a disconnect was sent a result or is about to be. |
| TunnelDiscovery.DuplicateChangesNothing | internal/api/tunnel.go:303-306 | Over every run with the repeated call and the same run without it, the tunnel ends up equal in everything but the entry of that call, which has failed. |
| TunnelDiscovery.CleanUpKeepsOthers | internal/api/tunnel.go:310-321 | A call's clean-up removes its own waiter and no other, also when the id was used again. |
| TunnelDiscovery.ReturnedForever | internal/api/tunnel.go:328-335 | A call returns once: in every run what it returned is what it has returned at the end. |
| TunnelEffects.AgentAttaches | internal/api/tunnel.go:159-175 | An agent always attaches, in place of the one before it and its gateways; other keys stay. |
| TunnelEffects.MobileAttaches | internal/api/tunnel.go:176-183 | A mobile attaches if and only if its key has fewer than four; nothing else changes. |
| TunnelEffects.MobileDetaches | internal/api/tunnel.go:215-220 | A mobile that detaches is gone, every other stays. |
| TunnelEffects.AgentDetaches | internal/api/tunnel.go:189-214 | The current agent leaves with the gateways and waiters of its key; a replaced one changes nothing. |
| TunnelEffects.GatewayAttaches | internal/api/hapi_gateway.go:238-253 | A gateway attaches if and only if the agent is there and accepts gateways and fewer than 128 are attached. |
| TunnelEffects.GatewayDetaches | internal/api/hapi_gateway.go:255-262 | A gateway that detaches is gone, every other stays. |
| TunnelEffects.CallAdmitted | internal/api/tunnel.go:293-308 | A call is admitted if and only if the agent serves discovery and its request id is not pending, and then its waiter is registered. |
| TunnelEffects.AnswerFindsWaiter | internal/api/tunnel.go:338-348 | An answer finds the waiter of its id if and only if it comes from the current agent. |
| TunnelEffects.CallGetsItsAnswer | internal/api/tunnel.go:286-355 | A call that is sent and answered by the agent returns the agent's answer. |
| TunnelEffects.CallGivesUp | internal/api/tunnel.go:331-334 | A call that gives up returns the timeout or the cancellation. |
| TunnelStore.HapiTunnel.Attach | internal/api/tunnel.go:159-184 | The registry afterwards, and exactly which peer and gateways are closed under the lock. |
| TunnelStore.HapiTunnel.CloseGateways | internal/api/tunnel.go:198-200 | The loop closes every captured gateway and no other. |
| TunnelStore.HapiTunnel.DetachLocked | internal/api/tunnel.go:188-220 | The registry after the critical section, and what it captured for later. |
| TunnelStore.HapiTunnel.Detach | internal/api/tunnel.go:186-226 | Undisturbed, it closes the peer and the gateways it served and leaves no pending waiter without a result. |
| TunnelStore.HapiTunnel.FailWaiters | internal/api/tunnel.go:204-209 | Each captured waiter holds a result afterwards; one that held a result keeps it. |
| TunnelStore.HapiTunnel.AttachGateway | internal/api/hapi_gateway.go:238-253 | The registry afterwards, and the refusals. |
| TunnelStore.HapiTunnel.DetachGateway | internal/api/hapi_gateway.go:255-265 | The registry afterwards, and the gateway closed. |
| TunnelStore.HapiTunnel.BeginDiscovery | internal/api/tunnel.go:293-308 | Which calls are admitted, and the registry afterwards. |
| TunnelStore.HapiTunnel.EndDiscovery | internal/api/tunnel.go:310-321 | The deferred clean-up's effect on the registry. |
| TunnelStore.HapiTunnel.LookUpWaiter | internal/api/tunnel.go:339-348 | The lookup under the lock finds the waiter of this id if and only if the peer is the current agent. |
| TunnelStore.HapiTunnel.PostAnswer | internal/api/tunnel.go:349-354 | The send after the unlock fills a waiter that is empty and leaves a filled one. |
| TunnelStore.HapiTunnel.DeliverDiscovery | internal/api/tunnel.go:338-355 | The two without interference: the payload goes into the waiter found for the current agent, once. |
| GatewayRequest.SendChunks | internal/api/hapi_gateway.go:115-124 | The chunk loop ends and sends the chunks in order, or a prefix of them up to the first failed send. |
| GatewayRequest.SendRequest | internal/api/hapi_gateway.go:89-129 | Too large a body sends nothing; otherwise the frames are sent, or a prefix of them and the offline answer. |
| GatewayRequest.RoundTrip | internal/api/hapi_gateway.go:102-129 | Putting the frames of any body together again gives the body, and the announced length is its length. |
| GatewayRequest.ChunkCount | internal/api/hapi_gateway.go:115-124 | A body of n bytes gives ceil(n/196608) chunks. |
| GatewayRequest.ChunkShapes | internal/api/hapi_gateway.go:115-120 | Each chunk carries the gateway's id and 196608 bytes, the last one what is left, and none is empty. |
| GatewayRequest.TextsAreEncoding | internal/api/hapi_gateway.go:16-18 | The chunk texts in a row are the encoding of the whole body. |
| GatewayRequest.FramesCarryRequest | internal/api/hapi_gateway.go:98-129 | Method, path and headers come with the first frame and every frame names the gateway; up to 6 MiB one frame, otherwise a start with the length, the chunks and an end. |
| Base64.DecodeEncode | internal/api/hapi_gateway.go:103-165 | Decoding an encoding gives the bytes back (section 4 of RFC 4648). |
| Base64.EncodeConcat | internal/api/hapi_gateway.go:119 | Encodings of pieces cut at multiples of three bytes concatenate to the encoding of the whole. |
| Base64.StandardAlphabet | internal/api/hapi_gateway.go:119 | The digits are those of the standard alphabet. |
| Base64.Examples | internal/api/hapi_gateway.go:103-119 | The examples of section 10 of RFC 4648. |
| GatewayResponse.StreamGatewayResponse | internal/api/hapi_gateway.go:133-211 | The loop over any sequence of selected events makes exactly the reference response: the first start fixes the status, the body is the decoded chunks from there to the first event that ends it, and what a failing write still delivered. |
| GatewayMeaning.StreamingIff | internal/api/hapi_gateway.go:147-160 | The client gets a stream of a status if and only if the first event that counts is a start with it, or with none in 100..599 and the status is 502. |
| GatewayMeaning.EndAnswers | internal/api/hapi_gateway.go:173-208 | Any other event that counts first ends the response with its own answer: 204, 409 or 502, 401, 504, 503, or nothing for a client that is gone. |
| GatewayMeaning.NothingYet | internal/api/hapi_gateway.go:143-164 | Until an event counts the client is sent nothing. |
| GatewayMeaning.ClientGetsWhatWasEncoded | internal/api/hapi_gateway.go:147-177 | After a start the client gets exactly the bytes that the agent encoded into its chunks, in order, whatever has no effect comes between, and the response ends with the first event that closes it. |
| GatewayMeaning.BadChunkEnds | internal/api/hapi_gateway.go:165-171 | A chunk that does not decode adds nothing and ends the response, one whose write breaks off adds a part of itself and ends it. |
| GatewayResponse.Turn | internal/api/hapi_gateway.go:141-209 | One turn of the select changes the response as one more event does. |
| GatewayResponse.Monotone | internal/api/hapi_gateway.go:147-176 | The answer is fixed once, the body only grows, and an ended response does not change. |
| GatewayResponse.AnswerIsClean | internal/api/hapi_gateway.go:155-188 | A started response has a status in 100..599; any other answer, errors included, has no streamed body. |
| GatewayResponse.OthersOnlyCut | internal/api/hapi_gateway.go:190-208 | Ticks, timeouts, closes and a failing client only cut short the response the frames alone would make. |
| GatewayPipe.AlwaysInOrder | internal/api/hapi_gateway.go:289-308 | Frames are never reordered or repeated, and until the gateway closes none is missing. |
| GatewayPipe.FirstInFirstOut | internal/api/hapi_gateway.go:78-82 | Up to 32 frames wait in the order of their arrival and the first is taken first. |
| GatewayPipe.ClientSeesPrefix | internal/api/hapi_gateway.go:142-172 | While the gateway is open the client's body is a prefix of the one all the agent's frames make. |
| GatewayPipe.GatewayQueue.Deliver | internal/api/hapi_gateway.go:300-307 | For each choice of the select: the frame is queued, or dropped because the gateway is closed, or dropped with the gateway closed. |
| MailboxStore.Mailbox.EnqueueHapiConnection | internal/database/agent_repository.go:143-153 | The upsert's effect on the table, with the returned row pending in it for two minutes. |
| MailboxStore.Mailbox.ClaimHapiConnections | internal/database/agent_repository.go:155-197 | Lapsed rows are closed, then exactly the lowest waiting rows of the agent up to the limit are claimed and returned. |
| MailboxStore.Mailbox.Take | internal/database/agent_repository.go:168-176 | The update claims and returns exactly the first eligible rows in the order of their ids. |
| MailboxStore.Mailbox.Pass | internal/database/agent_repository.go:168-189 | One pass over the table marks and collects those rows. |
| MailboxStore.Mailbox.CompleteHapiConnection | internal/database/agent_repository.go:199-210 | The row is finished exactly if it is this user's, live and in time; otherwise nothing changes. |
| MailboxEffects.WaitingIff | internal/database/agent_repository.go:168-172 | What waits for an agent are its own pending commands whose time is not over. |
| MailboxEffects.EnqueueEffect | internal/database/agent_repository.go:143-153 | An enqueue leaves one pending row of its slot with the payload, for two minutes, under the old id or the next one; every other row stays. |
| MailboxEffects.ClaimEffect | internal/database/agent_repository.go:164-176 | Row by row: lapsed live rows are closed, rows handed out are claimed, the others stay. |
| MailboxEffects.CompleteEffect | internal/database/agent_repository.go:199-210 | Exactly the user's live row in time is found, and becomes completed or rejected as it says; no other changes. |
| MailboxStore.Mailbox.SaveHapiResponse | internal/database/agent_repository.go:219-232 | The upserted response is readable at once; what other slots read stays. |
| MailboxStore.Mailbox.HapiResponse | internal/database/agent_repository.go:234-245 | The statement reads what a poll of the shelf reads. |
| MailboxResponses.PollReadsLatestSave | internal/database/agent_repository.go:219-245 | In every run of saves and ticks a poll reads p if and only if the latest save of its slot was of p and is less than five minutes old. |
| MailboxModel.ClaimTakesLowest | internal/database/agent_repository.go:168-176 | A claim hands out the lowest waiting ids up to the limit and the rest go on waiting. |
| MailboxDrain.ClaimsDrain | internal/database/agent_repository.go:155-176 | Over every run in which nothing of the agent's is queued, expires or is finished while it waits, its claims, of any limits and with anything of others between them, get exactly the first waiting commands in order, as many as they ask for; the rest go on waiting. |
| MailboxDrain.DrainedByCeiling | internal/database/agent_repository.go:155-176 | After ceil(n/limit) claims of such a run all n commands are handed out and none waits. |
| MailboxDrain.EnqueuedIsHandedOut | internal/database/agent_repository.go:143-176 | A command just queued is handed out in every such run whose claims ask for as many commands as waited with it. |
| MailboxHistory.AtMostOnce | internal/database/agent_repository.go:168-203 | In every run an enqueue lies between two hand-outs of a row, and between two completions. |
| MailboxHistory.InTime | internal/database/agent_repository.go:146-149 | A hand-out or completion happens within two minutes of the latest enqueue before it. |
| MailboxConcurrent.ClaimsDisjoint | internal/database/agent_repository.go:159-176 | Claims that overlap, taking row locks one by one, waiting for rows in their first statement and skipping them in the second, never hold a row in common. |
| MailboxConcurrent.AtMostOnceConcurrently | internal/database/agent_repository.go:159-203 | Under every such overlap an enqueue lies between two hand-outs of a row, and between two completions. |
| MailboxConcurrent.InTimeConcurrently | internal/database/agent_repository.go:159-203 | And each falls within two minutes of the latest enqueue before it, by the times at which the statements or their transactions began. |
| MailboxEffects.ClaimAlone | internal/database/agent_repository.go:155-197 | A claim that nothing overlaps does what the whole claim does. |
| DeviceStore.Devices.BindDevice | internal/database/repository.go:355-413 | As one step: the row afterwards, or the conflict when another user holds a device that is not revoked. |
| DeviceStore.Devices.IssueDeviceTokens | internal/database/repository.go:500-528 | Both credentials and their ends, only for the owner's active device. |
| DeviceStore.Devices.ExchangeRefresh | internal/database/repository.go:530-560 | As one step: the new access credential, or which refusal and no change. |
| DeviceStore.Devices.PresenceByAccess | internal/database/repository.go:562-577 | It reports the one device that accepts the token, and touches that row only. |
| DeviceStore.Devices.RevokeDevice | internal/database/repository.go:579-590 | The device is revoked and holds no credentials. |
| DeviceEffects.BindEffect | internal/database/repository.go:371-402 | A bind goes through if and only if the device is new, the user's own or revoked; it is then active and the user's. |
| DeviceEffects.IssueEffect | internal/database/repository.go:500-528 | Tokens are issued if and only if the user owns the active device; they last five hours and a hundred years. |
| DeviceEffects.ExchangeEffect | internal/database/repository.go:530-560 | An exchange goes through if and only if the active device holds the refresh token and it has not expired. |
| DeviceEffects.RevokeEffect | internal/database/repository.go:579-590 | A revoke goes through if and only if the user owns the device and it is not revoked, and clears both credentials. |
| DeviceEffects.PresenceEffect | internal/database/repository.go:562-577 | A presence report touches only the time of the devices that accept the token. |
| DeviceEffects.IssuedAccessLives | internal/database/repository.go:508-572 | An issued access token is accepted exactly for five hours, over every run that neither replaces it nor revokes the device. |
| DeviceSafety.ExecOk | internal/database/repository.go:355-590 | In every run of whole operations a revoked device holds no token, no two devices hold the same one, and each held token was handed out to the present owner since the last revocation. |
| DeviceSafety.AcceptedAccess | internal/database/repository.go:562-577 | In such a run an access token that is accepted was handed out less than five hours ago, to the present owner, after the latest revocation, and one device accepts it. |
| DeviceSafety.AcceptedRefresh | internal/database/repository.go:530-560 | In such a run a refresh token that is accepted was issued to the present owner after the latest revocation; what it buys lasts five hours. |
| DeviceSafety.OwnerChangesThroughRevoked | internal/database/repository.go:375-396 | A device keeps its owner over any stretch of such a run in which it is not in the revoked state. |
| DeviceSafety.RevokedTokensStayDead | internal/database/repository.go:579-590 | Tokens of a revoked device are never accepted again, whoever binds it later. |
| DeviceSafety.ReplacedTokenStaysDead | internal/database/repository.go:550-559 | An access token replaced by an exchange is never accepted again. |
| DeviceOverlap.GoodIffTimely | internal/database/repository.go:371-402 | For every run in which binds and exchanges are two statements each, with row locks and anything in between: no step takes a device from its owner or leaves a credential unbacked if and only if no write comes when another user has the device (bind) or when the device is revoked or has another owner than the select read (exchange). |
| DeviceOverlap.AcceptedAccessOverlapping | internal/database/repository.go:562-577 | In every run without such a write an accepted access token has the origin stated for whole operations. |
| DeviceOverlap.AcceptedRefreshOverlapping | internal/database/repository.go:537-549 | The same for a refresh token that the select of an exchange accepts. |
| DeviceOverlap.OwnerChangesThroughRevokedOverlapping | internal/database/repository.go:371-402 | In every such run a device keeps its owner while it is not in the revoked state. |
| DeviceOverlap.RevokedTokensStayDeadOverlapping | internal/database/repository.go:579-590 | In every overlapping run, late writes included, the tokens a device held when it was revoked are never accepted again. |
| DeviceOverlap.LateWriteWasOvertaken | internal/database/repository.go:371-555 | The first such write is that of a bind that found no row, with another user's bind of the device written since its select, or of an exchange with a revocation since its select. |
| DeviceOverlap.FirstBindsOverlap | internal/database/repository.go:371-402 | The failing run of binds: two first binds of one device overlap, and the second takes the device with the first one's token on it. |
| DeviceOverlap.SwapOverlapsRevoke | internal/database/repository.go:537-590 | The failing run of exchanges: a device revoked between the two statements ends up revoked and holds a token. |
| DeviceEffects.BindAlone | internal/database/repository.go:355-413 | The two statements of a bind in a row are the whole bind. |
| DeviceEffects.ExchangeAlone | internal/database/repository.go:530-560 | The two statements of an exchange in a row are the whole exchange. |
| HapiConnection.Server.IssueAccessTicket | internal/api/admin_share_handlers.go:277-292 | A ticket for a granted row is handed out if and only if its id is new, its insert is confirmed, it is signed, and the tasks read from the ledger are below the share's limit; otherwise it is not there, or revoked, or stays unconfirmed or because the revoke statement fails. |
| HapiConnection.Server.Admit | internal/api/echoear_handlers.go:91-108 | 400 for bad identifiers, 404 exactly if no granted row matches, otherwise the verdict on the first match in the order of the query: 409 if its agent is offline, 400 if the envelope is not for it, and else it gets through. |
| HapiConnection.Server.OpenConnection | internal/api/echoear_handlers.go:84-113 | A first match against which nothing stands gets its ticket. A success adds one ticket in force, and the day's recorded events of its share sum to less tasks than the share's limit; a refusal leaves old tickets alone, and a new one unrevoked only if its insert was not confirmed or the revoke statement failed. |
| HapiConnection.Server.PassAnswer | internal/api/echoear_handlers.go:122-145 | Which answers of the agent are stored and passed on, and what each other one does to the ticket. |
| HapiConnection.Server.SettleConnection | internal/api/echoear_handlers.go:115-156 | The exit, the tables and the mailbox for every outcome of discovery and of all three storage statements: 200 with the response stored, 202 with the command pending, or an exit that revokes this ticket and no other if its statement succeeds. |
| HapiConnection.TicketStaysIff | internal/api/echoear_handlers.go:122-156 | A ticket in force ends up revoked if and only if it is this request's, the answer is neither 200 nor 202, and the revoke statement succeeded. |
| HapiConnection.ExitsOf | internal/api/echoear_handlers.go:122-156 | Which outcome ends in 200, 202, 502, 503, or without an answer, with what makes a blob proper; 500 in all other cases. |
| HapiConnection.FailedSaveKeepsTicket | internal/api/echoear_handlers.go:138-142 | When neither the response can be stored nor the ticket revoked, the answer is 500 and the ticket can still be renewed. |
| HapiConnection.RenewableIffRevokeFailed | internal/api/echoear_handlers.go:127-155 | After an exit that does not connect the request can be renewed on its ticket if and only if the revoke statement failed. |
| HapiConnection.Server.RequestHapiConnection | internal/api/echoear_handlers.go:84-157 | A request against which nothing stands ends as discovery and the storage statements have it, so with 200 or 202 for the outcomes named in TicketStaysIff. A ticket it inserted is revoked if and only if it answers neither, the insert was confirmed and the revoke statement succeeded; what 200 and 202 promise is held under the ticket's own owner, agent and request id. |
| HapiConnection.RevokedBy | internal/database/access_repository.go:226-556 | If a ticket gets revoked in a run, some step revoked this ticket, moved its share or deactivated its subject or owner. |
| HapiConnection.FailedRequestOpensNoStream | internal/api/echoear_handlers.go:127-155 | A failed request whose revoke took effect authorizes no stream afterwards, whatever runs during its wait and later. |
| Identifiers.CheckIdentifier | internal/api/echoear_handlers.go:438-449 | The loop accepts exactly the identifiers of the allowed length and characters. |
| Identifiers.IdentifierChars | internal/api/echoear_handlers.go:438-449 | Identifiers are made of letters, digits, hyphen, underscore and dot, and of nothing else. |
| ControlAad.ParseAad | internal/api/echoear_handlers.go:385-388 | Reading the string from its right end recovers agent, request and key, whatever the agent id holds. |
| ControlAad.AcceptedIff | internal/api/echoear_handlers.go:378-399 | Everything that an accepted envelope has, and that is enough. |
| ControlAad.AcceptedForOneTriple | internal/api/echoear_handlers.go:378-399 | Accepted envelopes with the same authenticated data were accepted for one agent, request and key. |

## Findings

Properties that hold only under a condition, each with the condition and the members that prove both sides.

| property | fails when | holds exactly when | members |
|---|---|---|---|
| Every exit of a connection request other than 200 and 202 revokes its ticket (`internal/api/echoear_handlers.go:109-155`, `internal/api/admin_share_handlers.go:277-292`). | The revoke statement fails; its error is discarded. For example neither the response can be stored nor the ticket revoked: the answer is 500 and the ticket can be renewed. Or the insert commits and its reply is lost: the answer is 429 and no revoke is attempted. | The insert is confirmed and the revoke statement succeeds. | HapiConnection.Server.RequestHapiConnection, HapiConnection.TicketStaysIff, HapiConnection.RenewableIffRevokeFailed, HapiConnection.FailedSaveKeepsTicket |
| It does not matter when lapsed shares are closed (`internal/database/access_repository.go:390`, `internal/database/access_repository.go:473`). | A lapsed share is updated to a window that contains now, and accepted if it is pending: it comes back only if no sweep came first. Its agent is offered to the same grantee again and accepted: that works only if one did. | For one step: it does not bring a lapsed active share back. For longer runs it is enough that no step updates a share that had lapsed at the start or offers its agent to its grantee. | AccessSweep.OneStepDecides, AccessSweep.SweepDecides, AccessListing.SparingRunsAgree |
| An active administrator remains (`internal/database/access_repository.go:198-209`). | Two administrators demote each other and both count before either commits. | Each demotion is written while more than one administrator is active; a later one comes only after another demotion since its count. | AccessOverlap.AdminRemainsIffTimely, AccessOverlap.LateDemotionWasOvertaken, AccessOverlap.MutualDemotion |
| A device changes hands only when revoked, and its credentials are its present owner's (`internal/database/repository.go:371-402`, `internal/database/repository.go:537-555`). | Two first binds of a device overlap; or a device is revoked between the select and the update of an exchange. | No bind is written while another user has the device, and no exchange while the device is revoked or has another owner than its select read. | DeviceOverlap.GoodIffTimely, DeviceOverlap.LateWriteWasOvertaken, DeviceOverlap.FirstBindsOverlap, DeviceOverlap.SwapOverlapsRevoke |

## Left out

- AccessSafety.RevocationLasts: a stream whose request id was also given a ticket of something else may go on, because a renewal matches request, subject, agent and version and does not look at the share.
- AccessSafety.DeactivationLasts: the same.
- AccessSafety.AdminRemains: is about lifecycle transactions that do not overlap; AccessOverlap.AdminRemainsIffTimely has the condition for those that do.
- AccessSafety.InactiveAccountIsClosed: takes checking an account and creating its session, and resolving an access and inserting its lease, as one step each.
- AccessAudit.LogReplaysToShares: the source does not log expiry, so a share that expired may replay to the status it had before, or to revoked if a party was deactivated later.
- AccessStore.Store.CreateAccessLease: takes the day's task count as a parameter; HapiConnection.Server.IssueAccessTicket reads it from the ledger. Count and insert are one step.
- AccessStore.Store.CreateShare: the agent and the grantee arrive resolved; their public id and user name are looked up under unique indexes.
- AccessStore.Store.ListAccessibleAgents: the order of the rows (by the agents' time of update) is a parameter.
- UsageStore.Ledger.RecordShareUsage: takes the lease lookup's result as a parameter, so the 24 hours in which a lease allows reports are not modelled.
- UsageInterleaving.LedgerUnderNormalizedPolicies: of the policy check only the range of the daily limit is modelled.
- TunnelStore.HapiTunnel.Detach: the object's method runs undisturbed and sends no notices to mobiles or agent; interleavings are those of the steps in TunnelModel.
- GatewayRequest.SendChunks: a failing send is a parameter; which agent takes each frame when it is replaced in the middle of a request is not modelled.
- GatewayPipe.ClientSeesPrefix: holds while the gateway is open, because a frame that finds no room in ten seconds is dropped and closes it.
- MailboxStore.Mailbox.ClaimHapiConnections: runs alone, and returns rows in the order of their ids, which the statement does not promise; overlapping claims are the machine of MailboxConcurrent.
- DeviceStore.Devices.BindDevice: is one step, as are ExchangeRefresh and the runs of DeviceSafety; DeviceOverlap has their two statements.
- DeviceStore.Devices.ExchangeRefresh: likewise.
- DeviceSafety.ExecOk: is about runs of whole operations, like DeviceSafety.AcceptedAccess, DeviceSafety.AcceptedRefresh and DeviceSafety.OwnerChangesThroughRevoked; DeviceOverlap.GoodIffTimely has the condition for others.
- HapiConnection.Server.OpenConnection: a database error while the access is resolved is not modelled; the source answers it as it answers no access.
- HapiConnection.Server.RequestHapiConnection: undisturbed; the contracts of its two parts, HapiConnection.RevokedBy and HapiConnection.FailedRequestOpensNoStream say what other handlers during its wait change.
- Columns that no decision reads: times and reasons of acceptance, decline, revocation and deletion, last use, addresses; audit rows other than those of shares and accounts.
- Rounding of times to the database's microseconds, and the two clocks of the process and the database.
- Policies beyond their daily limit, their window and their version; whose fields `normalizeSharePolicy` checks.
- Websocket reads, writes, pings and deadlines; presence messages to mobiles; forwarding of mobile data.
- Response headers and header copying; a message in a frame is taken as trimmed.
- JSON encoding; signing, encryption and hashing.
- Pairing claims, whose codes are consumed once by one guarded update; preferred devices, settings, device patches and heartbeats, sessions' last use, which are single statements.
- Routing, cookies, the web pages and configuration.
