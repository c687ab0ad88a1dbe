# VeritasVPN: a verified model

A Dafny 4.11 model of the protocols inside VeritasVPN's Go services, its command-line client and its caption
tool, with proofs about every run of them. `dafny verify dfyconfig.toml` checks all of it.

## What is modelled

**Peer provisioning (wg-manager).** `Provisioning.Step` is a state machine whose steps are calls to
PostgreSQL and Redis: a create begins after its entitlement checks, allocates a candidate, checks it against
the live rows, upserts or gives up; rows are removed, agent reports arrive, addresses are released later, and
a Redis bitmap can be replaced by anything at any moment. Creates on different servers interleave; creates on
one server do not overlap. `CacheSafety` shows which single step can ever endanger the unique index over live
addresses, `PoolExactness` which steps make a create's first candidate fail, `DeviceCaps` which steps break the
device limits, and `AgentMirror` when an agent whose connection comes and goes holds exactly the live keys.
`ProvisioningScenarios` and `MirrorScenarios` reach each of these failures from the empty system.
`AddressPool.Reserve` is the reconciliation loop, `AddressText` the printed addresses, `Entitlement` the plan
limits. `WgService` holds the stores and the service as classes whose methods are proved to be runs of the
state machine.

**Peer-update delivery.** `PeerHub` is the hub with its 32-slot queues, `Push` the three-attempt push with
arbitrary activity between the attempts, `AgentPeers` the agent's peer manager over a device on which a network
belongs to one peer at a time (WireGuard paper, section 2, "Cryptokey Routing").

**Subscription ledger (billing-svc).** `Ledger.Step` covers status, checkout, cancel, settlement and expiry sweeps
over a clock, with writes that are lost or done but reported as failed. `SweepErasure` proves that expiry is
unobservable, `PaidTime` that paid time is conserved, per extension and per settled invoice, `Settlement` that
settlement survives failures and exactly when its events are missed; `TierSync` models the two consumers of
billing's events. `BillingOutcomes` says what every call does to the rows it finds, and what that means end to end;
`BillingScenarios` reaches the failures from the empty ledger. `BillingService` is the service as a class.

**CLI configuration.** `CliConfig` is the printer and the parser of the WireGuard file, with the scanner's line
limit, and the exact condition under which they are inverse to each other.

**Captions.** `Captions` is the greedy segmenter, `CaptionTiming` the word times, the caption entries and the
frame loop's cursor, over exact reals.

**Accounts and refresh tokens (auth-svc).** `AuthTokens.Step` covers registration, sign-in, refresh and account
deletion with any database call failing; `AuthOutcomes` says what each call answers and stores; `AuthService` is the
service as a class.

`Text` holds the string operations the components share.

## What the proofs found

- `UpdatePeerStatus` does not look at a row's status (services/wg-manager/internal/repository/postgres.go:219-224).
  A late report that revives a removed row is the only step that can break address safety
  (`CacheSafety.StepSafe`); with an overlapping create it is the only one that can break the device caps
  (`DeviceCaps.StepWithinCaps`), up to a sixth device (`ProvisioningScenarios.SixthDeviceIsReached`).
- A delete of the slot that a create is working on makes the address bitmap inexact, because the superseded address
  is released twice (`PoolExactness.OvertakenDeleteReleasesTwice`); a live address can lose its mark and a later
  create need a second attempt (`ProvisioningScenarios.SecondAttemptIsReached`).
- A reconnecting agent's catch-up only adds peers. It makes up for a broken connection exactly when the last update
  still owed for each key the agent holds is no removal (`AgentMirror.ReplayMirrorsIff`), unlike the comment at
  services/wg-manager/internal/handler/http.go:172-173. A peer deleted between the listing and the subscription stays
  on the agent exactly when all three attempts of its push fall between them (`AgentMirror.DeleteBeforeSubscribing`);
  a queue that stays full loses an update of a subscribed agent in the same way (`AgentMirror.FullQueueLoses`).
- Each push runs in a goroutine of its own, so the pushes of a create and a later delete can be made in the other order;
  the agent then keeps the deleted peer without any failure (`MirrorScenarios.RemovalOvertakesAdd`). Apart from loss,
  only such overtaking parts the agent from the database (`AgentMirror.MoveFaithful`).
- The agent asks for `0.0.0.0/0` on every ADD, so only the key added last keeps any address on the device, and
  nobody does once that key is removed (`AgentPeers.HolderHasEverything`).
- A checkout that overwrites a cancelled but still running period throws the rest of that period away, and nothing
  else does (`PaidTime.NothingLostIffNoForfeit`).
- A settlement that fails after writing the premium row of an account last known as free leaves that row unannounced,
  and nothing else does (`Settlement.StepAnnounced`). If the completion was lost, the retry announces it but extends
  the period once more (`BillingScenarios.PaidOnceEntitledTwice`); if it was written but reported as failed, no later
  delivery of the invoice ever announces it (`Settlement.CompletedDeliveriesAreSilent`).
- auth-svc's database refuses a tier spelled other than "free" or "premium" while wg-manager's cache normalizes it, so
  the two agree exactly when the last tier sent is normally the last storable one (`TierSync.ConsumersAgreeIff`). The
  only publisher in the repository always sends "premium" (services/billing-svc/internal/service/service.go:293-297),
  so a misspelled tier does not come from this code.
- The migrations billing-svc applies at every start forbid the payment method of a Monero checkout, which its handler
  accepts; under them such a checkout fails (`Ledger.MoneroNeedsDeployedMethods`).
- Registering a deleted account's device again returns a session for the deleted account, with a refresh token
  that can never be redeemed (`AuthTokens.DeletedDeviceGetsDeadToken`).
- Bit 253 of the address bitmap is host 255, so the pool is 2 to 255.

## Model

| member | source | states |
|---|---|---|
| `AddressPool.FirstClear` | services/wg-manager/internal/repository/redis.go:30-41 | The scanned bit is clear and every lower bit is set; bits past the end of the stored string are clear. |
| `AddressPool.WithBit` | services/wg-manager/internal/repository/redis.go:44-46 | Setting or clearing a bit changes that bit only, also past the end of the stored string. |
| `AddressPool.ReserveFindsLeastFree` | services/wg-manager/internal/service/service.go:225-247 | For any bitmap and live set, unless a lookup fails, the loop answers the least host in neither, fails exactly when there is none, needs at most 254 attempts, and leaves the bitmap with exactly the bits up to its answer added. |
| `AddressPool.ReserveReturnsCandidate` | services/wg-manager/internal/service/service.go:235-239 | A failed lookup gives its candidate back: every lower bit is marked, the rest is as before, and no free host was passed over. |
| `AddressText.ReleaseUndoesAllocate` | services/wg-manager/internal/repository/redis.go:27-66 | For every registered server's subnet and every host the address is 10, the server's number, 0 and the host, and releasing it clears exactly the bit that was set, so distinct hosts have distinct texts. |
| `Entitlement.PremiumSpellings` | services/wg-manager/internal/entitlement/limits.go:43-50 | A tier becomes premium if and only if it is the seven letters of that word in any capitals (a dotted capital I included) with blanks around it; every other one becomes free. |
| `Entitlement.NormalizeTwice` | services/wg-manager/internal/entitlement/limits.go:43-58 | Normalizing again changes neither the tier nor its device cap. |
| `Entitlement.AdmittedRequest` | services/wg-manager/internal/entitlement/limits.go:82-110 | A request passes both checks if and only if the account has fewer than five devices on premium; on free, none, and, if its regions are restricted, a listed selected region and an empty or listed preferred one. At its cap it is told the cap and the code of its plan; a refused region is named. |
| `Entitlement.CapOfTier` | services/wg-manager/internal/entitlement/limits.go:53-58 | Five devices for the premium spellings, one for every other tier. |
| `Entitlement.RegionIsListed` | services/wg-manager/internal/entitlement/limits.go:112-119 | A region is allowed if and only if some entry of the list, at any position, has its letters, whatever the capitals. |
| `Provisioning.AdmittedIffAdmissible` | services/wg-manager/internal/service/service.go:195-211 | A create is admitted exactly when its tier, the number of its account's live rows, its preferred and its selected region are admissible in that sense. |
| `CacheSafety.StepSafe` | services/wg-manager/internal/service/service.go:225-269 | From a safe state (live addresses distinct, no upsert about to be refused) a step of any kind, cache loss included, leads to a safe state if and only if it is not a report that revives a removed row whose address a create has reserved. |
| `CacheSafety.RunSafe` | services/wg-manager/internal/service/service.go:194-300 | Safety holds along every run without such a report. |
| `CacheSafety.CacheLossIsHarmless` | services/wg-manager/internal/service/service.go:225-269 | In every such run from the empty state, with the bitmaps replaced by anything at any point, no upsert meets the unique index and live addresses of a server are distinct, at every moment. |
| `CacheSafety.PunctualReportsNeverRevive` | services/wg-manager/internal/repository/postgres.go:219-224 | Runs whose reports only reach rows that are not removed never contain such a report. |
| `CacheSafety.LateReportRefusesUpsert` | services/wg-manager/internal/repository/postgres.go:219-224 | After such a report the next upsert on the server fails, the reserved address is unmarked although it is live, and the revived row holds it. |
| `ProvisioningScenarios.LateReportIsReached` | services/wg-manager/internal/repository/postgres.go:219-224 | From the empty state: an account connects and leaves, the next one reserves its address, and the late report of the first one is such a report and breaks safety. |
| `PoolExactness.StepExact` | services/wg-manager/internal/service/service.go:213-300 | "Live addresses are marked; pending releases are distinct, marked and not live; candidates drawn are marked and neither live nor pending" is kept by a step of any kind, in every interleaving, if and only if it does not disturb: a cache loss that forgets an address in use, a report reviving a row whose address is unmarked, pending or drawn or whose slot a create is working on, or a delete of such a slot. |
| `PoolExactness.RunExact` | services/wg-manager/internal/service/service.go:213-364 | The same along every run without a disturbing step. |
| `PoolExactness.FirstCandidateWins` | services/wg-manager/internal/service/service.go:229-247 | In every such run a create's first candidate, the least clear host, passes its check, unless all 254 hosts are marked and the create ends. |
| `PoolExactness.OvertakenDeleteReleasesTwice` | services/wg-manager/internal/service/service.go:277-292 | After such a delete the upsert of the create adds a second release of the same address, unless it brings the same key. |
| `ProvisioningScenarios.SecondAttemptIsReached` | services/wg-manager/internal/service/service.go:229-247 | From the empty state, without cache loss or late report: such a delete, then a create whose first candidate is a live address, so that it needs a second attempt. |
| `ProvisioningScenarios.OvertakingDisturbs` | services/wg-manager/internal/service/service.go:331-341 | A reachable exact state in which the delete of the slot of a reconnection disturbs. |
| `DeviceCaps.StepWithinCaps` | services/wg-manager/internal/service/service.go:195-223 | A step of any kind keeps every account at five devices at most, every create in flight below the cap of the tier it resolved and creates of one account apart, if and only if it neither begins a create while another of its account is in flight nor is a report reviving a row of an account that has five devices or whose create in flight has room for one only. |
| `DeviceCaps.RunWithinCaps` | services/wg-manager/internal/service/service.go:195-269 | The same along every run without such a step. |
| `DeviceCaps.CapsHold` | services/wg-manager/internal/service/service.go:195-223 | In every such run from the empty state no account exceeds five devices; a step that adds one is a create that ends within the cap of its tier, or a report that revives a row, so without such reports the count never grows past the new limit after a downgrade; a peer is superseded only for premium. |
| `DeviceCaps.UpsertEndsWithinCap` | services/wg-manager/internal/repository/postgres.go:131-148 | A create that succeeds leaves its slot live and its account between one device and the cap of its tier. |
| `DeviceCaps.LateReportAddsDevice` | services/wg-manager/internal/repository/postgres.go:219-224 | A report that revives a removed row adds exactly one device, to its account only. |
| `ProvisioningScenarios.SixthDeviceIsReached` | services/wg-manager/internal/repository/postgres.go:219-224 | From the empty state: an account connects to five servers, leaves one and connects to a sixth; the late report of the one it left gives it six devices. |
| `AgentMirror.PushesFollowKeys` | services/wg-manager/internal/service/service.go:274-353 | The updates a service step pushes are exactly the change of the live keys of the server, when creates bring keys no other live row of the server uses and reports reach live rows. |
| `AgentMirror.ReplacementRemovesFirst` | services/wg-manager/internal/service/service.go:277-301 | A replacement with another key pushes the removal of the old one first: no attempt for the new key is made before the removal was accepted, both then reach the agent in that order, and a removal that is given up takes the ADD with it. |
| `AgentMirror.MoveFaithful` | services/wg-manager/internal/communicator/communicator.go:43-86 | "The live keys are what the agent will hold changed by the updates still owed to it, those being pushed and those lost and not made up for" is kept by a service call under the same hypotheses, an attempt that is accepted, fails, meets a full queue, is cancelled or is taken by a stream that is gone, a delivery, a break and a reconnection, if and only if it is not an accepted attempt that overtakes an open push of its key with the other action while no later update of the key is owed. |
| `AgentMirror.RunFaithful` | services/wg-manager/internal/handler/http.go:172-226 | The same along every run without such an attempt, with the connection breaking and coming back at any point. |
| `AgentMirror.MirrorsIffOwedIsHarmless` | services/wg-manager/internal/handler/http.go:172-226 | In every such run from the idle system, the agent will hold exactly the live keys if and only if each update owed that is the last of its key is an ADD of a key it has or a REMOVE of one it has not. |
| `AgentMirror.DrainedAgentMirrors` | services/veritas-agent/cmd/agent/main.go:601-627 | In such runs that lose no update, whatever number of attempts each takes, whenever every push has ended and nothing is in transit the agent holds exactly the public keys of the pending and active rows, also after replacements that push REMOVE before ADD. |
| `AgentMirror.ReplayMirrorsIff` | services/wg-manager/internal/handler/http.go:172-197 | Replaying the live rows as ADDs to a reconnecting agent makes its keys equal to the live ones if and only if the last update owed for each key it holds is no REMOVE; that is, if it holds no other key. |
| `AgentMirror.DeleteBeforeSubscribing` | services/wg-manager/internal/communicator/communicator.go:43-86 | A peer deleted between the listing and the subscription stays on the agent if and only if all three attempts to push its removal fall between them; after fewer, the next attempt takes it away. |
| `AgentMirror.FullQueueLoses` | services/wg-manager/internal/hub/sse.go:80-87 | While a full queue is not read, the third attempt loses the update of a subscribed agent, and what the agent will hold does not change. |
| `MirrorScenarios.RemovalLostWhileBroken` | services/wg-manager/internal/handler/http.go:172-200 | From the idle system: a peer whose removal is pushed three times while the connection is broken stays on the agent after it came back. |
| `MirrorScenarios.RemovalLostBeforeSubscribing` | services/wg-manager/internal/handler/http.go:172-200 | From the idle system: an agent reconnects, its peer is deleted and all three attempts are made between the listing and the subscription, and it keeps the peer while nothing is in transit and no push is open. |
| `MirrorScenarios.RemovalRetriedInTime` | services/wg-manager/internal/communicator/communicator.go:43-86 | The same run with the third attempt after the subscription: the peer goes. |
| `MirrorScenarios.RemovalOvertakesAdd` | services/wg-manager/internal/service/service.go:274-353 | From the idle system, without any failure: the pushes of a create and of the delete after it, each made by a goroutine of its own, are made in the other order, and the agent keeps the deleted peer. |
| `WgService.Redis.AllocateIP` | services/wg-manager/internal/repository/redis.go:27-50 | Answers the first clear bit's host and marks it, or nothing, without a change, when all 254 are marked; a missing bitmap starts at host 2. |
| `WgService.Redis.ReleaseIP` | services/wg-manager/internal/repository/redis.go:52-66 | Clears the bit of the address and changes no other. |
| `WgService.Postgres.IsActiveIPAssigned` | services/wg-manager/internal/repository/postgres.go:117-129 | True exactly when a live row of the server has the address. |
| `WgService.Postgres.ListPeersByAccount` | services/wg-manager/internal/repository/postgres.go:167-191 | Lists exactly the account's live rows, each once. |
| `WgService.Postgres.CreatePeer` | services/wg-manager/internal/repository/postgres.go:131-148 | Upserts the slot's row as pending, keeping the identifier of an existing row; fails without a change exactly when the unique index over live addresses refuses it. |
| `WgService.Postgres.GetPeer` | services/wg-manager/internal/repository/postgres.go:150-165 | Finds the account's live row with the identifier, if there is one. |
| `WgService.Postgres.DeletePeer` | services/wg-manager/internal/repository/postgres.go:226-231 | Marks the account's row with the identifier removed and changes nothing else. |
| `WgService.Postgres.UpdatePeerStatus` | services/wg-manager/internal/repository/postgres.go:219-224 | Sets the row active whatever its status was, unless the unique index refuses. |
| `WgService.Service.Resolve` | services/wg-manager/internal/service/service.go:72-89 | The cached tier where there is one, else the token's normalized tier. |
| `WgService.Service.FindReplaced` | services/wg-manager/internal/service/service.go:213-223 | Finds the account's live row on the server, if there is one. |
| `WgService.Service.TryCandidate` | services/wg-manager/internal/service/service.go:230-244 | One turn of the loop: the candidate is kept, found live, given back after a failed lookup, or there is none. |
| `WgService.Service.ReserveAddress` | services/wg-manager/internal/service/service.go:225-247 | The loop computes `AddressPool.Reserve` from the stored bitmap and the live addresses, touching only this server's bitmap. |
| `WgService.ScanIsRun` | services/wg-manager/internal/service/service.go:229-247 | The loop of a create in flight is a run of the state machine: allocate and check, again and again, up to its end. |
| `WgService.Service.Commit` | services/wg-manager/internal/service/service.go:249-300 | After the address is held, writing the row is one upsert step, or one abandoning step when the key cannot be drawn; the pending release is exactly the superseded address. |
| `WgService.Service.Provision` | services/wg-manager/internal/service/service.go:225-300 | Everything after the entitlement checks is a run of the state machine; a success takes the least free host, writes exactly one row and leaves exactly the superseded address to release; no address means that no host is free; other failures change no row. |
| `WgService.Service.CreatePeer` | services/wg-manager/internal/service/service.go:194-329 | The whole call is a run of the state machine; it is denied, without a change, exactly when the resolved tier, the account's device count and the two regions are not admissible; a success takes the least host neither marked nor live, writes exactly the slot's pending row with the key and the host, and leaves the address of a live row with another key and host to release; a failure leaves every free host unmarked. |
| `WgService.Service.DeletePeer` | services/wg-manager/internal/service/service.go:331-364 | Fails without a change exactly when the account has no such live peer; else it marks that row removed and clears the bit of its address. |
| `WgService.Service.MarkPeerActive` | services/wg-manager/internal/service/service.go:393-395 | The row with the identifier becomes active unless the index refuses; one report step, or no change without such a row. |
| `WgService.Service.FinishReplacement` | services/wg-manager/internal/service/service.go:277-292 | The goroutine releases its address exactly when the removal was pushed. |
| `TierSync.ConsumersAgree` | services/auth-svc/internal/service/subscription_sync.go:27-66 | They agree, on the last tier sent, whenever that one is well spelled, whatever came before it. |
| `TierSync.ConsumersAgreeIff` | services/auth-svc/internal/service/subscription_sync.go:27-66 | After every event log that both handled in order, the cache entry of an account with a renewed or expired event is the normalized tier of its account row if and only if the last tier sent and the last storable one, or the first tier of the row, have the same normal form. |
| `TierSync.MisspelledRenewalParts` | services/auth-svc/internal/service/subscription_sync.go:27-66 | One renewal spelled "Premium" makes a free account premium in the cache and leaves its row free. |
| `TierSync.ResolveIgnoresToken` | services/wg-manager/internal/service/service.go:72-89 | For such an account the resolved tier is the normalized last tier sent, whatever the token says, and the normalized tier of the account row under the same condition. |
| `TierSync.CacheHasLastTier` | services/wg-manager/internal/entitlement/tier_sync.go:45-88 | The cache knows exactly the accounts with a renewed or expired event, each with the normalized tier of the last one. |
| `TierSync.AccountHasLastStorable` | services/auth-svc/internal/service/subscription_sync.go:27-66 | An account row has the last storable tier sent for it, or its first tier without one. |
| `TierSync.TierCache.Lookup` | services/wg-manager/internal/entitlement/tier_sync.go:32-37 | Answers the entry, if there is one. |
| `TierSync.TierCache.Set` | services/wg-manager/internal/entitlement/tier_sync.go:39-43 | Stores the normalized tier for the account and changes no other. |
| `TierSync.TierCache.Handle` | services/wg-manager/internal/entitlement/tier_sync.go:50-74 | One event changes the cache as the log function says: renewals default to premium, expiry is free, cancels and events without account change nothing. |
| `TierSync.CacheFollowsEvent` | services/wg-manager/internal/entitlement/tier_sync.go:50-80 | An expiry of a named account makes its entry "free" whatever tier it carries; a renewal with no tier or a premium spelling makes it "premium", with any other "free"; a cancellation or an event without account changes nothing. |
| `TierSync.AccountRows.UpdateAccountTier` | services/auth-svc/internal/repository/postgres.go:138-143 | Updates an existing row's tier and expiry, unless the database refuses the spelling. |
| `TierSync.AccountRows.Handle` | services/auth-svc/internal/service/subscription_sync.go:27-66 | One event changes the account rows as the log function says. |
| `TierSync.RowFollowsEvent` | services/auth-svc/internal/service/subscription_sync.go:27-75 | An expiry makes an existing row "free" without an end; a renewal with no tier or "premium" makes it "premium" until its period's end, with "free" free; every other spelling, a cancellation and an event without account change nothing. |
| `PeerHub.StepWellFormed` | services/wg-manager/internal/hub/sse.go:37-91 | Every step keeps: no server has an empty subscriber set, every subscriber has a queue and one server. |
| `PeerHub.NoEmptySubscriberSet` | services/wg-manager/internal/hub/sse.go:37-60 | The same in every run. |
| `PeerHub.LaneFollows` | services/wg-manager/internal/hub/sse.go:64-91 | Every step keeps the shared hub in agreement with the single subscriber's own account of it. |
| `PeerHub.QueuesAreFaithful` | services/wg-manager/internal/hub/sse.go:37-91 | In every run, what a subscriber received followed by its queue is, in order, the publishes to its server while subscribed minus exactly those that met its full 32-slot queue; no queue is longer. |
| `PeerHub.Hub.Subscribe` | services/wg-manager/internal/hub/sse.go:37-60 | A new empty queue joins the server's set. |
| `PeerHub.Hub.Unsubscribe` | services/wg-manager/internal/hub/sse.go:46-58 | The subscriber leaves; a set that becomes empty goes with its key. |
| `PeerHub.Hub.Publish` | services/wg-manager/internal/hub/sse.go:64-91 | Every subscriber with room gets the update at the end of its queue, the others lose it; true exactly when one got it. |
| `PeerHub.Hub.Receive` | services/wg-manager/internal/handler/http.go:205-224 | Takes the head of the queue, if there is one. |
| `Push.PushAtMostOnce` | services/wg-manager/internal/communicator/communicator.go:43-86 | Whatever subscribes, unsubscribes, receives or publishes between the attempts, no subscriber gets the update twice, success means that at least one got it, and only the last attempt has takers. |
| `Push.PushIsFirstHeard` | services/wg-manager/internal/communicator/communicator.go:43-86 | A push is the publication at the first attempt that any subscriber with fewer than 32 waiting updates hears, on the hub as the others left it, and exactly those subscribers hear it; if there is none up to the third attempt, or up to the one whose wait is cancelled, it fails and leaves the hub to the others. |
| `Push.TakersGetTheUpdate` | services/wg-manager/internal/hub/sse.go:64-91 | The takers of an attempt are exactly the subscribers whose queue grew, by this update. |
| `Push.LateSubscriberIsReached` | services/wg-manager/internal/communicator/communicator.go:43-86 | A push that finds nobody at its first attempt reaches an agent that subscribes before the second or the third one. |
| `Push.PushWithBackoff` | services/wg-manager/internal/communicator/communicator.go:43-111 | The retry loop over the hub's methods ends in the state and with the result of the push function, for any activity during the waits and a cancellation during any of them. |
| `AgentPeers.ExactIffDisjoint` | services/veritas-agent/internal/peer/manager.go:69-120 | A reconciled device gives each key exactly its wanted networks if and only if the wanted networks are pairwise disjoint. |
| `AgentPeers.SharedAfterPeer` | services/veritas-agent/internal/wireguard/manager.go:119-144 | Configuring one more wanted peer keeps: entries own only wanted networks, no network has two owners, every wanted network of a configured peer has one. |
| `AgentPeers.PeerIsConfigured` | services/veritas-agent/internal/wireguard/manager.go:119-144 | The peer ends with exactly its networks, which every other peer loses, and with its preshared key if one is given, else with the one it had; the others keep theirs. |
| `AgentPeers.Kernel.AddPeer` | services/veritas-agent/internal/wireguard/manager.go:119-144 | On success the peer owns exactly its networks, taken from everyone else, and keeps its preshared key unless one is given; on error the device may or may not have changed; a reliable device fails exactly for keys that do not parse. |
| `AgentPeers.Kernel.RemovePeer` | services/veritas-agent/internal/wireguard/manager.go:146-160 | On success the entry is gone and nothing else changed; a reliable device fails exactly for a key that does not parse. |
| `AgentPeers.Kernel.ListPeers` | services/veritas-agent/internal/wireguard/manager.go:162-178 | Exactly the device's keys, unless it fails. |
| `AgentPeers.CidrsToIPNets` | services/veritas-agent/internal/peer/manager.go:139-153 | A network is in the answer if and only if some entry parses to it, with "/32" added exactly when it has no slash; the networks stand in the order of their entries, one per entry that parses. |
| `AgentPeers.Manager.AddPeer` | services/veritas-agent/internal/peer/manager.go:32-55 | On success device and cached map have the peer; on error the cached map is unchanged. |
| `AgentPeers.Manager.RemovePeer` | services/veritas-agent/internal/peer/manager.go:57-67 | On success device and cached map lose the key; on error the cached map is unchanged. |
| `AgentPeers.Manager.SyncPeers` | services/veritas-agent/internal/peer/manager.go:69-120 | On success, for any prior table and any order, the device has exactly the desired keys, each with only its networks and the right preshared key, and each with exactly its networks if and only if those are pairwise disjoint; the cached map becomes the last configuration per key, and on error it is unchanged. Success needs a network and parsing keys for every wanted peer; on a reliable device whose present keys parse that is enough. |
| `AgentPeers.Manager.BuildWant` | services/veritas-agent/internal/peer/manager.go:73-76 | Exactly the keys of the list, each with its last configuration. |
| `AgentPeers.Manager.RemoveStale` | services/veritas-agent/internal/peer/manager.go:91-97 | Success removes exactly the keys that are not wanted; on a reliable device it fails only for a present key that does not parse. |
| `AgentPeers.Manager.ApplyWanted` | services/veritas-agent/internal/peer/manager.go:99-115 | Success configures every wanted key; on a reliable device it succeeds exactly when every wanted peer has a network and keys that parse. |
| `AgentPeers.HandlePeerUpdate` | services/veritas-agent/cmd/agent/main.go:601-627 | A successful ADD gives the peer exactly the network that "0.0.0.0/0" parses to and is the only case that is reported; a successful REMOVE drops the key; unknown actions change nothing; on a reliable device it fails exactly for keys that do not parse, without a change. |
| `AgentPeers.HandleUpdates` | services/veritas-agent/cmd/agent/main.go:571-590 | On a reliable device any stream of updates leaves the device that the updates whose keys parse leave one after the other, with their preshared keys; the two results below are about that device. |
| `AgentPeers.LastAddTakesEverything` | services/veritas-agent/cmd/agent/main.go:601-627 | After any updates the device has the mirrored keys; once there was an ADD, the key added last has the address space unless it was removed since, and no other key has any address. |
| `AgentPeers.HolderHasEverything` | services/veritas-agent/cmd/agent/main.go:601-627 | From an empty device, after any updates: exactly that key has the address space and every other one nothing. |
| `SweepErasure.SweepStaysAlike` | services/billing-svc/internal/service/service.go:326-358 | A sweep, also one whose write fails, keeps two ledgers alike that differ only in subscriptions without entitlement. |
| `SweepErasure.CallsAgree` | services/billing-svc/internal/service/service.go:96-305 | Any other call, with or without inline expiry on one side, gets the same answer on both and leaves them alike. |
| `SweepErasure.ErasedRunIsAlike` | services/billing-svc/internal/service/service.go:326-350 | A chronological run gives the answers of the run without its sweeps and inline expiries, and ends alike. |
| `SweepErasure.SweepsAreUnobservable` | services/billing-svc/internal/service/service.go:96-358 | Any two chronological runs that differ only in sweeps and inline expiry give the same premium answers, checkout decisions, cancel results and settled period ends. |
| `Ledger.MoneroNeedsDeployedMethods` | services/billing-svc/internal/migrate/002_bitcoin_billing.sql:7-9 | Under the constraint of the embedded migrations a Monero checkout is refused and changes nothing. |
| `PaidTime.StepRemaining` | services/billing-svc/internal/service/service.go:272-284 | One call changes an account's remaining time by one period for an extension, by all of it for a forfeiting checkout, and not otherwise. |
| `PaidTime.PaidTimeIsConserved` | services/billing-svc/internal/service/service.go:243-305 | Over every chronological run, with failures, repeated deliveries, cancels, checkouts and sweeps: time used, remaining and forfeited is the time at the start plus one period per extension. |
| `PaidTime.NothingLostIffNoForfeit` | services/billing-svc/internal/service/service.go:140-165 | No paid time is lost if and only if no checkout overwrites a cancelled but unexpired period. |
| `PaidTime.ChainIsLatest` | services/billing-svc/internal/service/service.go:272-277 | Extending from the later of the old end and now, time after time, ends at the maximum over i of the i-th time plus one period for it and for each later one. |
| `PaidTime.FinalEnd` | services/billing-svc/internal/service/service.go:243-305 | Without forfeits, from no entitlement, the account is entitled exactly until that maximum over its extension times. |
| `PaidTime.ExtensionsAreInvoices` | services/billing-svc/internal/service/service.go:255-291 | When every payment names its account, extensions are the newly settled invoices plus the interrupted ones. |
| `PaidTime.PaidTimePerInvoice` | services/billing-svc/internal/service/service.go:243-305 | From the empty ledger, over every chronological run: time used, remaining and thrown away is one period per distinct settled invoice and one more per interruption. |
| `PaidTime.InvoicesGiveTheirPeriods` | services/billing-svc/internal/service/service.go:243-305 | From the empty ledger, n distinct settled invoices give exactly n periods, used or remaining, if and only if what interruptions added is what checkouts threw away; so in every run with neither. |
| `PaidTime.FinalEndPerInvoice` | services/billing-svc/internal/service/service.go:243-305 | Without forfeits and interruptions an account that settled n distinct invoices is entitled exactly until that maximum over its n settlement times. |
| `Settlement.StepCompletes` | services/billing-svc/internal/service/service.go:255-291 | A payment becomes completed exactly by a settlement that extended first; a completed one never extends again. |
| `Settlement.SettlementSurvivesFailures` | services/billing-svc/internal/service/service.go:243-304 | With any database call failing and any retries, an invoice extends once per interrupted completion and once more exactly when it ends up completed. |
| `Settlement.SettlesExactlyOnce` | services/billing-svc/internal/service/service.go:243-304 | Over any number of deliveries an invoice extends exactly as often as it ends up settled, once or never, if and only if no extension of it is interrupted; other failures do no harm. |
| `Settlement.StepAnnounced` | services/billing-svc/internal/service/service.go:286-297 | One call keeps "an active premium row is announced by the last tier event of its account" if and only if it is not a settlement that fails after writing the row of an account whose last tier event does not say premium. |
| `Settlement.RunAnnounced` | services/billing-svc/internal/service/service.go:286-297 | The same along every run without such a settlement of the account, with any other failures. |
| `Settlement.PremiumEverywhereIff` | services/auth-svc/internal/service/subscription_sync.go:27-66 | After any run with any failures, an account with a tier event is premium in the account row, and in the resolved tier, if and only if its last tier event says premium. |
| `Settlement.ActivePremiumIsPremiumEverywhere` | services/auth-svc/internal/service/subscription_sync.go:27-66 | After every such run whose events both consumers handled, an active premium row means premium in the account row and in wg-manager's resolved tier, whatever the token says. |
| `Settlement.SilencedPremium` | services/billing-svc/internal/service/service.go:286-297 | Such a settlement leaves the account entitled and its row unannounced, and sends nothing. |
| `Settlement.CompletedDeliveriesAreSilent` | services/billing-svc/internal/service/service.go:255-257 | Once the completion was written, reported or not, every later delivery of the invoice changes and sends nothing, whatever happens in between. |
| `BillingScenarios.PaidButSilenced` | services/billing-svc/internal/service/service.go:286-297 | From the empty ledger: an order and a settlement whose completion is written but reported as failed give an entitled account that no event announces, so its token decides its tier. |
| `BillingScenarios.PaidOnceEntitledTwice` | services/billing-svc/internal/service/service.go:286-291 | From the empty ledger: a lost completion and its retry give two periods for one invoice. |
| `BillingScenarios.PaidAndForfeited` | services/billing-svc/internal/service/service.go:140-165 | From the empty ledger: an order, its settlement, a cancel and a second checkout throw away the whole period that was paid. |
| `BillingOutcomes.SweepExpires` | services/billing-svc/internal/service/service.go:342-358 | A sweep makes an active premium row whose end has passed free for a hundred years and tells it, as far as the write goes, and changes no other row. |
| `BillingOutcomes.StatusTells` | services/billing-svc/internal/service/service.go:96-128 | A status request does the same, gives an account without a row a free one, and reports premium exactly while an active premium period runs. |
| `BillingOutcomes.CheckoutTells` | services/billing-svc/internal/service/service.go:131-199 | A checkout succeeds exactly when it names an account without a running, uncancelled premium period, the payment method is permitted, an invoice is issued and no call fails; then a free row keeps its tier and period, any other becomes a pending premium row, and the payment is recorded unless the invoice is known. |
| `BillingOutcomes.FailedCheckoutLeaves` | services/billing-svc/internal/service/service.go:131-199 | What a refused or failed checkout leaves behind, for each place where it can fail. |
| `BillingOutcomes.MoneroCheckout` | services/billing-svc/internal/service/service.go:131-199 | A Monero checkout that nothing bars succeeds and is recorded under the deployment's payment methods, and fails without a change under the service's own. |
| `BillingOutcomes.CancelTells` | services/billing-svc/internal/service/service.go:201-218 | A cancellation marks the row, leaves its period alone and sends its tier if the write reports success; it fails for an account without a row. |
| `BillingOutcomes.PayableInvoiceSettles` | services/billing-svc/internal/service/service.go:243-305 | For every ledger: a delivery without failures of a recorded, uncompleted payment of an account with a row completes that payment, gives the account exactly one more period, starting at the end of a running one, and sends the new end. |
| `BillingOutcomes.FailedSettlementLeaves` | services/billing-svc/internal/service/service.go:243-305 | A failed delivery sends nothing; it leaves the row from an unreported update on and the completed payment only where the completion was written. |
| `BillingOutcomes.OtherDeliveries` | services/billing-svc/internal/service/service.go:243-271 | Every other delivery changes nothing: settled invoices are acknowledged, unknown ones and those without an account refused. |
| `BillingOutcomes.RecordedInvoiceSettles` | services/billing-svc/internal/service/service.go:243-305 | After every run from the empty ledger, with any failures, a recorded invoice that is not completed settles at its first delivery without failures and gives one period. |
| `BillingOutcomes.DeliveredInvoiceIsCredited` | services/billing-svc/internal/service/service.go:243-305 | Once one delivery without failures was made for a recorded invoice, it is completed and has extended its account at least once, and exactly once if and only if no extension of it was interrupted. |
| `BillingOutcomes.ExpiryReachesConsumers` | services/billing-svc/internal/service/service.go:342-358 | Once an overdue period's expiry was written and both consumers handled the events, the account row is free and so is the resolved tier, whatever the token says. |
| `BillingOutcomes.SettlementReachesConsumers` | services/billing-svc/internal/service/service.go:243-305 | Once an invoice was settled without failures and both consumers handled the events, its account is premium in both, in its row until the end of the period paid for. |
| `BillingService.Service.EnsureFree` | services/billing-svc/internal/service/service.go:70-93 | An account without a row gets a free one for a century; an existing row is returned untouched. |
| `BillingService.Service.ExpireOne` | services/billing-svc/internal/service/service.go:342-358 | The row becomes free unless the write is lost, the expired event is published only if the write reports success, and the copy of the caller is rewritten in any case. |
| `BillingService.Service.GetStatus` | services/billing-svc/internal/service/service.go:96-128 | One status step of the ledger and its answer, also when the inline expiry is lost or unreported. |
| `BillingService.Service.CreatePremiumCheckout` | services/billing-svc/internal/service/service.go:131-199 | One checkout step of the ledger and its answer, for every database call that can fail and for every payment method. |
| `BillingService.Service.CancelSubscription` | services/billing-svc/internal/service/service.go:201-218 | One cancel step of the ledger and its answer, also when the write is lost or unreported. |
| `BillingService.Service.Renew` | services/billing-svc/internal/service/service.go:272-288 | The period is extended from its end while it runs, else from now; a lost write changes nothing. |
| `BillingService.Service.SettleInvoice` | services/billing-svc/internal/service/service.go:243-305 | One settlement step of the ledger and its answer, for every place where the database can fail. |
| `BillingService.Service.ExpireDueSubscriptions` | services/billing-svc/internal/service/service.go:326-340 | A run of sweeps; afterwards exactly the due accounts whose writes were lost are due, rows that were not due are untouched, and the count is the number of accounts whose writes reported success. |
| `CliConfig.Connect` | clients/cli/cmd/main.go:209-219 | Every field of the configuration comes from its field of the answer; the addresses are the first non-empty of the client's list, the peer's list and everything; DNS defaults to 1.1.1.1. |
| `CliConfig.ParseConfig` | clients/cli/internal/tunnel/tunnel.go:146-187 | The scanning loop computes the fold of its lines. |
| `CliConfig.Assign` | clients/cli/internal/tunnel/tunnel.go:166-183 | The switch over the key sets that field only; AllowedIPs appends its trimmed entries. |
| `CliConfig.RenderIsItsLines` | clients/cli/cmd/main.go:221-237 | The printed text is its headings and settings, one per line, in order. |
| `CliConfig.RenderIsText` | clients/cli/cmd/main.go:226-237 | The file letter by letter: both sections with their keys, in order, and the preshared key only if there is one. |
| `CliConfig.RawLinesOfUnlines` | clients/cli/internal/tunnel/tunnel.go:153-154 | Splitting a text into lines undoes joining lines that hold no line break. |
| `CliConfig.UnterminatedLine` | clients/cli/internal/tunnel/tunnel.go:153-154 | A last line without a line break is read as well. |
| `CliConfig.LineIsApplied` | clients/cli/internal/tunnel/tunnel.go:155-183 | A printed line parses to its key's assignment of its trimmed value, also with '=' in the value; headings are skipped. |
| `CliConfig.SettingIsRead` | clients/cli/internal/tunnel/tunnel.go:155-183 | A setting may have any blanks before, between and after its key, the first "=" and its value. |
| `CliConfig.LineIsSkipped` | clients/cli/internal/tunnel/tunnel.go:156-162 | Blank lines, comments, headings and lines without "=" change nothing. |
| `CliConfig.ParsedIsClean` | clients/cli/internal/tunnel/tunnel.go:146-187 | Whatever the text, no parsed value has surrounding blanks or a line break, and no entry a comma. |
| `CliConfig.JoinedEntries` | clients/cli/internal/tunnel/tunnel.go:178-181 | Splitting and trimming a joined address list gives it back, also with empty entries; the empty list becomes one empty entry. |
| `CliConfig.LongLineIsLost` | clients/cli/internal/tunnel/tunnel.go:153-154 | A line that fills the scanner's buffer takes its setting with it, so the configuration is not read back. |
| `CliConfig.RoundTrip` | clients/cli/internal/tunnel/tunnel.go:146-187 | Parsing the printed configuration returns it if and only if its values are trimmed and without line breaks, its addresses without commas, its address list is not empty, and every line fits the scanner. |
| `CliConfig.ConnectionRoundTrips` | clients/cli/cmd/main.go:209-237 | For a clean private key and every clean answer of the API the address list is not empty and the written configuration is read back exactly when its lines fit. |
| `Captions.CaptionGroups` | tools/build_cold_wallet_trust_video.py:78-102 | The loop's groups are a segmentation: the non-blank words in order, never broken where no rule breaks, always broken where one does. |
| `Captions.CaptionLimits` | tools/build_cold_wallet_trust_video.py:85-99 | Every caption has one to seven words, at most 42 characters unless it is one word, and inside it no sentence ends and no pause exceeds 0.42 seconds. |
| `Captions.CaptionsBreakForAReason` | tools/build_cold_wallet_trust_video.py:86-99 | A caption that is not the last one has seven words, would exceed 42 characters with the next word, is followed by a pause of more than 0.42 seconds, or ends its sentence. |
| `Captions.EndsSentenceIsPunctuated` | tools/build_cold_wallet_trust_video.py:91-97 | A word ends its sentence if and only if its text ends in ".", "?" or "!", whatever blanks follow. |
| `Captions.SpokenConcat` | tools/build_cold_wallet_trust_video.py:81-84 | The words read are those of the first part followed by those of the second, for every way to cut the list. |
| `Captions.SpokenOne` | tools/build_cold_wallet_trust_video.py:82-84 | A single word is read if and only if it has a character that is no blank. |
| `Captions.SegmentationIsUnique` | tools/build_cold_wallet_trust_video.py:78-102 | No other grouping of the words is a segmentation. |
| `CaptionTiming.TokensAreTheRuns` | tools/build_cold_wallet_trust_video.py:48-48 | The tokens of a text are the only sequence of non-empty pieces without blanks that it can be put together from with gaps of blanks, of which only the first and the last may be empty. |
| `CaptionTiming.TimeSentence` | tools/build_cold_wallet_trust_video.py:47-55 | The cursor loop computes each word's start and end from the weights before it. |
| `CaptionTiming.TimedWords` | tools/build_cold_wallet_trust_video.py:45-56 | The words of all sentences, in order. |
| `CaptionTiming.AllWordsConcat` | tools/build_cold_wallet_trust_video.py:47-56 | The words of a list of sentences are those of its first part followed by those of the rest. |
| `CaptionTiming.WordsPartitionSentence` | tools/build_cold_wallet_trust_video.py:50-55 | For all positive weights the words are the tokens, fill the sentence without gap or overlap, and each lasts in proportion to its own token's weight. |
| `CaptionTiming.WordsInOrder` | tools/build_cold_wallet_trust_video.py:45-56 | For sentences in order, all words are: each has a length, none starts before an earlier one has ended, and all end within the video. |
| `CaptionTiming.TimedWordsAreSpoken` | tools/build_cold_wallet_trust_video.py:78-84 | The segmenter drops none of the timed words. |
| `CaptionTiming.Entries` | tools/build_cold_wallet_trust_video.py:230-235 | One entry per group, from its first word's start to 0.08 seconds after its last word, cut to 0.02 seconds before the next group and to the video. |
| `CaptionTiming.EntryIsCut` | tools/build_cold_wallet_trust_video.py:230-235 | An entry's end is the first of three moments: 0.08 seconds after its last word, 0.02 seconds before the next group starts (or before 59.475 seconds), and 59.475 seconds. |
| `CaptionTiming.RenderTrack` | tools/build_cold_wallet_trust_video.py:183-194 | Whatever the entries, the frame with number f shows what the cursor stands at f/15 seconds: the first entry that has not ended, if it has started. |
| `CaptionTiming.CursorSearchesIffDisjoint` | tools/build_cold_wallet_trust_video.py:183-194 | That is at every time just the entry a search through all entries finds, if and only if no entry starts before an earlier one has ended, unless it has no time of its own. |
| `CaptionTiming.EntriesInOrder` | tools/build_cold_wallet_trust_video.py:229-235 | For words in order each entry ends before every later one starts, and no later than it ends. |
| `CaptionTiming.CaptionsPlay` | tools/build_cold_wallet_trust_video.py:183-235 | For sentences in order and any weights: ends never decrease, each caption ends before the next starts, and the cursor finds what the search finds. |
| `CaptionTiming.SpokenWordIsShown` | tools/build_cold_wallet_trust_video.py:229-235 | While a word is spoken its caption is shown, but for the last 0.02 seconds before the next caption. |
| `CaptionTiming.CaptionTrack` | tools/build_cold_wallet_trust_video.py:200-235 | From sentences to frames: a segmentation of the timed words, its entries, and for each of 893 frames what the cursor shows. |
| `CaptionTiming.VideoIsOrdered` | tools/build_cold_wallet_trust_video.py:30-42 | The video's sentences are in order and within it. |
| `AuthTokens.DeletedForGood` | services/auth-svc/internal/repository/postgres.go:20-31 | A deleted account stays deleted in every run, also when its device registers again. |
| `AuthTokens.NoWayBackIn` | services/auth-svc/internal/service/service.go:92-131 | After an existing account is deleted, no refresh and no sign-in for it succeeds in any run, with any database call failing, also when the purge failed or its device registers again. |
| `AuthTokens.DeletedDeviceGetsDeadToken` | services/auth-svc/internal/service/service.go:38-90 | Registering a deleted account's device returns that account with a refresh token whose redemption is refused. |
| `AuthTokens.DeletedDeviceIsReached` | services/auth-svc/internal/service/service.go:38-90 | From empty tables, registering, deleting and registering the device again returns the deleted account. |
| `AuthTokens.TokensAreConserved` | services/auth-svc/internal/service/service.go:92-131 | With any failures, a token is found by refreshes as often as it was there, was stored or was left by a failed removal, less its purges and whether it is still there; only found tokens are redeemed. |
| `AuthTokens.RedeemedAtMostOnce` | services/auth-svc/internal/service/service.go:92-131 | With newly drawn tokens, a token is redeemed at most once more than its removal failed, and at most once if none failed. |
| `AuthTokens.RotationKeepsOneLive` | services/auth-svc/internal/service/service.go:92-131 | With any failures, everything a token is rotated into belongs to its account, and at most one of it is stored, expired or not, beside one per failed removal. |
| `AuthTokens.RotationKeepsExactlyOneLive` | services/auth-svc/internal/service/service.go:92-131 | Without failures exactly one token of the lineage is stored for as long as the account is not deleted, and its row expires 30 days after the last rotation (with none, as issued). |
| `AuthTokens.LastTokenRefreshes` | services/auth-svc/internal/service/service.go:92-131 | Presenting that one token, with no failure, opens a session of the account if and only if it is before that expiry; no other token of the lineage is stored. |
| `AuthOutcomes.EmailSignIn` | services/auth-svc/internal/service/service.go:235-275 | For all tables: an e-mail sign-in opens a session of the address's account if and only if both texts are given, the read succeeds, the account exists, is not deleted and has a password, the password matches, and the token is new and stored; it changes nothing else. |
| `AuthOutcomes.IdentifierSignIn` | services/auth-svc/internal/service/service.go:407-444 | The same for a sign-in by account identifier, which needs an account that is not deleted. |
| `AuthOutcomes.TokenRefresh` | services/auth-svc/internal/service/service.go:92-131 | A refresh takes an unexpired token even if it then fails, and opens a session for thirty days if the token's account is not deleted. |
| `AuthOutcomes.DeviceRegistration` | services/auth-svc/internal/service/service.go:38-90 | Registering a device opens a session of the device's account, whose key is replaced, or of a new account without password; both texts must be given; an anonymous registration draws the device and has no key. |
| `AuthOutcomes.EmailRegistration` | services/auth-svc/internal/service/service.go:168-233 | Registering an address opens a session of a new account with that password if and only if both texts are given, the password has six bytes, and address, device and identifier are new. |
| `AuthOutcomes.AccountDeletion` | services/auth-svc/internal/service/service.go:156-166 | A deletion succeeds exactly when its mark is reported as written, and then takes exactly the account's tokens unless that fails. |
| `AuthOutcomes.RegisteredEmailSignsIn` | services/auth-svc/internal/service/service.go:168-275 | After a successful registration with an address, and any run that does not delete the account: signing in with the address gives that account if the password matches, and is refused if it does not. |
| `AuthService.Service.InsertAccount` | services/auth-svc/internal/repository/postgres.go:20-31 | A known device keeps its account and gets the new key, a known identifier is refused, else a row is added. |
| `AuthService.Service.StoreRefreshToken` | services/auth-svc/internal/repository/postgres.go:151-156 | Adds the token with its 30 days, unless the write is lost or the hash exists. |
| `AuthService.Service.Register` | services/auth-svc/internal/service/service.go:38-90 | One registration step and its answer. |
| `AuthService.Service.RegisterAnonymous` | services/auth-svc/internal/service/service.go:356-405 | One anonymous registration step and its answer. |
| `AuthService.Service.RegisterWithEmail` | services/auth-svc/internal/service/service.go:168-233 | One e-mail registration step and its answer; a known address is refused. |
| `AuthService.Service.SignInWithEmail` | services/auth-svc/internal/service/service.go:235-275 | One e-mail sign-in step and its answer. |
| `AuthService.Service.SignInWithAccountID` | services/auth-svc/internal/service/service.go:407-444 | One sign-in step and its answer. |
| `AuthService.Service.RefreshToken` | services/auth-svc/internal/service/service.go:92-131 | One refresh step and its answer: the old token goes first, the account is looked up after. |
| `AuthService.Service.DeleteAccount` | services/auth-svc/internal/service/service.go:156-166 | One deletion step and its answer: a failed mark ends it, a failed purge does not. |

## Left out

- Overlapping creates on one server, a report or delete between the two halves of another call, two refreshes of
  one token between its lookup and its removal, a sweep between listing and writing: the code does not order them,
  and the proofs take them as hypotheses or as single steps. Allocation's read and write of the bitmap, a failed
  create giving its candidate back, and a delete's lookup and removal of its row are one step each.
- AgentMirror.PushesFollowKeys: assumes that a create brings a key no other live row of the server uses and that
  reports reach live rows; a report that revives a row pushes nothing.
- AgentMirror.MoveFaithful: takes the agent's own calls as successful and one stream per agent.
- AuthTokens.RedeemedAtMostOnce: assumes that drawn tokens are new and that refreshes do not overlap.
- Splitting the FREE_ALLOWED_REGIONS setting into its list: any list of regions is taken.
- Which server the scheduler selects, server registration apart from its subnet text, heartbeats, subnets beyond
  256 servers: any server and region is taken as selected.
- The 'failed' peer status, the failed and refunded payment statuses and the suspended account status, which the
  code never writes; the preshared key, allowed addresses, creation and expiry columns of peers.
- Failing Redis and PostgreSQL calls of wg-manager other than the address lookup, the upsert's refusal, and the
  giving up that the state machine allows at any point of a create.
- Failing database reads of a status request and of the sweep's listing, which change nothing, and the free row a
  status request adds when that write fails.
- Overlapping deliveries of one invoice: the two webhook types that settle
  (services/billing-svc/internal/service/service.go:235) can both pass the completed check before either completes
  the payment, and then both extend. A delivery is one step here.
- An event whose publishing fails is only logged (services/billing-svc/internal/service/service.go:360-372); in the
  model every event of a call that succeeds is published.
- `SyncPeers` has no caller in the repository; it is modelled as a method on its own.
- A second call of an unsubscribe function, keep-alive lines, server-sent-event encoding, reconnection delays and time-outs
  other than the cancelled context of a push.
- Case folding beyond ASCII: region names fold ASCII letters, U+212A and U+017F, tiers lower-case ASCII letters, U+0130
  and U+212A; every other character is taken as its own fold.
- Network parsing and key decoding are parameters; alternative base64 spellings of one key count as different keys.
- Leading blanks in Sscanf, which no printed address has.
- A call happens at one instant; the code reads the clock several times.
- Reading the configuration file, key generation and the tunnel commands; the scanner's error is ignored, as the
  code does.
- JWT signing and validation, blacklisted access tokens, password hashing, password reset, random generation and
  SHA-256, which is taken as injective; an access token stays valid until it expires whatever happens to the account.
- Word weights are any numbers of at least one; floating-point rounding, image and ffmpeg work, subtitle files and
  scene segments are not modelled.
- Desktop, Android, browser-extension and website code, maps, dashboards, HTTP routing, mock checkout, prices, Stripe
  and Firebase code: user interface, plumbing or easy members.
