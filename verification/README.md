# Verification model of the VPN's control plane, edge agent and client core

The product keeps one promise across three programs: a paying user's device has a
working tunnel, and nobody else does. The control plane keeps a table of what each
edge box should hold and drives the boxes towards it. The edge agent turns that into
a WireGuard interface. The phone decides, event by event, what happens to traffic
while a tunnel comes and goes. This project models those cores in Dafny and proves
what they are for. Check it with `dafny verify dfyconfig.toml`.

How it is laid out, one module a file:

- `PeerRows`, `PeerStore`: the peer table, every statement that writes it, address
  allocation; as functions on the table and as a class that updates it.
- `Acknowledgement`: the table under concurrency, with workers holding old snapshots;
  `EdgeContents` adds what is on the boxes meanwhile.
- `ControlPlane`: table and boxes together, each push taking effect and being recorded
  or doing nothing. `LocationSwitch` (with `Provision` and `LateRemoval`) and
  `Reconciler` (with `Backoff`) run on it.
- `Selector`: which servers to try. `WireGuard`, `WgClient`: the interface and its
  client. `EdgeSync` joins table and interface.
- `Subscriptions`, `ConcurrentGrants`, `Payments`, `PaidTime`, `RateLimiter`: prepaid
  time, grants that run at once, settlement, the two together, throttling.
- `ReliabilityEngine`, `EngineGuarantees`, `EngineActions`: the phone's state machine,
  what holds of it over all runs, and what it asks for when. `TunnelService` closes the
  loop with its timers, attempts and data path; `ServiceTraffic` says where packets go.
  `TransportLadder`, `MtuPolicy` and `TunnelConfig` are beneath.
- `PacketInspector`, `TrafficClassifier`, `PacketPipeline`: the packet path.

Each machine is a `Next` (or `Step`) function and a `Run` over a list of events; a
theorem about all runs is an induction over that list. Code that updates in place is a
class or a method on an array whose `ensures` equate the new state with the function
the theorems speak about. A step that is not enabled does nothing, so theorems need no
well-formedness of the event list.

Where code and documentation differ, the model follows the code:

- The comment on MarkRevoked says a revoked address stays out of circulation for a
  while (server/internal/store/peers.go:188-190). Allocation looks at rows that are not
  revoked (line 156): `PeerRows.ARevokedAddressIsFreeAtOnce`.
- The comment on SetPeer speaks of a rotation never leaving both keys valid
  (edge/internal/wg/wg.go:81-85). That holds on the box. But removal names the present
  key only (server/internal/provision/reconciler.go:129), so a device revoked between
  rotating and the next push keeps its replaced key:
  `ControlPlane.RevocationIsCleanExactlyWhen` says when, and
  `ControlPlane.AnUncleanRevocationLeavesTheReplacedKey` for how long.
- The agent compares no revisions (edge/internal/agent/agent.go:104-128), so an answer
  to an old snapshot can take an active row's key off its box or give a revoked row's
  key back, which the table does not show. `EdgeContents.AcknowledgedKeysStayExactlyWhen`
  and `EdgeContents.RevokedKeysStayOffExactlyWhen` say exactly when.
- A location switch is said never to leave the device with nothing
  (server/internal/provision/provision.go:173-174). A removal read before a switch back
  and landing after it does; `LocationSwitch.GapsOpenExactlyWhen` is the exact condition
  and `LateRemoval.ALateRemovalLeavesNothing` the run.
- Sync is said to make the interface hold exactly the given peers
  (edge/internal/wg/wg.go:132). It compares only the first address of each peer, so this
  holds under the condition in `WgClient.Client.Sync`: distinct addresses, and no stray
  address on a peer it skips. Interfaces driven by this client alone never have one.
- Direct traffic is said to be reachable only in soft mode and only after the grace
  window (android/core/src/main/kotlin/ng/proxify/core/ConnectionState.kt:51-55). A
  disconnect in either mode and a terminal failure in soft mode get there too, inside a
  running window as well; `EngineGuarantees.TrafficTurnsDirectExactlyWhen` lists all the
  ways. That the user is told is another matter
  (android/core/src/main/kotlin/ng/proxify/core/ReliabilityEngine.kt:295-297): two inputs
  change the status over direct traffic, and by
  `EngineGuarantees.DirectTrafficIsAnnounced` no others do.
- Blocked traffic is said to enter the tun and go nowhere, and direct traffic to have the
  tun torn down (android/app/src/main/java/ng/proxify/vpn/vpn/ProxifyVpnService.kt:213-220).
  BLOCK opens no tun, so it holds nothing before an attempt has opened one
  (`ServiceTraffic.StrictModeHoldsExactlyOnceATunIsOpen`), and an attempt opens one under
  direct traffic too (`ServiceTraffic.DirectTrafficFlowsExactlyWhen`).
- CONNECTED is said to mean the tunnel is up
  (android/core/src/main/kotlin/ng/proxify/core/ConnectionState.kt:17-18). An attempt may
  report success after its backend was stopped:
  `ServiceTraffic.ConnectedMeansTunnelledExactlyWhen`.
- A disconnect is said to end protection at once
  (android/core/src/main/kotlin/ng/proxify/core/ReliabilityEngine.kt:153-155), yet an
  attempt in flight may still bring the tunnel up:
  `EngineGuarantees.ADisconnectedPhoneShowsConnectedExactlyWhen`.
- Every stage of a pipeline is said to be undone by the other end
  (android/core/src/main/kotlin/ng/proxify/core/PacketPipeline.kt:17-19). The marking
  stage is not: `TrafficClassifier.MarkingIsNotUndone` says for which packets.
- Settling is said to grant exactly once per reference
  (server/internal/api/payment_handlers.go:215-217). A grant that fails after the settle
  is never made up for, nor one whose settle was not heard:
  `Payments.SettledMeansOneBlockExactlyWhen` and `Payments.ALostGrantIsLostForGood`.
- Blocks are said to stack so that no paid time is lost
  (server/internal/store/subscriptions.go:49-51). Grants that run at once can lose some:
  `ConcurrentGrants.TimeIsLostExactlyWhen`.
- Writing a DSCP that is already there returns early, so a verifying checksum of 0xFFFF
  stays where recomputation would give 0; `PacketInspector.MarkingAnIpv4Header` states
  exactly when the two agree.

## Model

| member | source | states |
|---|---|---|
| `PeerRows.AllocationFailsExactlyWhenFull` | `server/internal/store/peers.go:134-167` | In any indexed table, allocation on a server fails if and only if its subnet has fewer than two host bits or all 2^h - 3 usable offsets are held; never more than that many are held (pigeonhole over the held rows). |
| `PeerRows.EnsureIsIdempotent` | `server/internal/store/peers.go:56-130` | Asking again for the same device, server and key, at any later time, returns the same answer and changes nothing, new row and revival of a revoking row included. |
| `PeerRows.EnsureKeepsIndexes` | `server/internal/store/peers.go:69-130` | The two partial unique indexes hold after every request: no device or address twice among the held rows of a server, every address inside 2..2^h - 2. |
| `PeerRows.ARevokedAddressIsFreeAtOnce` | `server/internal/store/peers.go:154-157` | Once a revocation is recorded the address is free, and the next allocation on that server succeeds with an offset no higher: no cool-down. |
| `PeerRows.LowestFree` | `server/internal/store/peers.go:148-166` | The offset returned is free and everything below it is taken; none is returned only if all are taken. |
| `PeerRows.NewWishesAreDueAtOnce` | `server/internal/store/peers.go:92-130` | A request, a revocation and a staleness mark each leave every row they concern at its next revision, due at once with no attempts behind it, and every other row as it was; a request's row asks for the key on the server. |
| `PeerStore.Store.EnsureAssignment` | `server/internal/store/peers.go:69-130` | In place: the table after the call is the specified one, the indexes hold, and the row returned is the specified one; four outcomes (kept, re-keyed, inserted, refused) with their errors. |
| `PeerStore.Store.AllocateIp` | `server/internal/store/peers.go:134-167` | The search over offsets returns the lowest one free, or nothing when none is. |
| `PeerStore.Store.RecordApplied` | `server/internal/store/peers.go:171-186` | The update lands only on a pending row of no newer revision, and then forgets the replaced key. |
| `PeerStore.Store.RecordRevoked` | `server/internal/store/peers.go:191-203` | The update lands only on a revoking row of no newer revision. |
| `PeerStore.Store.RecordAttemptFailed` | `server/internal/store/peers.go:206-216` | Only attempts, the clipped cause and the retry time of that one row change. |
| `PeerStore.Store.Revoke` | `server/internal/store/peers.go:220-252` | Every live row in scope, and no other, turns revoking at its next revision; the count returned is how many did. |
| `PeerStore.Store.MarkStale` | `server/internal/store/peers.go:353-361` | Every live row of the server, and no other, goes back to pending at its next revision; the count returned is how many did. |
| `Acknowledgement.EveryActiveRowWasAcknowledged` | `server/internal/store/peers.go:171-186` | Over every run of requests, workers and resyncs on snapshots of any age, with late, repeated and lost answers: an active row was acknowledged by the edge with exactly its present key and address at its present revision. |
| `Acknowledgement.AcknowledgementSound` | `server/internal/provision/reconciler.go:100-147` | The invariant behind it, which also covers revoked rows and says no row claims a revision beyond its own. |
| `Acknowledgement.RunAdvances` | `server/internal/store/peers.go:92-112` | Over every run no revision or applied revision falls, no row changes device, server or address, equal revisions mean equal wishes, and a revoked row is final. |
| `Acknowledgement.LateAcknowledgementIsIgnored` | `server/internal/store/peers.go:169-203` | Recording an acknowledgement of an older revision changes nothing at all, so it can neither activate nor revoke a newer desired state. |
| `Acknowledgement.AnAnswerSettlesItsRowExactlyWhen` | `server/internal/store/peers.go:169-203` | In every reachable state an answer that is recorded makes its row active or revoked, at exactly its revision and key and with no other row touched, if and only if the row still waits for that revision; else nothing changes. |
| `Acknowledgement.ReachableTablesAreIndexed` | `server/migrations/0001_init.sql:203-212` | Every reachable table keeps the indexes, so the allocation theorem applies to all of them. |
| `EdgeContents.AcknowledgedKeysStayExactlyWhen` | `edge/internal/agent/agent.go:104-186` | With what is on the boxes added to that machine, over every run: each row the edge has acknowledged, active ones included, has its key installed at every point if and only if no call is answered that takes an acknowledged key away (a removal of it, a push replacing it, or a sync to a list without it). |
| `EdgeContents.CurrentCallsTakeNothing` | `server/internal/provision/reconciler.go:115-135` | Only a call the table has outrun can do that: a push of a row whose revision moved on or that is over, or a sync of a list missing a live row as it now is. |
| `EdgeContents.TimelyAnswersKeepEveryKey` | `server/internal/provision/reconciler.go:100-135` | If every call is answered before the table outruns it, no active row ever misses its key, over every run. |
| `EdgeContents.ALateRemovalTakesAnActiveKey` | `server/internal/provision/reconciler.go:128-132` | It is reached: a removal picked up before its row was revived and answered after the revived row was recorded leaves an active, applied row without its key. |
| `EdgeContents.RevokedKeysStayOffExactlyWhen` | `edge/internal/agent/agent.go:104-186` | The dual, over every run: each row whose removal the edge has acknowledged, revoked ones included, has its key off its box at every point if and only if no call is answered that installs it there. |
| `EdgeContents.CurrentCallsPutBackTheWanted` | `server/internal/provision/reconciler.go:115-135` | A call the table bears out does that only for a live row of the server that carries the key. |
| `EdgeContents.ALateInstallReturnsARevokedKey` | `server/internal/provision/reconciler.go:118-127` | It is reached: a push overtaken by the removal of its row lands after it, and the revoked row's key is on the box. |
| `ControlPlane.EveryInstalledKeyIsAccountedFor` | `server/internal/provision/reconciler.go:115-135` | After any run, box wipes included, every installed key is the present key of a held row there or the replaced key of some row there; an active row has no earlier key of its own still installed; on a box not wiped since its last resync an active row has its key installed. |
| `ControlPlane.RunKeepsAccount` | `server/internal/store/peers.go:92-112` | The accounting invariant survives every run: rotation, requests, pushes, losses, revocations, wipes and resyncs. |
| `ControlPlane.ResyncIsExact` | `server/internal/provision/reconciler.go:192-219` | A resync leaves a box with exactly the keys of its pending and active rows, whatever was on it, turns those rows active, and touches no other box. |
| `ControlPlane.RevocationIsCleanExactlyWhen` | `server/internal/provision/reconciler.go:128-132` | For every reachable state and revoking row: after its removal none of the keys it ever carried is on its box if and only if it replaces no key or the replaced key is not installed. |
| `ControlPlane.AnUncleanRevocationLeavesTheReplacedKey` | `server/internal/provision/reconciler.go:128-132` | Otherwise the replaced key stays on the box through every later run that neither wipes nor resyncs it. |
| `ControlPlane.LeftBehindUntilWipeOrResync` | `server/internal/provision/reconciler.go:115-135` | Likewise for any installed key its device has moved on from and no held row carries or replaces: nothing else ever removes it. |
| `ControlPlane.RevokingMidRotationLeavesTheReplacedKey` | `server/internal/provision/reconciler.go:128-132` | Such a row comes about: a device revoked between rotating and the push of its new key. |
| `LocationSwitch.SwitchingNeverLeavesAGap` | `server/internal/provision/provision.go:166-193` | From a state in which nothing was taken: in every run in which no call takes the device's present key off a box, served stays served at every point, whatever calls are lost before, half way or after taking effect, whatever goes unrecorded and however old the readings calls are made for. |
| `LocationSwitch.GapsOpenExactlyWhen` | `server/internal/provision/provision.go:166-193` | Over every run, calls for readings of any age included: the device stays served at every point if and only if no such call takes its present key off the one box that serves it, and the others are never revoked when the chosen server has lost that key. |
| `LocationSwitch.CurrentReadingsTakeNothing` | `server/internal/provision/reconciler.go:115-135` | A call for a reading the table still bears out takes nothing from a row that serves: only calls the table has outrun can. |
| `LateRemoval.ALateRemovalLeavesNothing` | `server/internal/provision/provision.go:200-204` | A run of switching away and back in which a removal read in between lands last: nothing serves, the row is active and applied, and a further request takes the fast path and reports success. |
| `LocationSwitch.ReachableStatesWillDo` | `server/internal/provision/provision.go:166-193` | The theorem applies in every state the control plane reaches, past rotations of the device included, unless a box with an active row of the device awaits a resync. |
| `LocationSwitch.SuccessLeavesOneServer` | `server/internal/provision/provision.go:171-179` | When a request has settled on a server, no call having taken the key, and its revoke write lands, that server is the only one with a pending or active row for the device, and it has the key. |
| `Provision.Service.Provision` | `server/internal/provision/provision.go:166-194` | The method answers the first candidate if that server takes the peer (has it already, or grants a row and answers), the second if the first has no address or is unreachable and the second takes it, and fails otherwise: no third server is asked and none after a rejection, with NoServer exactly for no candidate. It is one fixed run of the machine, keeps the device served, leaves the named server serving, alone if the revoke write landed, and puts each failed push off by 2 s doubled per attempt behind it, up to 300 s, within a fifth. |
| `Provision.Service.ProvisionOn` | `server/internal/provision/provision.go:196-227` | One attempt: whether the server took the peer, passed over or rejected it, the table and boxes after, no call at all for a row already applied, the lost record after a successful push, and the retry time of a failed one. |
| `Provision.ATryIsTwoSteps` | `server/internal/provision/provision.go:196-227` | What an attempt does is the machine's two steps, asking for the row and handling the answer, for every reply. |
| `Provision.TheTriesAreARun` | `server/internal/provision/provision.go:166-193` | The loop over candidates, whatever the replies, is one fixed list of the machine's events. |
| `Provision.AnotherServerIsAsGoodAsBefore` | `server/internal/provision/provision.go:167-188` | What a try at a second server comes to is the same with or without the failed try at the first: failing over costs it nothing. |
| `Provision.AskingAgainTouchesNothing` | `server/internal/provision/provision.go:127-128` | After a push that was taken and recorded, a further request for that server succeeds without an edge call and without a write, whatever the edge would have answered. |
| `Reconciler.RepeatedPassesConverge` | `server/internal/provision/reconciler.go:63-147` | For any choice of rows and users the limited queries make: after as many passes as the measure (at most three per row) every row is active or revoked, active rows belong to entitled users and are installed; a row is left behind only on a box that is down, put off by at most 360 seconds. |
| `Reconciler.PassDoesWork` | `server/internal/provision/reconciler.go:63-113` | While anything is left to do, one pass strictly lowers the measure. |
| `Reconciler.IdleMeansConverged` | `server/internal/provision/reconciler.go:63-147` | Measure zero means desired and actual state agree. |
| `Reconciler.AFailedPushIsPutOff` | `server/internal/provision/reconciler.go:137-147` | A row a pass picks up on a box that is down ends with one attempt more and its next attempt 2 s times 2 to the attempts before it, or 300 s if less, away, within 20%; nothing else about it changes but the cause on record. |
| `Reconciler.FailuresDoubleTheDelay` | `server/internal/provision/reconciler.go:137-147` | Over any number of failed passes in a row, at any times and with anything else going on, the delay doubles each time up to the cap. |
| `Reconciler.AnExpiryIsActedOnInThePassThatNoticesIt` | `server/internal/provision/reconciler.go:62-83` | Because the sweep comes first: if the batches are large enough, one pass revokes every lapsed user's row on a box that answers. |
| `Reconciler.Loop.ExpiredUserIds` | `server/internal/store/subscriptions.go:104-134` | The query returns distinct users without live time who still hold live rows: all of them, or as many as the limit allows. |
| `Reconciler.Loop.DueAssignments` | `server/internal/store/peers.go:262-301` | The query returns distinct rows waiting for a push whose time has come, all of them or as many as the limit allows, ordered by due time, and none it leaves out was due earlier. |
| `Reconciler.Loop.OncePass` | `server/internal/provision/reconciler.go:63-113` | The two loops of one pass are one of the passes the theorem speaks of. |
| `Reconciler.Loop.RunFor` | `server/internal/provision/reconciler.go:47-60` | Three ticks per row are enough for the fleet to converge. |
| `Backoff.Jittered` | `server/internal/provision/backoff.go:19-32` | Every delay lies between 1.6 and 360 seconds, for any attempt number and any draw. |
| `Backoff.TheDelayDoublesUpToTheCap` | `server/internal/provision/backoff.go:19-32` | The nth delay lies within 20% of 2 s doubled n - 1 times, or of 300 s if that is less. |
| `Backoff.Delay` | `server/internal/provision/backoff.go:19-32` | The doubling loop computes the capped power of two, jittered. |
| `Selector.LessIsAStrictTotalOrder` | `server/internal/provision/selector.go:61-82` | The comparison is irreflexive, asymmetric, transitive, and decides between any two servers with different codes. |
| `Selector.SortIsCanonical` | `server/internal/provision/selector.go:59-83` | With unique codes the result is the one ordered permutation: the same for every input order and for every correct way of sorting. |
| `Selector.AutomaticChoice` | `server/internal/provision/selector.go:52-56` | With no code or the code auto, choice fails only if no server is active; else each active server appears once, ordered by room before full, then lower priority number, then the user's own country, then fewer live peers, then code. |
| `Selector.ExplicitChoice` | `server/internal/provision/selector.go:33-50` | A named active server comes first, then every other active server exactly once in that same order; an unknown or inactive name is refused even if others could serve. |
| `Selector.SortServers` | `server/internal/provision/selector.go:59-83` | In place: the array ends as the specified stable sort of what it held. |
| `Selector.Candidates` | `server/internal/provision/selector.go:27-57` | The method returns the specified choice, errors included. |
| `WgClient.Client.Sync` | `edge/internal/wg/wg.go:134-171` | For any interface, any list and any iteration order of both loops: on success the interface has exactly the wanted peers, and it is exactly the wanted map if and only if wanted addresses are distinct and every skipped peer was tidy; it succeeds exactly when no command fails; invalid input changes nothing; at every command, failed runs included, there are at most max(before, wanted) peers, no kept peer is missing, and no skipped peer loses its address. |
| `WireGuard.SettledIsExactWhenTidy` | `edge/internal/wg/wg.go:161-169` | The condition: what Sync leaves is the wanted map if and only if each peer it skips lists, apart from addresses set on others, just its own /32. |
| `WireGuard.SharedAddressesCannotBeExact` | `edge/internal/wg/wg.go:161-169` | Under WireGuard's one-owner rule no interface can be exact for two peers wanted at one address. |
| `WireGuard.SyncIsExactOnceDrivenHere` | `edge/internal/wg/wg.go:132-171` | An interface that only ever had single host addresses, which every command keeps, syncs exactly. |
| `WireGuard.CommandsKeepTheRules` | `edge/internal/wg/wg.go:105-130` | Setting and removing keep the one-owner rule and the single-address shape. |
| `WireGuard.AnExtraAddressSurvives` | `edge/internal/wg/wg.go:161-164` | A concrete interface that Sync does not make exact: a second address added by hand stays. |
| `WgClient.Client.SetPeer` | `edge/internal/wg/wg.go:79-112` | A replaced key is never on the interface after the call has changed anything; the result is the specified one on success, and after a failure one of the three states on the way; validation errors change nothing. |
| `WgClient.Client.RemovePeer` | `edge/internal/wg/wg.go:114-130` | On success the peer is gone and nothing else changed; absence is no error. |
| `WireGuard.ARetryEndsTheSame` | `edge/internal/wg/wg.go:79-112` | From wherever a failed SetPeer stopped, the same request ends in the state the first try was for. |
| `EdgeSync.AResyncReachesTheInterface` | `server/internal/provision/reconciler.go:192-209` | For every run of the control plane and every interface: the list a resync sends is accepted, syncing it leaves a peer for each pending or active row and no other, and each has its row's address alone if and only if the peers skipped were tidy, as they are on an interface driven only by the agent. |
| `EdgeSync.ReachableRowsAreApart` | `server/internal/store/peers.go:331-349` | Live rows of one server never share a key or an address, in any reachable state. |
| `Subscriptions.TimeIsConserved` | `server/internal/store/subscriptions.go:52-72` | Remaining time, summed over the blocks, is the span from now to the latest expiry. |
| `Subscriptions.EachGrantAddsItsDuration` | `server/internal/store/subscriptions.go:52-72` | Each serialized grant adds exactly the plan's duration to the user's remaining time and nothing to anyone else's. |
| `ConcurrentGrants.TimeIsLostExactlyWhen` | `server/internal/store/subscriptions.go:54-66` | For grants whose read and insert interleave with others, in every reachable state: an insert adds its full duration to the entitled time left if and only if the user's latest expiry is still where the grant read it, and otherwise less by as far as it has moved. |
| `ConcurrentGrants.NoInterleavingOpensAGap` | `server/internal/store/subscriptions.go:54-66` | No interleaving of grants opens a gap before the latest expiry. |
| `ConcurrentGrants.TwoAtOnceCountAsOne` | `server/internal/store/subscriptions.go:54-66` | Two grants of any one plan that both read before either inserts leave the time of one. |
| `Subscriptions.PurchasesStack` | `server/internal/store/subscriptions.go:54-66` | After any serialized purchases a user's blocks are pairwise disjoint and follow one another. |
| `Subscriptions.NoGap` | `server/internal/store/subscriptions.go:54-66` | Every instant from now to the latest expiry is covered. |
| `Subscriptions.RemainingReachesTheFrontier` | `server/internal/store/subscriptions.go:56-61` | For stacked blocks the clipped lengths sum to the latest expiry minus now: no overlap counted twice, no gap. |
| `Subscriptions.EntitledExactlyWhileTimeRemains` | `server/internal/store/subscriptions.go:76-94` | A block covers the moment exactly when time remains, and at most one does, so the ordering in the query never chooses. |
| `Subscriptions.RevokingABlockOpensItsOwnGap` | `server/internal/store/subscriptions.go:76-94` | Withdrawing any one block of any history leaves the user entitled exactly outside the span that block covered: later blocks do not move up. |
| `Subscriptions.RevokingAStackedBlockOpensAGap` | `server/internal/store/subscriptions.go:56-61` | Unrevoked is needed: a concrete user with time left and no entitlement after one block is revoked. |
| `Subscriptions.Store.GrantTimeBlock` | `server/internal/store/subscriptions.go:52-72` | Inserts the specified block, or fails and inserts nothing for an unknown plan. |
| `Subscriptions.Store.Entitlement` | `server/internal/store/subscriptions.go:76-94` | Returns a block covering the moment if there is one, the best by device limit and expiry. |
| `Payments.AtMostOneBlockPerReference` | `server/internal/api/payment_handlers.go:192-269` | Under every interleaving of deliveries, verify calls and store failures a reference yields at most one block, none unless settled, and every block was paid for at the recorded price or more. |
| `Payments.SettledMeansOneBlockExactlyWhen` | `server/internal/api/payment_handlers.go:241-265` | Over every run, a settled reference with no grant outstanding has exactly one block if and only if no step was a first settle unheard or without user or plan, or a refused grant. |
| `Payments.AQualifyingSettleLeavesOneBlock` | `server/internal/api/payment_handlers.go:241-268` | After a covering charge's settle call goes through, at every later point with no grant of the reference outstanding there is exactly one block if and only if no step of the run dropped it. |
| `Payments.AnArrivedChargeIsPaidOut` | `server/internal/api/payment_handlers.go:192-268` | Whatever interleaves: a covering charge that arrives in a fresh webhook, or is vouched for to a verify call, is settled once its thread's calls are answered; and with no grant outstanding it then has its one block if and only if no step of the run dropped it. |
| `Payments.SettledInTheEnd` | `server/internal/api/payment_handlers.go:192-248` | The progress behind it: from the receipt, the lookup or the settle on, that many answered calls settle the reference, over every run of the other threads. |
| `Payments.ALostGrantIsLostForGood` | `server/internal/api/payment_handlers.go:241-265` | A reference dropped by such a step yields no block in any later run, however often it is delivered or verified again. |
| `Payments.AGrantCanBeLost` | `server/internal/api/payment_handlers.go:262-265` | It comes to that for any covering charge of a priced reference whose grant call fails after the settle. |
| `Payments.SuccessIsAbsorbing` | `server/internal/store/payments.go:48-71` | Once successful always successful; prices are fixed; blocks are only appended; whatever happens later. |
| `Payments.CallConserves` | `server/internal/store/payments.go:95-112` | The conservation law: blocks, grants outstanding and grants lost for a reference always add up to whether it is settled. |
| `Payments.PaymentServer.SettleCharge` | `server/internal/api/payment_handlers.go:218-269` | The handler, undisturbed, is the machine's lookup, settle and grant calls, each of which may fail before or after it landed. In its own terms: it settles exactly a covering charge of a known reference whose settle call was not refused, and adds a block, for the recorded or else echoed user and plan, exactly when that was the first and the grant was not refused; it answers true exactly when all calls were answered. |
| `Payments.PaymentServer.ProcessWebhook` | `server/internal/api/payment_handlers.go:192-213` | A delivery is a machine thread from its receipt on, every call able to fail. In its own terms: the first delivery of a successful charge settles what it covers and adds the block it earned; any other leaves at most a receipt. |
| `Payments.PaymentServer.RecordWebhookEvent` | `server/internal/store/payments.go:14-26` | New exactly when not seen before; seen ever after. |
| `PaidTime.SettledReferencesAreTime` | `server/internal/api/payment_handlers.go:241-268` | With the time blocks joined on, over every interleaving: block for block the stack has the buyer, plan and duration paid for; a settled reference with no grant outstanding has its block exactly if no step dropped it; what a buyer has left is the covered time to their latest expiry. |
| `PaidTime.EachBlockAddsItsTime` | `server/internal/api/payment_handlers.go:262-268` | The step that makes a reference's block adds exactly its plan's duration to what the buyer has left, and no step changes what anyone has left otherwise. |
| `RateLimiter.AtMostTwiceTheLimit` | `server/internal/api/middleware.go:155-178` | For limit at least 1 and any calls at non-decreasing times, a closed interval of one window length holds at most 2 * limit - 1 allowed calls per key: below the 2 * limit one would expect of a fixed window. |
| `RateLimiter.AllowedExactlyWhen` | `server/internal/api/middleware.go:155-178` | For any calls at non-decreasing times: a call is let through if and only if it has no key, opens a window (the key's first call, or later than a window after the last opening one), or is within the limit among the key's calls since the opening one. |
| `RateLimiter.AQuietWindowLetsIn` | `server/internal/api/middleware.go:171-177` | A call is let through whenever none of its key was in the window's length before it: being refused never puts a client further off. |
| `RateLimiter.SweepingChangesNoAnswer` | `server/internal/api/middleware.go:163-169` | With and without the eviction sweep every call of every sequence gets the same answer. |
| `RateLimiter.TheBoundIsReached` | `server/internal/api/middleware.go:171-177` | For every limit and every window but zero, a sequence of calls that meets the bound. |
| `RateLimiter.AZeroWindowSeesTheLimit` | `server/internal/api/middleware.go:171-177` | At a window of zero the limit itself is the bound. |
| `RateLimiter.ALimitOfZeroStillLetsOneThrough` | `server/internal/api/middleware.go:171-175` | Why the limit must be at least one. |
| `RateLimiter.Limiter.AllowKey` | `server/internal/api/middleware.go:155-178` | In place, with the sweep in any order of keys: map and answer are the specified ones. |
| `EngineGuarantees.StatusIsHonest` | `android/core/src/main/kotlin/ng/proxify/core/ReliabilityEngine.kt:107-311` | Over every run: CONNECTED means traffic is tunnelled, UNPROTECTED means it is direct, and strict mode never shows UNPROTECTED. |
| `EngineGuarantees.StrictModeNeverLeaks` | `android/core/src/main/kotlin/ng/proxify/core/ReliabilityEngine.kt:145-158` | In strict mode traffic once blocked or tunnelled never becomes direct except by the user's own disconnect. |
| `EngineGuarantees.TrafficTurnsDirectExactlyWhen` | `android/core/src/main/kotlin/ng/proxify/core/ReliabilityEngine.kt:145-311` | From any state in which traffic is not direct, an input makes it so if and only if it is a disconnect, in soft mode a terminal failure, or in soft mode the end of a grace window with the tunnel wanted and not up. |
| `EngineGuarantees.ALapsedSubscriptionEndsTheHold` | `android/core/src/main/kotlin/ng/proxify/core/ReliabilityEngine.kt:224-245` | A run in which traffic turns direct inside a running grace window. |
| `EngineGuarantees.DisconnectIsFinal` | `android/core/src/main/kotlin/ng/proxify/core/ReliabilityEngine.kt:145-158` | After a disconnect no start, retry or grace action comes before the next connect, whatever else arrives. |
| `EngineGuarantees.ADisconnectedPhoneShowsConnectedExactlyWhen` | `android/core/src/main/kotlin/ng/proxify/core/ReliabilityEngine.kt:145-222` | A disconnect does not call an attempt off: until the next connect the phone shows CONNECTED exactly while one that came up since has not been dropped by a lost network, another disconnect, a terminal failure or a lowering stall. |
| `EngineGuarantees.DirectTrafficIsAnnounced` | `android/core/src/main/kotlin/ng/proxify/core/ReliabilityEngine.kt:122-333` | Over every run, with or without a config: direct traffic means DISCONNECTED, UNPROTECTED or FAILED at every point if and only if no input unmasks it, that is, no connect request without a config and no stall that lowers the MTU while traffic is direct. |
| `EngineGuarantees.ACarefulCallerNeverUnmasks` | `android/core/src/main/kotlin/ng/proxify/core/ReliabilityEngine.kt:122-333` | A caller that holds a config and reports stalls only while connected never does that. |
| `EngineGuarantees.ConnectingWithoutAConfigIsNotAnnounced` | `android/core/src/main/kotlin/ng/proxify/core/ReliabilityEngine.kt:124-127` | The first unmasking input: without a config, connecting shows CONNECTING over direct traffic. |
| `EngineGuarantees.AStallWhileUnprotectedIsNotAnnounced` | `android/core/src/main/kotlin/ng/proxify/core/ReliabilityEngine.kt:323-333` | The second: told of a stall while UNPROTECTED, the engine says RECONNECTING over direct traffic. |
| `EngineGuarantees.EveryTunnelHasASafeMtu` | `android/core/src/main/kotlin/ng/proxify/core/ReliabilityEngine.kt:131-142` | Over every run from empty memory each tunnel is started with an MTU in 1200..1420. |
| `EngineGuarantees.StallsLowerUntilTheFloor` | `android/core/src/main/kotlin/ng/proxify/core/ReliabilityEngine.kt:323-333` | After any run from empty memory a stall strictly lowers the MTU and restarts the tunnel with it, until 1200, where it does nothing. |
| `EngineGuarantees.StabilityRemembersOneRungUp` | `android/core/src/main/kotlin/ng/proxify/core/ReliabilityEngine.kt:315-321` | After any run from empty memory, stability changes nothing about the running tunnel and remembers at most one rung above its MTU for that network. |
| `EngineGuarantees.OtherNetworksAreUntouched` | `android/core/src/main/kotlin/ng/proxify/core/ReliabilityEngine.kt:107-333` | Over any run spent on other networks, what is remembered for a network, MTU and transport, does not change. |
| `EngineGuarantees.WorkingTransportIsTriedFirst` | `android/core/src/main/kotlin/ng/proxify/core/TransportLadder.kt:46-50` | What worked on a network is what the phone starts with when it comes back there after any run on other networks, as long as the server offers it. |
| `EngineActions.TheServiceIsToldThePolicyExactlyWhen` | `android/core/src/main/kotlin/ng/proxify/core/ReliabilityEngine.kt:107-359` | Every policy action carries the policy the state shows, and the state's policy changes with no policy action exactly at a lost network, and at the end of a grace window in strict mode with traffic not blocked. |
| `EngineActions.ATunnelIsStartedExactlyWhen` | `android/core/src/main/kotlin/ng/proxify/core/ReliabilityEngine.kt:107-351` | A tunnel is started exactly for a request or a retry with a config and a network, for a network other than the one a tunnel is up on, and for a stall that lowers the MTU; always on the rung and with the MTU the state shows. |
| `EngineActions.AFreshStartUsesWhatWasLearned` | `android/core/src/main/kotlin/ng/proxify/core/ReliabilityEngine.kt:122-192` | A request or a new network starts the attempt count over with traffic blocked, at the transport learned for the network if the server offers it, else UDP, and with the MTU learned there, else the config's brought into 1200..1420. |
| `EngineActions.AConfigIsAskedForExactlyWhen` | `android/core/src/main/kotlin/ng/proxify/core/ReliabilityEngine.kt:122-287` | A refresh is asked for exactly when a config is missing for something wanted, at a terminal failure, and when the edge rejected the peer of a wanted tunnel. |
| `EngineActions.RetriesStartTheRungFailuresLedTo` | `android/core/src/main/kotlin/ng/proxify/core/ReliabilityEngine.kt:247-287` | Over any streak of failures, retries, timers and stalls, a retry starts the rung that many failures of the ladder lead to. |
| `EngineActions.PairsOfFailuresMoveUpTheLadder` | `android/core/src/main/kotlin/ng/proxify/core/ReliabilityEngine.kt:247-287` | So with distinct transports, 2n failures of a fresh start on rung i make the next retry start rung (i + n) mod length. |
| `EngineActions.DelaysFollowTheTable` | `android/core/src/main/kotlin/ng/proxify/core/ReconnectPolicy.kt:18-46` | Over any such streak, the failure after k others schedules exactly one retry, within a quarter of the table's step for the attempts so far. |
| `EngineActions.ASuccessForgivesOneFailure` | `android/core/src/main/kotlin/ng/proxify/core/TransportLadder.kt:47-51` | The failure after a success is the first of a new streak and changes no transport. |
| `EngineActions.UnprotectedIsSaidThroughout` | `android/core/src/main/kotlin/ng/proxify/core/ReliabilityEngine.kt:254-270` | Once UNPROTECTED is shown it stays, over direct traffic, through any failures, retries and timers. |
| `ReliabilityEngine.RetryDelayRange` | `android/core/src/main/kotlin/ng/proxify/core/ReconnectPolicy.kt:21-29` | For any attempt number and draw the retry delay is in 0..37,500 ms. |
| `ReliabilityEngine.ReliabilityEngine.HandleEvent` | `android/core/src/main/kotlin/ng/proxify/core/ReliabilityEngine.kt:107-118` | In place: for each of the ten events the new state and the actions are the specified ones. |
| `ReliabilityEngine.ReliabilityEngine.NetworkAvailableHandler` | `android/core/src/main/kotlin/ng/proxify/core/ReliabilityEngine.kt:162-192` | Handoff, return from offline, capability change and missing config are told apart as specified. |
| `ReliabilityEngine.ReliabilityEngine.FailedHandler` | `android/core/src/main/kotlin/ng/proxify/core/ReliabilityEngine.kt:224-276` | Terminal and recoverable failures, the grace window and the refresh after a rejection, as specified. |
| `ReliabilityEngine.ReliabilityEngine.StalledHandler` | `android/core/src/main/kotlin/ng/proxify/core/ReliabilityEngine.kt:323-333` | The stall handler in place. |
| `TunnelService.HeldTrafficIsReleasedInTime` | `android/app/src/main/java/ng/proxify/vpn/vpn/ProxifyVpnService.kt:240-268` | Soft mode, a config held: over every run the grace timer is pending exactly when the engine says so, traffic is blocked while it is, and no stretch of blocked traffic with a network present outlasts the grace window. |
| `TunnelService.GraceDeadlineIsNeverExtended` | `android/app/src/main/java/ng/proxify/vpn/vpn/ProxifyVpnService.kt:248-254` | Nothing that happens, failures and handoffs included, moves a pending grace deadline. |
| `TunnelService.HeldSinceIsTheStartOfTheHold` | `android/core/src/main/kotlin/ng/proxify/core/ReliabilityEngine.kt:337-351` | The history variable in that theorem is set when a hold starts, kept while it lasts, and cleared when it ends. |
| `TunnelService.TheServiceIsNeverStuck` | `android/app/src/main/java/ng/proxify/vpn/vpn/ProxifyVpnService.kt:117-155` | Over every run, whenever a tunnel is wanted, a network is present and it is not connected, an attempt is in flight, a retry is scheduled or a config refresh is outstanding. |
| `TunnelService.AStallStrandsExactlyWhen` | `android/core/src/main/kotlin/ng/proxify/core/ReliabilityEngine.kt:323-333` | Reporting a stall would leave nothing under way if and only if it lowers the MTU of a wanted tunnel with a network, no transport chosen and nothing under way already. |
| `TunnelService.AStallCouldLeaveItStuck` | `android/core/src/main/kotlin/ng/proxify/core/ReliabilityEngine.kt:323-333` | A concrete run in which a reported stall would leave nothing under way: the service never reporting one is needed. |
| `TunnelService.RetriesComeSoon` | `android/core/src/main/kotlin/ng/proxify/core/ReliabilityEngine.kt:254-270` | Every retry the engine schedules is due within 37.5 seconds. |
| `TunnelService.ATunnelCanOutliveADisconnectExactlyWhen` | `android/app/src/main/java/ng/proxify/vpn/vpn/ProxifyVpnService.kt:141-155` | After a disconnect, some run short of the next connect shows CONNECTED if and only if an attempt was in flight. |
| `ServiceTraffic.ThePolicyIsCarriedOutExactlyWhen` | `android/app/src/main/java/ng/proxify/vpn/vpn/ProxifyVpnService.kt:222-231` | With tun and backend added, over every run: the policy last applied is the engine's, except exactly from a network lost while traffic was not blocked until the next policy applied. |
| `ServiceTraffic.AnEndIsAnEnd` | `android/app/src/main/java/ng/proxify/vpn/vpn/ProxifyVpnService.kt:126-137` | A disconnect, a lost network and a terminal failure leave the backend stopped and no timer pending; a disconnect, and in soft mode a terminal failure, also close the tun, and in strict mode a terminal failure applies BLOCK and keeps it. |
| `ServiceTraffic.ASuccessIsASuccess` | `android/core/src/main/kotlin/ng/proxify/core/ReliabilityEngine.kt:208-222` | A success leaves no retry and no grace timer, stops nothing, and schedules the stability check for 90 s. |
| `ServiceTraffic.AGraceWindowIsAFullOne` | `android/app/src/main/java/ng/proxify/vpn/vpn/ProxifyVpnService.kt:248-254` | In either mode a grace timer newly set is due exactly a window away, over blocked traffic, with no window running before. |
| `ServiceTraffic.StrictModeHoldsExactlyOnceATunIsOpen` | `android/app/src/main/java/ng/proxify/vpn/vpn/ProxifyVpnService.kt:222-236` | In strict mode, once the engine does not let traffic out, over every run without a disconnect no direct policy is applied, and packets go round the tunnel exactly as long as no attempt has opened a tun. |
| `ServiceTraffic.TheFirstHoldHoldsNothing` | `android/app/src/main/java/ng/proxify/vpn/vpn/ProxifyVpnService.kt:217-218` | Before the first tun is open, BLOCK is shown and applied while packets take the normal route. |
| `ServiceTraffic.ConnectedMeansTunnelledExactlyWhen` | `android/app/src/main/java/ng/proxify/vpn/vpn/ProxifyVpnService.kt:141-155` | Over every run: CONNECTED means tun open and backend running at every point if and only if no attempt reports success after its backend was stopped or its tun closed. |
| `ServiceTraffic.ADeadTunnelCanShowConnected` | `android/app/src/main/java/ng/proxify/vpn/vpn/ProxifyVpnService.kt:141-155` | It is reached: with the network lost between the backend's start and its report, and back again, the phone shows CONNECTED, sends nothing and has nothing under way. |
| `ServiceTraffic.DirectTrafficFlowsExactlyWhen` | `android/app/src/main/java/ng/proxify/vpn/vpn/ProxifyVpnService.kt:222-236` | Over every run: traffic the engine lets out takes the normal route at every point if and only if no attempt opens the tun meanwhile. |
| `ServiceTraffic.AnUnprotectedPhoneCanBeBlocked` | `android/app/src/main/java/ng/proxify/vpn/vpn/ProxifyVpnService.kt:141-155` | It is reached: an attempt that got its tun and then failed leaves an UNPROTECTED phone sending nothing until the next retry. |
| `TunnelService.Service.DispatchEvent` | `android/app/src/main/java/ng/proxify/vpn/vpn/ProxifyVpnService.kt:117-124` | In place: engine, timers and work in flight after an event are the specified ones. |
| `TunnelService.Service.ExecuteAction` | `android/app/src/main/java/ng/proxify/vpn/vpn/ProxifyVpnService.kt:126-137` | Each action has its specified effect on timers, attempts and refreshes. |
| `TransportLadder.FailuresWalkTheLadder` | `android/core/src/main/kotlin/ng/proxify/core/TransportLadder.kt:32-44` | With distinct transports, 2n failures from rung i with a zero counter end at rung (i + n) mod length, counter zero again. |
| `TransportLadder.RememberedElseUdp` | `android/core/src/main/kotlin/ng/proxify/core/TransportLadder.kt:18-22` | What is tried first is on the ladder: the transport remembered for the network if it is still offered, else UDP. |
| `TransportLadder.RepeatedTransportTrapsTheWalk` | `android/core/src/main/kotlin/ng/proxify/core/TransportLadder.kt:38-42` | Where a transport is listed twice, failures starting after its first rung and up to its second never lead back to UDP. |
| `TransportLadder.UdpReturnsExactlyWhenDistinct` | `android/core/src/main/kotlin/ng/proxify/core/TransportLadder.kt:36-43` | From every rung the walk comes back to UDP if and only if the transports are distinct. |
| `TransportLadder.TransportLadder.Failure` | `android/core/src/main/kotlin/ng/proxify/core/TransportLadder.kt:32-44` | In place: counter and next rung as specified. |
| `TransportLadder.TransportLadder.PreferredRung` | `android/core/src/main/kotlin/ng/proxify/core/TransportLadder.kt:18-22` | The remembered transport's first rung, or the first rung. |
| `TransportLadder.TransportLadder.Success` | `android/core/src/main/kotlin/ng/proxify/core/TransportLadder.kt:47-50` | In place: counter reset, transport remembered for that network only. |
| `TunnelConfig.ServedLaddersAreDistinct` | `server/internal/provision/provision.go:262-283` | Whatever a server's obfuscation record holds, the ladder a client builds from the fallbacks it is served has distinct transports, starts with UDP, and offers exactly what the record allows. |
| `TunnelConfig.ServedLadder` | `server/internal/provision/provision.go:262-283` | Exactly which rungs that ladder has, with their endpoints and in order: UDP, TCP if the record has a port, WS-TLS if it has a host. |
| `MtuPolicy.HigherIsOneRungUp` | `android/core/src/main/kotlin/ng/proxify/core/MtuPolicy.kt:34-40` | The next value to try is the next rung above, never past 1420. |
| `MtuPolicy.LowerIsStrict` | `android/core/src/main/kotlin/ng/proxify/core/MtuPolicy.kt:47-56` | A stall in range goes strictly down unless at 1200 already, and stays in range. |
| `MtuPolicy.MtuPolicy.Stable` | `android/core/src/main/kotlin/ng/proxify/core/MtuPolicy.kt:34-40` | In place: value returned and memory as specified. |
| `MtuPolicy.MtuPolicy.Stall` | `android/core/src/main/kotlin/ng/proxify/core/MtuPolicy.kt:47-56` | In place: value returned and memory as specified. |
| `MtuPolicy.MtuPolicy.For` | `android/core/src/main/kotlin/ng/proxify/core/MtuPolicy.kt:23-26` | The remembered value, or the configured one forced into range. |
| `PacketInspector.RepairIsExact` | `android/core/src/main/kotlin/ng/proxify/core/apps/PacketInspector.kt:91-112` | For every IPv4 header of any length: if it verified and its marking changed, the repaired field equals the full recomputation of section 3.1 of RFC 791, not just modulo 65535; and it verifies afterwards if and only if it did before. |
| `PacketInspector.MarkingAnIpv4Header` | `android/core/src/main/kotlin/ng/proxify/core/apps/PacketInspector.kt:91-129` | For every verifying header and DSCP: still verifies, equals full recomputation if and only if it was modified or was not 0xFFFF, reads back the DSCP, keeps ECN, reports modification truthfully, and changes only bytes 1, 10 and 11. |
| `PacketInspector.MarkingAnIpv6Header` | `android/core/src/main/kotlin/ng/proxify/core/apps/PacketInspector.kt:114-125` | Reads back the DSCP, keeps ECN, version and flow label, and changes only the first two bytes. |
| `PacketInspector.AnAllOnesChecksumCanStay` | `android/core/src/main/kotlin/ng/proxify/core/apps/PacketInspector.kt:98-98` | A verifying header that already bears its mark and keeps 0xFFFF where recomputation gives 0. |
| `PacketInspector.VerifiesMeansChecksum` | `android/core/src/main/kotlin/ng/proxify/core/apps/PacketInspector.kt:146-153` | A header verifies exactly when its field is the full recomputation, or is the other zero of ones' complement. |
| `PacketInspector.FoldIsCongruent` | `android/core/src/main/kotlin/ng/proxify/core/apps/PacketInspector.kt:149-151` | Folding keeps the value modulo 65535 and never makes a positive sum zero. |
| `PacketInspector.IncrementalChecksum` | `android/core/src/main/kotlin/ng/proxify/core/apps/PacketInspector.kt:147-153` | The loop ends, with equation 3 of section 3 of RFC 1624. |
| `PacketInspector.MarkInPlace` | `android/core/src/main/kotlin/ng/proxify/core/apps/PacketInspector.kt:91-129` | On the buffer: the window holds the specified bytes and nothing outside it changes. |
| `PacketPipeline.InboundUndoesOutbound` | `android/core/src/main/kotlin/ng/proxify/core/PacketPipeline.kt:80-98` | If each stage's inbound undoes its outbound on single packets, a chain of any length does: inbound over whatever outbound emitted is exactly the packet sent. |
| `PacketPipeline.ChainUndoesItself` | `android/core/src/main/kotlin/ng/proxify/core/PacketPipeline.kt:80-98` | The same for any sequence of packets at once. |
| `PacketPipeline.StagesActInOrder` | `android/core/src/main/kotlin/ng/proxify/core/PacketPipeline.kt:80-98` | On the way out the back of a chain is given what its front sends; on the way in the front is given what the back sends. For every way of cutting a chain in two. |
| `PacketPipeline.TwoStages` | `android/core/src/main/kotlin/ng/proxify/core/PacketPipeline.kt:80-98` | What a chain of two sends: the second stage over each packet the first sends, and in the other direction the first over each the second sends. |
| `PacketPipeline.PacketPipeline.Outbound` | `android/core/src/main/kotlin/ng/proxify/core/PacketPipeline.kt:80-88` | With the pass-through shortcut and the early exit the result is the plain fold. |
| `PacketPipeline.PacketPipeline.Inbound` | `android/core/src/main/kotlin/ng/proxify/core/PacketPipeline.kt:90-98` | The same in reverse order. |
| `TrafficClassifier.MarkingIsIdempotent` | `android/core/src/main/kotlin/ng/proxify/core/apps/TrafficClassifier.kt:89-93` | Marking does not disturb what classification reads: marking a marked packet changes no byte. |
| `TrafficClassifier.MarkingIsNotUndone` | `android/core/src/main/kotlin/ng/proxify/core/apps/TrafficClassifier.kt:89-95` | The far end gets the packet sent if and only if the packet has no header to mark or bore its class's mark already. |
| `TrafficClassifier.TheMarkingStageIsNotSymmetric` | `android/core/src/main/kotlin/ng/proxify/core/apps/TrafficClassifier.kt:89-95` | So for every resolver the stage breaks the symmetric-stage contract, with a packet that shows it. |
| `TrafficClassifier.WritingIsVisible` | `android/core/src/main/kotlin/ng/proxify/core/apps/PacketInspector.kt:91-129` | Writing a DSCP leaves a packet unchanged if and only if it has no header to write or bears that DSCP. |
| `TrafficClassifier.OnlyCallShapesGetTheCallMark` | `android/core/src/main/kotlin/ng/proxify/core/apps/TrafficClassifier.kt:29-93` | With no app known to be a call, a packet leaves with the call mark exactly if it is a UDP datagram of 40..400 bytes, off the DNS ports, of no known app: never anything large. |
| `TrafficClassifier.EachMarkLeavesExactlyWhen` | `android/core/src/main/kotlin/ng/proxify/core/apps/TrafficClassifier.kt:29-93` | For each of the marks 46, 34, 0 and 8, exactly which markable packets leave with it: by the class of the app if known, else by protocol, port and payload size. |

## Left out

- PeerStore.Store.AllocateIp: the query takes the first free candidate with LIMIT 1 and no ORDER BY; the model takes the lowest, as the function's comment says.
- PeerRows.Ensure: the subnet text is a number of host bits, so parsing it and the non-IPv4 error are not modelled; created_at and updated_at are dropped, and the transaction is one step.
- Reconciler.RepeatedPassesConverge: store calls succeed, the clock stands still, and a pass reads each row fresh when it pushes it; pushes from stale snapshots are in `Acknowledgement`.
- Reconciler.Loop.DueAssignments: no SKIP LOCKED, as one reconciler runs at a time there; several at once are in `Acknowledgement` and `EdgeContents`.
- Provision.Service.Provision: entitlement, device ownership and device limit checks come before the modelled loop; a store failure inside EnsureAssignment is treated like an unreachable box.
- EdgeContents.AcknowledgedKeysStayExactlyWhen: keys only, not addresses, and wipes are not among its events; a call takes effect when it is answered.
- LocationSwitch.GapsOpenExactlyWhen: one request at a time for the device, its key unchanged, the device entitled and its boxes not wiped meanwhile; a late call that is heard is recorded in the same step, as `EdgeContents` has the two apart.
- PaidTime.SettledReferencesAreTime: the grant is one step, as in the settlement machine.
- EdgeSync.AResyncReachesTheInterface: addresses are host offsets in the server's subnet, and the list is in table order instead of address order, which Sync does not see.
- TunnelService.HeldTrafficIsReleasedInTime: timers fire promptly and cancelling one takes effect; a coroutine that dispatches after it was cancelled is not modelled.
- ServiceTraffic.ConnectedMeansTunnelledExactlyWhen: a started backend is taken to run on the service's tun until stopped; what the WireGuard library does with interfaces of its own is not modelled, nor is the service being destroyed.
- TunnelService.TheServiceIsNeverStuck: the wait before retrying an unavailable control plane counts as an outstanding refresh; that a coroutine eventually ends is assumed of the platform.
- Subscriptions.EachGrantAddsItsDuration: grants are serialized here; `ConcurrentGrants` splits each into its read and its insert. Revocation of blocks is in `Subscriptions.RevokingABlockOpensItsOwnGap` only.
- Payments.PaymentServer.ProcessWebhook: handled_at, payloads and the provider's own verification are not modelled; one provider, so a reference is one string.
- RateLimiter.AtMostTwiceTheLimit: calls are one at a time under the mutex, with a clock that does not go back.
- Selector.Candidates: trimming and case folding of codes and countries happen before the model's inputs; codes compare character by character.
- WgClient.Client.Sync: `wg show` output parsing is a snapshot of the first address of each peer; persisting is one command that copies the running state.
- PacketInspector.MarkInPlace: reads and writes the array directly; ByteBuffer state other than position and limit is not modelled.
- HealthSweep and boot IDs: the boot ID is stored before the resync is tried, so a failed one is not repeated on its own; the model has resyncs and wipes as events at any time.
- checkDeviceLimit: a lookup among the user's oldest devices; it would only add an easy member.
- fallbacksFor takes any number as tcp_port; ports are unbounded integers here, and Endpoint.parse is not modelled.
- Integer widths: revisions, attempts and counts are unbounded; checksum arithmetic is on explicit 16-bit ranges.
- Jitter and random draws are parameters in 0 to 1 and delays are computed over reals.
- HTTP handlers, JSON, authentication, key generation, the Paystack and edge HTTP clients, PostgreSQL itself, the Android UI, network callbacks and the WireGuard backend: only their outcomes appear.
- AppCatalog data, load display, plan and server listings, migrations and deployment scripts.
